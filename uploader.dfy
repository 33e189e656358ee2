/** The uploader proper: the single-file and directory routines, the
    content-type guard that stops a run, and the dispatch of `main`. An
    upload is modelled as the request record the program hands to the
    storage client; the transfer itself belongs to the client. */
module Uploader {
  import opened Options
  import opened Keys
  import opened Progress
  import opened Cli

  /** The arguments of one `client.upload_file` call. */
  datatype UploadRequest = UploadRequest(
    filename: string,      // Filename
    bucket: string,        // Bucket
    key: string,           // Key
    acl: string,           // ExtraArgs['ACL']
    contentType: string)   // ExtraArgs['ContentType']

  /** How a run ends: `Done.` or an uncaught error. */
  datatype Outcome = Done | Failed(error: Error)

  /** The request for one file under a configuration. */
  function RequestFor(cfg: Config, filename: string, key: string, contentType: string): UploadRequest {
    UploadRequest(filename, cfg.bucket, key, cfg.visibility.Acl(), contentType)
  }

  /** The files of a directory upload: the entries of the walk that are
      regular files, in the order the walk yields them. */
  function RegularFiles(entries: seq<string>, isFile: string -> bool): (files: seq<string>)
    ensures |files| <= |entries|
  {
    if entries == [] then []
    else
      var rest := RegularFiles(entries[1..], isFile);
      if isFile(entries[0]) then [entries[0]] + rest else rest
  }

  /** A path is among the files to upload exactly when the walk yields it
      and it is a regular file. */
  lemma {:induction false} RegularFilesMembers(entries: seq<string>, isFile: string -> bool, f: string)
    ensures f in RegularFiles(entries, isFile) <==> f in entries && isFile(f)
  {
    if entries != [] {
      RegularFilesMembers(entries[1..], isFile, f);
      assert entries == [entries[0]] + entries[1..];
    }
  }

  /** The list `upload_dir` iterates over: the regular files below the
      source directory. */
  function DirFiles(cfg: Config, host: Host): seq<string> {
    RegularFiles(host.walk(cfg.path), host.isFile)
  }

  /** The position of the first file whose content type cannot be
      guessed, or the number of files when every type can be. */
  function FirstUnguessable(files: seq<string>, guess: string -> Option<string>): (n: nat)
    ensures n <= |files|
    ensures forall k :: 0 <= k < n ==> guess(files[k]).Some?
    ensures n < |files| ==> guess(files[n]).None?
  {
    if files == [] then 0
    else if guess(files[0]).None? then 0
    else
      var n := FirstUnguessable(files[1..], guess);
      assert forall k :: 1 <= k < n + 1 ==> files[k] == files[1..][k - 1];
      n + 1
  }

  /** The key of a file found in the source directory. */
  function DirKey(cfg: Config, host: Host, file: string): string {
    ObjectKey(cfg.root, cfg.s3Path, host.relativePosix(file, cfg.path))
  }

  /** The key of the single file being uploaded. */
  function FileKey(cfg: Config, host: Host): string {
    ObjectKey(cfg.root, cfg.s3Path, host.baseName(cfg.path))
  }

  /** What `upload_dir` does: one request per file in list order, until
      the first file whose content type cannot be guessed; that file and
      every later one are not attempted, and the run fails naming it. */
  ghost predicate DirTrace(cfg: Config, host: Host, issued: seq<UploadRequest>, outcome: Outcome) {
    var files := DirFiles(cfg, host);
    var n := FirstUnguessable(files, host.guessType);
    |issued| == n
    && (forall k :: 0 <= k < n ==>
          issued[k] == RequestFor(cfg, files[k], DirKey(cfg, host, files[k]), host.guessType(files[k]).value))
    && outcome == (if n == |files| then Done else Failed(UnknownMimetype(files[n])))
  }

  /** What `upload_file` asks of the client: one request when the content
      type can be guessed, none otherwise, and then the run fails. */
  ghost predicate FileTrace(cfg: Config, host: Host, issued: seq<UploadRequest>, outcome: Outcome) {
    match host.guessType(cfg.path)
    case None => issued == [] && outcome == Failed(UnknownMimetype(cfg.path))
    case Some(t) => issued == [RequestFor(cfg, cfg.path, FileKey(cfg, host), t)] && outcome == Done
  }

  /** `upload_dir`. */
  method UploadDir(cfg: Config, host: Host) returns (issued: seq<UploadRequest>, outcome: Outcome)
    ensures DirTrace(cfg, host, issued, outcome)
  {
    var storeAt := StoreAt(cfg.root, cfg.s3Path);
    var files := DirFiles(cfg, host);
    ghost var n := FirstUnguessable(files, host.guessType);
    issued := [];
    var i := 0;
    while i < |files|
      invariant 0 <= i <= n
      invariant |issued| == i
      invariant forall k :: 0 <= k < i ==>
        issued[k] == RequestFor(cfg, files[k], DirKey(cfg, host, files[k]), host.guessType(files[k]).value)
    {
      var key := Join(storeAt, host.relativePosix(files[i], cfg.path));
      var mimetype := host.guessType(files[i]);
      if mimetype.None? {
        outcome := Failed(UnknownMimetype(files[i]));
        return;
      }
      issued := issued + [RequestFor(cfg, files[i], key, mimetype.value)];
      i := i + 1;
    }
    outcome := Done;
  }

  /** `upload_file`: the counter and the bar are set up first; when the
      content type is known, one request is issued and the client reports
      its progress through the callback, once per size it reports. */
  method UploadFile(cfg: Config, host: Host)
    returns (issued: seq<UploadRequest>, outcome: Outcome, transferred: int, position: int)
    ensures FileTrace(cfg, host, issued, outcome)
    ensures outcome == Done ==> transferred == Total(host.callbackSizes(cfg.path))
    ensures outcome == Done ==> position == BarPosition(host.callbackSizes(cfg.path))
    ensures outcome != Done ==> transferred == 0 && position == 0
  {
    var progress := new ByteProgress(host.fileSize(cfg.path));
    var storeAt := StoreAt(cfg.root, cfg.s3Path);
    storeAt := Join(storeAt, host.baseName(cfg.path));
    var mimetype := host.guessType(cfg.path);
    if mimetype.None? {
      issued, outcome := [], Failed(UnknownMimetype(cfg.path));
      transferred, position := progress.transferred, progress.position;
      return;
    }
    issued := [RequestFor(cfg, cfg.path, storeAt, mimetype.value)];
    var sizes := host.callbackSizes(cfg.path);
    var i := 0;
    while i < |sizes|
      invariant 0 <= i <= |sizes|
      invariant progress.Valid() && progress.sizes == sizes[..i]
    {
      progress.Record(sizes[i]);
      assert sizes[..i + 1] == sizes[..i] + [sizes[i]];
      i := i + 1;
    }
    assert sizes[..i] == sizes;
    outcome := Done;
    transferred, position := progress.transferred, progress.position;
  }

  /** `main`: validate the arguments, then hand a directory to
      `upload_dir` and anything else to `upload_file`. */
  method Run(args: Args, host: Host) returns (issued: seq<UploadRequest>, outcome: Outcome)
    ensures ParseArgs(args, host).Err? ==> issued == [] && outcome == Failed(ParseArgs(args, host).error)
    ensures ParseArgs(args, host).Ok? && host.isDir(ParseArgs(args, host).value.path) ==>
      DirTrace(ParseArgs(args, host).value, host, issued, outcome)
    ensures ParseArgs(args, host).Ok? && !host.isDir(ParseArgs(args, host).value.path) ==>
      FileTrace(ParseArgs(args, host).value, host, issued, outcome)
    ensures forall k :: 0 <= k < |issued| ==> (issued[k].acl in AllowedVisibilities
      && (args.s3Visibility.None? ==> issued[k].acl == "private")
      && (args.s3Visibility.Some? ==> issued[k].acl == args.s3Visibility.value))
  {
    var parsed := ParseArgs(args, host);
    if parsed.Err? {
      return [], Failed(parsed.error);
    }
    var cfg := parsed.value;
    if host.isDir(cfg.path) {
      issued, outcome := UploadDir(cfg, host);
    } else {
      var transferred, position;
      issued, outcome, transferred, position := UploadFile(cfg, host);
    }
    TraceAcls(cfg, host, issued, outcome);
  }

  /** Every request of a run carries the configured visibility as its
      ACL, and that is always one of the allowed values. */
  lemma TraceAcls(cfg: Config, host: Host, issued: seq<UploadRequest>, outcome: Outcome)
    requires DirTrace(cfg, host, issued, outcome) || FileTrace(cfg, host, issued, outcome)
    ensures forall k :: 0 <= k < |issued| ==>
      issued[k].acl == cfg.visibility.Acl() && issued[k].acl in AllowedVisibilities
  {
    var acl := cfg.visibility.Acl();
    assert acl in AllowedVisibilities;
    if DirTrace(cfg, host, issued, outcome) {
      var files := DirFiles(cfg, host);
      forall k | 0 <= k < |issued| ensures issued[k].acl == acl {
        assert issued[k] == RequestFor(cfg, files[k], DirKey(cfg, host, files[k]), host.guessType(files[k]).value);
      }
    }
  }

  /** A directory upload finishes exactly when a content type can be
      guessed for every file; it then uploads every file, in list order,
      each under `store_at + "/" + its relative path`. */
  lemma DirTraceComplete(cfg: Config, host: Host, issued: seq<UploadRequest>, outcome: Outcome)
    requires DirTrace(cfg, host, issued, outcome)
    ensures outcome == Done <==> forall k :: 0 <= k < |DirFiles(cfg, host)| ==> host.guessType(DirFiles(cfg, host)[k]).Some?
    ensures outcome == Done ==> |issued| == |DirFiles(cfg, host)|
    ensures outcome == Done ==> forall k :: 0 <= k < |issued| ==>
      issued[k].filename == DirFiles(cfg, host)[k] && issued[k].key == DirKey(cfg, host, DirFiles(cfg, host)[k])
  {
    var files := DirFiles(cfg, host);
    var n := FirstUnguessable(files, host.guessType);
    if outcome == Done {
      assert n == |files|;
      forall k | 0 <= k < |files|
        ensures issued[k].filename == files[k] && issued[k].key == DirKey(cfg, host, files[k])
      {
        assert issued[k] == RequestFor(cfg, files[k], DirKey(cfg, host, files[k]), host.guessType(files[k]).value);
      }
    } else {
      assert n < |files| && host.guessType(files[n]).None?;
      assert !(forall k :: 0 <= k < |files| ==> host.guessType(files[k]).Some?);
    }
  }

  /** When a directory upload fails, it fails on the first file whose
      content type cannot be guessed: the files before it were uploaded,
      in order, and none from it on was attempted. */
  lemma DirTraceStopsAtFirstUnguessable(cfg: Config, host: Host, issued: seq<UploadRequest>, outcome: Outcome)
    requires DirTrace(cfg, host, issued, outcome) && outcome.Failed?
    ensures |issued| < |DirFiles(cfg, host)|
    ensures outcome.error == UnknownMimetype(DirFiles(cfg, host)[|issued|])
    ensures host.guessType(DirFiles(cfg, host)[|issued|]).None?
    ensures forall k :: 0 <= k < |issued| ==>
      host.guessType(DirFiles(cfg, host)[k]).Some? && issued[k].filename == DirFiles(cfg, host)[k]
  {
    var files := DirFiles(cfg, host);
    forall k | 0 <= k < |issued| ensures issued[k].filename == files[k] {
      assert issued[k] == RequestFor(cfg, files[k], DirKey(cfg, host, files[k]), host.guessType(files[k]).value);
    }
  }

  /** A single-file upload issues its one request exactly when the content
      type can be guessed, under a key that ends with `/` and the file's
      base name; otherwise it issues nothing and fails naming the file. */
  lemma FileTraceGuard(cfg: Config, host: Host, issued: seq<UploadRequest>, outcome: Outcome)
    requires FileTrace(cfg, host, issued, outcome)
    ensures issued != [] <==> host.guessType(cfg.path).Some?
    ensures outcome == Done <==> host.guessType(cfg.path).Some?
    ensures issued == [] ==> outcome == Failed(UnknownMimetype(cfg.path))
    ensures issued != [] ==> (|issued| == 1
      && issued[0].contentType == host.guessType(cfg.path).value
      && var k := issued[0].key; var b := host.baseName(cfg.path);
         |k| > |b| && k[|k| - |b| - 1..] == "/" + b)
  {
    KeyEndsWithName(cfg.root, cfg.s3Path, host.baseName(cfg.path));
  }

  /** The directory scenario: root `assets`, destination `store`, and the
      two files `a/b.txt` (text) and `c.png` (image) found in that order. */
  lemma DirectoryScenario(cfg: Config, host: Host, issued: seq<UploadRequest>, outcome: Outcome, f1: string, f2: string)
    requires cfg.root == Some("assets") && cfg.s3Path == "store"
    requires DirFiles(cfg, host) == [f1, f2]
    requires host.relativePosix(f1, cfg.path) == "a/b.txt" && host.guessType(f1) == Some("text/plain")
    requires host.relativePosix(f2, cfg.path) == "c.png" && host.guessType(f2) == Some("image/png")
    requires DirTrace(cfg, host, issued, outcome)
    ensures outcome == Done
    ensures issued == [
      UploadRequest(f1, cfg.bucket, "assets/store/a/b.txt", cfg.visibility.Acl(), "text/plain"),
      UploadRequest(f2, cfg.bucket, "assets/store/c.png", cfg.visibility.Acl(), "image/png")]
  {
    DirectoryExampleKeys();
    var files := DirFiles(cfg, host);
    assert FirstUnguessable(files, host.guessType) == 2;
    assert issued[0] == RequestFor(cfg, f1, DirKey(cfg, host, f1), "text/plain");
    assert issued[1] == RequestFor(cfg, f2, DirKey(cfg, host, f2), "image/png");
  }
}
