/** The command line and the host it runs on: the errors the program can
    stop with, the visibility choice, the `--path` validation of
    `path_object`, and the filesystem, path and mimetype services the
    uploader consults, taken as oracles. */
module Cli {
  import opened Options

  /** `ALLOWED_VISIBILITIES`, in order: the first one is the default. */
  const AllowedVisibilities: seq<string> := ["private", "public-read"]

  /** The access-control level every uploaded object gets. */
  datatype Visibility = Private | PublicRead {
    /** The ACL string this visibility is sent as. */
    function Acl(): (s: string)
      ensures s in AllowedVisibilities
    {
      match this
      case Private => "private"
      case PublicRead => "public-read"
    }
  }

  /** Why a run stops. */
  datatype Error =
    /** `path_object` raised `ArgumentTypeError` for this resolved path */
    | PathNotFound(abspath: string)
    /** argparse rejected a `--s3_visibility` outside the choices */
    | InvalidVisibility(value: string)
    /** no content type could be guessed for this file */
    | UnknownMimetype(path: string)

  /** What the program asks of its host. Every service is an oracle: the
      model takes its answers as given. */
  datatype Host = Host(
    /** `BASE_DIR.joinpath(value)`: the path resolved against the
        program's own directory */
    resolve: string -> string,
    /** `Path.exists()` */
    pathExists: string -> bool,
    /** `Path.is_dir()` */
    isDir: string -> bool,
    /** `Path.is_file()` */
    isFile: string -> bool,
    /** `Path.rglob('*')`: every entry below a directory, in the order
        the filesystem yields them */
    walk: string -> seq<string>,
    /** `file.relative_to(dir).as_posix()` */
    relativePosix: (string, string) -> string,
    /** `os.path.basename(path)` */
    baseName: string -> string,
    /** `os.stat(path).st_size` */
    fileSize: string -> nat,
    /** `mimetypes.guess_type(path)[0]` */
    guessType: string -> Option<string>,
    /** the sizes the storage client reports to the progress callback,
        one per call, while it transfers this file */
    callbackSizes: string -> seq<int>)

  /** The command-line arguments the uploader's logic reads. */
  datatype Args = Args(
    bucket: string,                 // --s3_bucket
    s3Path: string,                 // --s3_path
    path: string,                   // --path, before validation
    s3Root: Option<string>,         // --s3_root, absent by default
    s3Visibility: Option<string>)   // --s3_visibility, when given

  /** The validated configuration a run works from. */
  datatype Config = Config(
    bucket: string,
    s3Path: string,
    path: string,                   // resolved and known to exist
    root: Option<string>,
    visibility: Visibility)

  /** argparse's handling of `--s3_visibility`: an absent flag gives the
      first allowed value, a given one must be among the choices. */
  function ParseVisibility(value: Option<string>): (r: Result<Visibility, Error>)
    ensures value.None? ==> r == Ok(Private) && Private.Acl() == AllowedVisibilities[0]
    ensures value.Some? ==> (r.Ok? <==> value.value in AllowedVisibilities)
    ensures value.Some? && r.Ok? ==> r.value.Acl() == value.value
    ensures value.Some? && r.Err? ==> r.error == InvalidVisibility(value.value)
  {
    match value
    case None => Ok(Private)
    case Some(s) =>
      if s == "private" then Ok(Private)
      else if s == "public-read" then Ok(PublicRead)
      else Err(InvalidVisibility(s))
  }

  /** Each visibility is accepted back from the string it is sent as. */
  lemma VisibilityRoundTrip(v: Visibility)
    ensures ParseVisibility(Some(v.Acl())) == Ok(v)
  {
  }

  /** `path_object`: the resolved path when it exists, an argument error
      naming the resolved path otherwise. */
  function PathObject(value: string, host: Host): (r: Result<string, Error>)
    ensures r.Ok? <==> host.pathExists(host.resolve(value))
    ensures r.Ok? ==> r.value == host.resolve(value)
    ensures r.Err? ==> r.error == PathNotFound(host.resolve(value))
  {
    var abspath := host.resolve(value);
    if host.pathExists(abspath) then Ok(abspath) else Err(PathNotFound(abspath))
  }

  /** The part of `parse_args` the model keeps: `--path` goes through
      `path_object` and `--s3_visibility` through the choices; the other
      flags are copied. */
  function ParseArgs(args: Args, host: Host): (r: Result<Config, Error>)
    ensures r.Ok? <==> (host.pathExists(host.resolve(args.path))
      && (args.s3Visibility.None? || args.s3Visibility.value in AllowedVisibilities))
    ensures r.Ok? ==> (r.value.path == host.resolve(args.path)
      && r.value.bucket == args.bucket && r.value.s3Path == args.s3Path
      && r.value.root == args.s3Root)
    ensures r.Ok? ==> r.value.visibility.Acl() in AllowedVisibilities
    ensures r.Ok? && args.s3Visibility.None? ==> r.value.visibility == Private
    ensures r.Ok? && args.s3Visibility.Some? ==> r.value.visibility.Acl() == args.s3Visibility.value
    ensures r.Err? && !host.pathExists(host.resolve(args.path)) ==> r.error == PathNotFound(host.resolve(args.path))
    ensures r.Err? && host.pathExists(host.resolve(args.path)) ==> r.error == InvalidVisibility(args.s3Visibility.value)
  {
    match PathObject(args.path, host)
    case Err(e) => Err(e)
    case Ok(abspath) =>
      match ParseVisibility(args.s3Visibility)
      case Err(e) => Err(e)
      case Ok(v) => Ok(Config(args.bucket, args.s3Path, abspath, args.s3Root, v))
  }
}
