/** Destination keys: how the uploader turns the `--s3_path` argument, the
    optional `--s3_root` prefix and a file's name into an object key. */
module Keys {
  import opened Options

  /** Every character of `s` is a `/`. */
  predicate AllSlashes(s: string) {
    forall k :: 0 <= k < |s| ==> s[k] == '/'
  }

  /** `s` neither starts nor ends with a `/`. */
  predicate NoEdgeSlash(s: string) {
    s == [] || (s[0] != '/' && s[|s| - 1] != '/')
  }

  /** Python's `s.lstrip('/')`: drops the run of `/` at the front. */
  function TrimLeading(s: string): string
    decreases |s|
  {
    if |s| > 0 && s[0] == '/' then TrimLeading(s[1..]) else s
  }

  /** Python's `s.rstrip('/')`: drops the run of `/` at the back. */
  function TrimTrailing(s: string): string
    decreases |s|
  {
    if |s| > 0 && s[|s| - 1] == '/' then TrimTrailing(s[..|s| - 1]) else s
  }

  /** `TrimLeading` leaves a suffix of its input that does not start with a
      slash, and what it drops is slashes only. */
  lemma {:induction false} TrimLeadingSpec(s: string)
    ensures var r := TrimLeading(s);
      |r| <= |s| && r == s[|s| - |r|..] && AllSlashes(s[..|s| - |r|]) && (r == [] || r[0] != '/')
    decreases |s|
  {
    if |s| > 0 && s[0] == '/' {
      TrimLeadingSpec(s[1..]);
      var r := TrimLeading(s[1..]);
      assert s[..|s| - |r|] == [s[0]] + s[1..][..|s| - 1 - |r|];
    }
  }

  /** `TrimTrailing` leaves a prefix of its input that does not end with a
      slash, and what it drops is slashes only. */
  lemma {:induction false} TrimTrailingSpec(s: string)
    ensures var r := TrimTrailing(s);
      |r| <= |s| && r == s[..|r|] && AllSlashes(s[|r|..]) && (r == [] || r[|r| - 1] != '/')
    decreases |s|
  {
    if |s| > 0 && s[|s| - 1] == '/' {
      TrimTrailingSpec(s[..|s| - 1]);
      var r := TrimTrailing(s[..|s| - 1]);
      assert s[|r|..] == s[..|s| - 1][|r|..] + [s[|s| - 1]];
    }
  }

  /** `r` is the piece `s[i..j]` of `s` once the slash runs at both of its
      ends are cut off: only `/` before `i` and after `j`, and `r` itself
      neither starts nor ends with `/`. */
  ghost predicate CutAt(s: string, r: string, i: int, j: int) {
    0 <= i <= j <= |s| && r == s[i..j]
      && AllSlashes(s[..i]) && AllSlashes(s[j..]) && NoEdgeSlash(r)
  }

  /** `r` is what remains of `s` once its leading and trailing slashes are
      removed. */
  ghost predicate StripOf(s: string, r: string) {
    exists i, j :: CutAt(s, r, i, j)
  }

  /** Python's `s.strip('/')`, as both `upload_file` and `upload_dir`
      apply it to the destination path. */
  function Strip(s: string): string {
    TrimTrailing(TrimLeading(s))
  }

  /** `Strip` cuts exactly the slash runs off both ends. */
  lemma StripCut(s: string)
    ensures StripOf(s, Strip(s))
  {
    TrimLeadingSpec(s);
    var l := TrimLeading(s);
    TrimTrailingSpec(l);
    var r := TrimTrailing(l);
    var i := |s| - |l|;
    assert r == s[i..i + |r|];
    assert s[i + |r|..] == l[|r|..];
    assert CutAt(s, r, i, i + |r|);
  }

  /** A cut of a string made only of slashes leaves nothing. */
  lemma CutOfSlashes(s: string, r: string, i: int, j: int)
    requires CutAt(s, r, i, j) && AllSlashes(s)
    ensures r == []
  {
  }

  /** An empty cut means the whole string was slashes. */
  lemma EmptyCut(s: string, i: int, j: int)
    requires CutAt(s, [], i, j)
    ensures AllSlashes(s)
  {
    forall k | 0 <= k < |s| ensures s[k] == '/' {
      if k < i { assert s[k] == s[..i][k]; } else { assert s[k] == s[j..][k - j]; }
    }
  }

  /** There is at most one way to cut the slash runs off a string. */
  lemma {:induction false} CutUnique(s: string, r1: string, i1: int, j1: int, r2: string, i2: int, j2: int)
    requires CutAt(s, r1, i1, j1) && CutAt(s, r2, i2, j2)
    ensures r1 == r2
  {
    if r1 == [] {
      EmptyCut(s, i1, j1);
      CutOfSlashes(s, r2, i2, j2);
    } else if r2 == [] {
      EmptyCut(s, i2, j2);
      CutOfSlashes(s, r1, i1, j1);
    } else {
      assert s[i1] == r1[0] && s[i2] == r2[0];
      assert s[j1 - 1] == r1[|r1| - 1] && s[j2 - 1] == r2[|r2| - 1];
    }
  }

  /** `Strip` is exactly the cut that `StripOf` describes: it is one such
      cut, and there is no other. */
  lemma StripCharacterized(s: string, r: string)
    ensures StripOf(s, r) <==> r == Strip(s)
  {
    var t := Strip(s);
    StripCut(s);
    var a, b :| CutAt(s, t, a, b);
    if StripOf(s, r) {
      var i, j :| CutAt(s, r, i, j);
      CutUnique(s, r, i, j, t, a, b);
    }
  }

  /** Stripping a second time changes nothing. */
  lemma StripIdempotent(s: string)
    ensures Strip(Strip(s)) == Strip(s)
  {
    StripCut(s);
    StripFixedPoints(Strip(s));
  }

  /** The strings `Strip` leaves alone are exactly those without a slash
      at either end. */
  lemma StripFixedPoints(t: string)
    ensures Strip(t) == t <==> NoEdgeSlash(t)
  {
    StripCut(t);
    if NoEdgeSlash(t) {
      assert t == t[0..|t|] && t[..0] == [] && t[|t|..] == [];
      assert CutAt(t, t, 0, |t|);
      StripCharacterized(t, t);
    }
  }

  /** Runs of slashes added before and after a path, of any lengths, do
      not change its stripped form. */
  lemma StripIgnoresEdgeSlashes(a: string, p: string, b: string)
    requires AllSlashes(a) && AllSlashes(b)
    ensures Strip(a + p + b) == Strip(p)
  {
    var s := a + p + b;
    var r := Strip(p);
    StripCut(p);
    var i, j :| CutAt(p, r, i, j);
    var n := |a|;
    assert r == s[n + i..n + j];
    SlashesJoin(a, p[..i]);
    assert s[..n + i] == a + p[..i];
    SlashesJoin(p[j..], b);
    assert s[n + j..] == p[j..] + b;
    assert CutAt(s, r, n + i, n + j);
    StripCharacterized(s, r);
  }

  /** Two runs of slashes joined form one run. */
  lemma SlashesJoin(a: string, b: string)
    requires AllSlashes(a) && AllSlashes(b)
    ensures AllSlashes(a + b)
  {
    forall k | 0 <= k < |a + b| ensures (a + b)[k] == '/' {
      if k < |a| { assert (a + b)[k] == a[k]; } else { assert (a + b)[k] == b[k - |a|]; }
    }
  }

  /** Python's truth test `if prefix:` on the optional root: `None` and
      the empty string are both false. */
  predicate HasPrefix(root: Option<string>) {
    root.Some? && root.value != ""
  }

  /** The common part of every key of one run (`store_at` in the source):
      the stripped destination path, behind `root + "/"` when a root is
      given. */
  function StoreAt(root: Option<string>, path: string): string {
    if HasPrefix(root) then Join(root.value, Strip(path)) else Strip(path)
  }

  /** `f"{store_at}/{name}"` */
  function Join(storeAt: string, name: string): string {
    storeAt + "/" + name
  }

  /** The key of one object: in single-file mode `name` is the file's base
      name, in directory mode its path relative to the source directory,
      in POSIX form. */
  function ObjectKey(root: Option<string>, path: string, name: string): string {
    Join(StoreAt(root, path), name)
  }

  /** With no root, or an empty one, the key prefix is exactly the
      stripped destination path; with a root it is the root, unchanged
      (not stripped), a `/`, and then the stripped destination path. */
  lemma StoreAtShape(root: Option<string>, path: string)
    ensures !HasPrefix(root) ==> StoreAt(root, path) == Strip(path)
    ensures HasPrefix(root) ==> var r := StoreAt(root, path);
      |r| == |root.value| + 1 + |Strip(path)| && r[..|root.value|] == root.value
      && r[|root.value|] == '/' && r[|root.value| + 1..] == Strip(path)
  {
  }

  /** A key is the key prefix, a `/`, and the name, with nothing lost or
      added. */
  lemma ObjectKeyShape(root: Option<string>, path: string, name: string)
    ensures var k := ObjectKey(root, path, name); var p := StoreAt(root, path);
      |k| == |p| + 1 + |name| && k[..|p|] == p && k[|p|] == '/' && k[|p| + 1..] == name
  {
  }

  /** Every key ends with `/` followed by the name it was built for. */
  lemma KeyEndsWithName(root: Option<string>, path: string, name: string)
    ensures var k := ObjectKey(root, path, name);
      |k| > |name| && k[|k| - |name| - 1..] == "/" + name
  {
    var k := ObjectKey(root, path, name);
    ObjectKeyShape(root, path, name);
    assert k[|k| - |name| - 1..] == [k[|StoreAt(root, path)|]] + k[|StoreAt(root, path)| + 1..];
  }

  /** Knowing the root and the destination path, the name can be read back
      out of the key: key construction is injective in the name, so two
      distinct names never share a key. */
  lemma KeyDeterminesName(root: Option<string>, path: string, n1: string, n2: string)
    ensures ObjectKey(root, path, n1) == ObjectKey(root, path, n2) <==> n1 == n2
  {
    ObjectKeyShape(root, path, n1);
    ObjectKeyShape(root, path, n2);
    if ObjectKey(root, path, n1) == ObjectKey(root, path, n2) {
      var m := |StoreAt(root, path)| + 1;
      assert n1 == ObjectKey(root, path, n1)[m..];
    }
  }

  /** Without a root, a key starts with a slash only when the destination
      path consists of slashes alone (then the key is `"/" + name`). */
  lemma KeyLeadingSlash(root: Option<string>, path: string, name: string)
    requires !HasPrefix(root)
    ensures ObjectKey(root, path, name)[0] == '/' <==> AllSlashes(path)
  {
    var r := Strip(path);
    StripCut(path);
    var i, j :| CutAt(path, r, i, j);
    ObjectKeyShape(root, path, name);
    if AllSlashes(path) {
      CutOfSlashes(path, r, i, j);
    } else if r == [] {
      EmptyCut(path, i, j);
    }
  }

  /** Extra slashes before or after the destination path, in any number
      (`/store`, `store//`, ...), never reach the key. */
  lemma KeyIgnoresEdgeSlashes(root: Option<string>, a: string, path: string, b: string, name: string)
    requires AllSlashes(a) && AllSlashes(b)
    ensures ObjectKey(root, a + path + b, name) == ObjectKey(root, path, name)
  {
    StripIgnoresEdgeSlashes(a, path, b);
  }

  /** Example: the destination `store` is used as it is. */
  lemma StripStore()
    ensures Strip("store") == "store"
  {
    StripFixedPoints("store");
  }

  /** The directory example: root `assets`, destination `store`, files
      `a/b.txt` and `c.png`. */
  lemma DirectoryExampleKeys()
    ensures ObjectKey(Some("assets"), "store", "a/b.txt") == "assets/store/a/b.txt"
    ensures ObjectKey(Some("assets"), "store", "c.png") == "assets/store/c.png"
  {
    StripStore();
    assert StoreAt(Some("assets"), "store") == "assets" + "/" + "store";
    assert "assets" + "/" + "store" + "/" + "a/b.txt" == "assets/store/a/b.txt";
    assert "assets" + "/" + "store" + "/" + "c.png" == "assets/store/c.png";
  }

  /** Example: with no root and destination `/store/`, and with the empty
      root and destination `store`, file `c.png` gets the key `store/c.png`. */
  lemma NoRootExampleKeys()
    ensures ObjectKey(None, "/store/", "c.png") == "store/c.png"
    ensures ObjectKey(Some(""), "store", "c.png") == "store/c.png"
  {
    StripStore();
    StripIgnoresEdgeSlashes("/", "store", "/");
    assert "/" + "store" + "/" == "/store/";
    assert "store" + "/" + "c.png" == "store/c.png";
  }
}
