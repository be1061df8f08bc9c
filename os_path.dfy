/** The `os.path` operations (POSIX flavour) that the upload and ingestion code uses. */
module OsPath {
  import opened Strings

  /** `s.rfind(c)`: the last index of `c`, or -1. */
  function LastIndexOf(s: string, c: char): (r: int)
    ensures -1 <= r < |s|
    ensures r >= 0 ==> s[r] == c
    ensures forall j :: r < j < |s| ==> s[j] != c
    decreases |s|
  {
    if |s| == 0 then -1
    else if s[|s| - 1] == c then |s| - 1
    else LastIndexOf(s[..|s| - 1], c)
  }

  /** A character that does not occur after a marked occurrence makes that occurrence the last one. */
  lemma LastIndexOfMarked(a: string, b: string, c: char)
    requires c !in b
    ensures LastIndexOf(a + [c] + b, c) == |a|
  {
    var s := a + [c] + b;
    assert s[|a|] == c;
    assert s[|a| + 1..] == b;
  }

  /** `os.path.splitext(p)`: the extension starts at the last dot of the last path component,
      provided something other than dots precedes that dot within the component. */
  function SplitExt(p: string): (r: (string, string))
    ensures r.0 + r.1 == p
    ensures r.1 != "" ==> r.1[0] == '.' && '.' !in r.1[1..] && '/' !in r.1
    ensures r.1 != "" ==> exists k :: LastIndexOf(p, '/') < k < |r.0| && p[k] != '.'
    ensures r.1 == "" ==>
      forall k :: LastIndexOf(p, '/') < k < |p| && p[k] == '.' ==>
        forall j :: LastIndexOf(p, '/') < j < k ==> p[j] == '.'
  {
    var sepIndex := LastIndexOf(p, '/');
    var dotIndex := LastIndexOf(p, '.');
    if dotIndex > sepIndex && exists k :: sepIndex < k < dotIndex && p[k] != '.' then
      (p[..dotIndex], p[dotIndex..])
    else
      (p, "")
  }

  /** The extension part of `os.path.splitext(p)`. */
  function Extension(p: string): string
  {
    SplitExt(p).1
  }

  /** `os.path.basename(p)`: everything after the last slash. */
  function Basename(p: string): (r: string)
    ensures '/' !in r
    ensures EndsWith(p, r)
  {
    p[LastIndexOf(p, '/') + 1..]
  }

  /** Drop trailing slashes (`rstrip('/')`). */
  function TrimTrailingSlashes(s: string): string
    decreases |s|
  {
    if |s| > 0 && s[|s| - 1] == '/' then TrimTrailingSlashes(s[..|s| - 1]) else s
  }

  /** `os.path.dirname(p)`: everything before the last slash, trailing slashes removed unless
      nothing but slashes is left. */
  function Dirname(p: string): string
  {
    var head := p[..LastIndexOf(p, '/') + 1];
    if head != [] && TrimTrailingSlashes(head) != [] then TrimTrailingSlashes(head) else head
  }

  /** `os.path.join(a, b)` for two components. */
  function PathJoin(a: string, b: string): (r: string)
    ensures EndsWith(r, b)
  {
    if StartsWith(b, "/") then b
    else if a == [] || EndsWith(a, "/") then a + b
    else a + "/" + b
  }

  /** Joining onto a non-empty directory without a trailing slash a name without a leading slash
      puts exactly one slash between them. */
  lemma PathJoinInsertsSlash(a: string, b: string)
    requires a != [] && a[|a| - 1] != '/'
    requires b == [] || b[0] != '/'
    ensures PathJoin(a, b) == a + "/" + b
  {
    assert !EndsWith(a, "/") by { assert a[|a| - 1..] != "/"; }
    assert !StartsWith(b, "/") by { if b != [] { assert b[..1] != "/"; } }
  }

  /** The last slash of `a + "/" + b` is the one inserted, when `b` has none: the basename is `b`
      and the directory is `a`, provided `a` does not end in a slash. */
  lemma SplitAtInsertedSlash(a: string, b: string)
    requires a != [] && a[|a| - 1] != '/'
    requires '/' !in b
    ensures Basename(a + "/" + b) == b
    ensures Dirname(a + "/" + b) == a
  {
    var p := a + "/" + b;
    LastIndexOfMarked(a, b, '/');
    assert p[|a| + 1..] == b;
    assert p[..|a| + 1] == a + "/";
    assert (a + "/")[..|a|] == a;
    assert TrimTrailingSlashes(a + "/") == TrimTrailingSlashes(a) == a;
  }

  /** A name `stem.ext` whose stem is not empty and where neither part holds a dot or a slash has
      the extension `.ext`. */
  lemma ExtensionOfDottedName(stem: string, ext: string)
    requires stem != [] && '.' !in stem && '/' !in stem
    requires '.' !in ext && '/' !in ext
    ensures Extension(stem + "." + ext) == "." + ext
  {
    var p := stem + "." + ext;
    LastIndexOfMarked(stem, ext, '.');
    assert '/' !in p by {
      forall i | 0 <= i < |p| ensures p[i] != '/' {
        if i < |stem| { assert p[i] == stem[i]; }
        else if i > |stem| { assert p[i] == ext[i - |stem| - 1]; }
      }
    }
    assert LastIndexOf(p, '/') == -1;
    assert p[0] == stem[0] != '.';
    assert p[|stem|..] == "." + ext;
  }

  /** The extension of a name made only of a dot and letters, such as ".pdf", is empty. */
  lemma {:induction false} NoExtensionForLeadingDotName(p: string)
    requires |p| > 0 && p[0] == '.'
    requires forall i :: 0 < i < |p| ==> p[i] != '.' && p[i] != '/'
    ensures Extension(p) == ""
  {
    assert LastIndexOf(p, '/') == -1;
    assert LastIndexOf(p, '.') == 0;
  }
}
