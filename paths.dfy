/**
 * The path arithmetic of Python's standard library that the build uses:
 * `str.split("/")` and `"/".join`, `pathlib.PurePosixPath` parsing and
 * printing (Python 3.12), `with_suffix("")`, and `os.path.join` for two
 * arguments.
 */
module Paths {
  import opened Base

  /** Python's `s.split("/")`: the pieces between slashes, always at least one. */
  function Split(s: string): (parts: seq<string>)
    ensures |parts| >= 1
    ensures forall p <- parts :: '/' !in p
  {
    if s == [] then [""]
    else
      var rest := Split(s[1..]);
      if s[0] == '/' then [""] + rest
      else [[s[0]] + rest[0]] + rest[1..]
  }

  /** Python's `"/".join(parts)`. */
  function Join(parts: seq<string>): string
  {
    if parts == [] then ""
    else if |parts| == 1 then parts[0]
    else parts[0] + "/" + Join(parts[1..])
  }

  lemma {:induction false} JoinSplit(s: string)
    ensures Join(Split(s)) == s
  {
    if s != [] {
      var rest := Split(s[1..]);
      JoinSplit(s[1..]);
      if s[0] == '/' {
        assert Split(s) == [""] + rest;
      } else if |rest| == 1 {
        assert s == [s[0]] + s[1..];
      } else {
        assert Split(s)[1..] == rest[1..];
        assert Join(rest) == rest[0] + "/" + Join(rest[1..]);
        assert s == [s[0]] + s[1..];
      }
    }
  }

  /** A piece without a slash is split into itself. */
  lemma {:induction false} SplitName(a: string)
    requires '/' !in a
    ensures Split(a) == [a]
  {
    if a != [] {
      SplitName(a[1..]);
      assert a == [a[0]] + a[1..];
    }
  }

  /** Splitting at the first slash. */
  lemma {:induction false} SplitAtSlash(a: string, b: string)
    requires '/' !in a
    ensures Split(a + "/" + b) == [a] + Split(b)
  {
    if a == [] {
      assert a + "/" + b == "/" + b;
      assert ("/" + b)[1..] == b;
    } else {
      assert (a + "/" + b)[1..] == a[1..] + "/" + b;
      SplitAtSlash(a[1..], b);
      assert a == [a[0]] + a[1..];
    }
  }

  lemma {:induction false} SplitJoin(parts: seq<string>)
    requires |parts| >= 1
    requires forall p <- parts :: '/' !in p
    ensures Split(Join(parts)) == parts
  {
    if |parts| == 1 {
      SplitName(parts[0]);
    } else {
      SplitJoin(parts[1..]);
      SplitAtSlash(parts[0], Join(parts[1..]));
    }
  }

  /** One component of a parsed path: non-empty, not ".", no slash. */
  predicate IsName(p: string)
  {
    p != "" && p != "." && '/' !in p
  }

  /** The pieces that `PurePosixPath` keeps: empty pieces and "." are dropped. */
  function Keep(parts: seq<string>): (names: seq<string>)
    ensures forall n <- names :: n in parts
    ensures (forall p <- parts :: '/' !in p) ==> forall n <- names :: IsName(n)
  {
    if parts == [] then []
    else (if parts[0] != "" && parts[0] != "." then [parts[0]] else []) + Keep(parts[1..])
  }

  lemma {:induction false} KeepNames(names: seq<string>)
    requires forall n <- names :: IsName(n)
    ensures Keep(names) == names
  {
    if names != [] {
      assert IsName(names[0]);
      KeepNames(names[1..]);
      assert names == [names[0]] + names[1..];
    }
  }

  /** The components of `s`, as `PurePosixPath` splits them. */
  function Components(s: string): (names: seq<string>)
    ensures forall n <- names :: IsName(n)
  {
    Keep(Split(s))
  }

  /** Names joined back by slashes are their own components. */
  lemma ComponentsOfJoin(names: seq<string>)
    requires forall n <- names :: IsName(n)
    ensures Components(Join(names)) == names
  {
    if names == [] {
      assert Split("") == [""];
    } else {
      SplitJoin(names);
      KeepNames(names);
    }
  }

  /** A parsed POSIX path: its root ("", "/" or exactly "//") and its components. */
  datatype PurePath = PurePath(root: string, tail: seq<string>)

  predicate WellFormed(p: PurePath)
  {
    (p.root == "" || p.root == "/" || p.root == "//") && forall n <- p.tail :: IsName(n)
  }

  /**
   * `PurePosixPath(s)`: a path that starts with exactly two slashes keeps
   * both; one or three and more become one; repeated slashes and "."
   * components disappear.
   */
  function ParsePath(s: string): (p: PurePath)
    ensures WellFormed(p)
    ensures p.root != "" <==> (s != [] && s[0] == '/')
  {
    if s == [] || s[0] != '/' then PurePath("", Components(s))
    else if |s| == 1 || s[1] != '/' || (|s| >= 3 && s[2] == '/') then PurePath("/", Components(s))
    else PurePath("//", Components(s[2..]))
  }

  /** `str(path)`: the root, the components joined by slashes, "." for the empty path. */
  function PathStr(p: PurePath): (s: string)
    ensures s != []
    ensures p.root != "" ==> p.root <= s
  {
    var body := p.root + Join(p.tail);
    if body == "" then "." else body
  }

  /** What `str(Path(s))` prints: the normal form of `s`. */
  function Normalize(s: string): string
  {
    PathStr(ParsePath(s))
  }

  /** Printing a parsed path and parsing it again gives the same path back. */
  lemma ParsePathStr(p: PurePath)
    requires WellFormed(p)
    ensures ParsePath(PathStr(p)) == p
  {
    var j := Join(p.tail);
    ComponentsOfJoin(p.tail);
    if p.tail != [] {
      assert IsName(p.tail[0]);
      JoinHead(p.tail);
    }
    if p.root == "" {
      if p.tail == [] {
        ParseDot();
      } else {
        assert PathStr(p) == j;
      }
    } else if p.root == "/" {
      assert ("/" + j)[1..] == j;
      assert Split("/" + j) == [""] + Split(j);
    } else {
      assert ("//" + j)[2..] == j;
    }
  }

  /** Joining a first piece before the others puts one slash between. */
  lemma JoinCons(a: string, rest: seq<string>)
    requires rest != []
    ensures Join([a] + rest) == a + "/" + Join(rest)
  {
    assert ([a] + rest)[1..] == rest;
  }

  /** Joined names start with the first name's first character. */
  lemma JoinHead(names: seq<string>)
    requires names != [] && names[0] != []
    ensures Join(names) != [] && Join(names)[0] == names[0][0]
  {
    if |names| > 1 {
      assert Join(names) == names[0] + ("/" + Join(names[1..]));
    }
  }

  /** "." is the empty relative path. */
  lemma ParseDot()
    ensures ParsePath(".") == PurePath("", [])
  {
    assert Split(".") == ["."] by { SplitName("."); }
    assert ["."][1..] == [];
  }

  /** A rooted path whose components are plain names parses into "/" and those names. */
  lemma ParseRooted(names: seq<string>)
    requires |names| >= 1 && forall n <- names :: IsName(n)
    ensures ParsePath("/" + Join(names)) == PurePath("/", names)
  {
    assert PathStr(PurePath("/", names)) == "/" + Join(names);
    ParsePathStr(PurePath("/", names));
  }

  /** `/p//name`: the empty piece between the two slashes is dropped. */
  lemma SplitGap(p: string, name: string)
    requires '/' !in p && '/' !in name
    ensures Split("/" + p + "//" + name) == ["", p, "", name]
  {
    var t := p + "/" + ("/" + name);
    assert "/" + p + "//" + name == "" + "/" + t;
    SplitAtSlash("", t);
    SplitAtSlash(p, "/" + name);
    assert "/" + name == "" + "/" + name;
    SplitAtSlash("", name);
    SplitName(name);
  }

  /** A doubled slash between two names parses like a single one. */
  lemma ParseGap(p: string, name: string)
    requires IsName(p) && IsName(name)
    ensures ParsePath("/" + p + "//" + name) == PurePath("/", [p, name])
  {
    var s := "/" + p + "//" + name;
    SplitGap(p, name);
    KeepNames([name]);
    assert ["", name][1..] == [name];
    assert Keep(["", name]) == [name];
    assert [p, "", name][1..] == ["", name];
    assert Keep([p, "", name]) == [p, name];
    assert ["", p, "", name][1..] == [p, "", name];
    assert Keep(["", p, "", name]) == [p, name];
    assert s[1] == p[0];
  }

  lemma PathStrRooted(names: seq<string>)
    ensures PathStr(PurePath("/", names)) == "/" + Join(names)
  {
  }

  /** Normalising twice is normalising once. */
  lemma NormalizeIdempotent(s: string)
    ensures Normalize(Normalize(s)) == Normalize(s)
  {
    ParsePathStr(ParsePath(s));
  }

  /** Position of the last `c` in `s`, or -1: Python's `s.rfind(c)`. */
  function LastIndex(s: string, c: char): (i: int)
    ensures -1 <= i < |s|
    ensures i >= 0 ==> s[i] == c && c !in s[i + 1..]
    ensures i == -1 ==> c !in s
  {
    if s == [] then -1
    else if s[|s| - 1] == c then |s| - 1
    else
      var i := LastIndex(s[..|s| - 1], c);
      assert s == s[..|s| - 1] + [s[|s| - 1]];
      i
  }

  /**
   * `PurePath.suffix`: from the last dot of a name to its end, provided that
   * dot is neither the first nor the last character; otherwise empty.
   */
  function Suffix(name: string): (suffix: string)
    ensures |suffix| <= |name| && name[|name| - |suffix|..] == suffix
    ensures suffix != [] ==> |suffix| >= 2 && suffix[0] == '.' && '.' !in suffix[1..]
    ensures suffix != [] ==> |suffix| < |name|
  {
    var i := LastIndex(name, '.');
    if 0 < i < |name| - 1 then name[i..] else ""
  }

  /** The name without its suffix, as `with_suffix("")` leaves it. */
  function Stem(name: string): (stem: string)
    ensures stem + Suffix(name) == name
  {
    name[..|name| - |Suffix(name)|]
  }

  /** A name `stem.ext` whose extension has no dot and whose stem is not empty loses ".ext". */
  lemma {:induction false} StemOfExtension(stem: string, ext: string)
    requires stem != [] && ext != [] && '.' !in ext
    ensures Stem(stem + "." + ext) == stem
  {
    var name := stem + "." + ext;
    assert LastIndex(name, '.') == |stem| by {
      LastIndexPast(stem + ".", ext, '.');
    }
  }

  /** Characters after the last `c` do not move it. */
  lemma {:induction false} LastIndexPast(s: string, t: string, c: char)
    requires s != [] && s[|s| - 1] == c && c !in t
    ensures LastIndex(s + t, c) == |s| - 1
    decreases |t|
  {
    if t != [] {
      var u := s + t;
      assert u[..|u| - 1] == s + t[..|t| - 1];
      LastIndexPast(s, t[..|t| - 1], c);
    } else {
      assert s + t == s;
    }
  }

  datatype PathError = EmptyName

  /** The components with the suffix of the last one removed. */
  function StemLast(names: seq<string>): (stemmed: seq<string>)
    requires |names| >= 1
    ensures |stemmed| == |names| && stemmed[..|names| - 1] == names[..|names| - 1]
    ensures stemmed[|names| - 1] + Suffix(names[|names| - 1]) == names[|names| - 1]
  {
    names[..|names| - 1] + [Stem(names[|names| - 1])]
  }

  /** `path.with_suffix("")`: drops the final component's suffix; a path without components has no name. */
  function WithoutSuffix(p: PurePath): (r: Result<PurePath, PathError>)
    ensures r.Err? <==> p.tail == []
    ensures r.Ok? ==> r.value.root == p.root && |r.value.tail| == |p.tail|
    ensures r.Ok? ==> r.value.tail[..|p.tail| - 1] == p.tail[..|p.tail| - 1]
    ensures r.Ok? ==> r.value.tail[|p.tail| - 1] + Suffix(p.tail[|p.tail| - 1]) == p.tail[|p.tail| - 1]
  {
    if p.tail == [] then Err(EmptyName) else Ok(PurePath(p.root, StemLast(p.tail)))
  }

  /** Python's `os.path.join(a, b)` on POSIX: an absolute `b` discards `a`. */
  function OsPathJoin(a: string, b: string): (path: string)
    ensures b != [] && b[0] == '/' ==> path == b
    ensures (b == [] || b[0] != '/') ==> a <= path && |b| <= |path| && path[|path| - |b|..] == b
    ensures (b == [] || b[0] != '/') ==> path == a + b || path == a + "/" + b
    ensures (b == [] || b[0] != '/') && a != [] && a[|a| - 1] != '/' ==> path == a + "/" + b
  {
    if b != [] && b[0] == '/' then b
    else if a == [] || a[|a| - 1] == '/' then a + b
    else a + "/" + b
  }
}
