/**
 * Loading the content directory (`collect_files` and
 * `load_content_from_dir`): every collected file is parsed, its front
 * matter is validated against its template's required fields, its clean
 * URL is derived from its path, and one record per file is returned in
 * collection order; the first invalid file aborts the whole load.
 */
module Loader {
  import opened Base
  import opened Strings
  import opened Paths
  import opened Content

  /** One step of `os.walk`: a directory and the names of the files directly in it. */
  datatype WalkEntry = WalkEntry(root: string, names: seq<string>)

  /** A whole `os.walk` listing, in the order it yields directories. */
  type Walk = seq<WalkEntry>

  /** The paths of one directory's files, `os.path.join(root, name)` for each name. */
  function Joined(e: WalkEntry): (paths: seq<string>)
    ensures |paths| == |e.names|
  {
    seq(|e.names|, k requires 0 <= k < |e.names| => OsPathJoin(e.root, e.names[k]))
  }

  /** Every file of the listing, directory by directory. */
  function Collected(walk: Walk): seq<string>
  {
    if walk == [] then [] else Collected(walk[..|walk| - 1]) + Joined(walk[|walk| - 1])
  }

  /** `collect_files`: appends the joined path of every file of every walked directory. */
  method CollectFiles(walk: Walk) returns (ret: seq<string>)
    ensures ret == Collected(walk)
  {
    ret := [];
    var i := 0;
    while i < |walk|
      invariant 0 <= i <= |walk|
      invariant ret == Collected(walk[..i])
    {
      var e := walk[i];
      ghost var before := ret;
      var j := 0;
      while j < |e.names|
        invariant 0 <= j <= |e.names|
        invariant ret == before + Joined(e)[..j]
      {
        assert Joined(e)[..j + 1] == Joined(e)[..j] + [OsPathJoin(e.root, e.names[j])];
        ret := ret + [OsPathJoin(e.root, e.names[j])];
        j := j + 1;
      }
      CollectedStep(walk, i);
      assert Joined(e)[..j] == Joined(e);
      i := i + 1;
    }
    assert walk[..i] == walk;
  }

  /** Walking one more directory appends its files. */
  lemma CollectedStep(walk: Walk, i: nat)
    requires i < |walk|
    ensures Collected(walk[..i + 1]) == Collected(walk[..i]) + Joined(walk[i])
  {
    assert walk[..i + 1][..i] == walk[..i];
  }

  /**
   * When every walked directory lies under `dir` (as `os.walk(dir)`
   * guarantees) and no file name starts with a slash, every collected
   * path starts with `dir`.
   */
  lemma {:induction false} CollectedUnderDir(dir: string, walk: Walk)
    requires forall e <- walk :: dir <= e.root
    requires forall e <- walk, n <- e.names :: n == [] || n[0] != '/'
    ensures forall f <- Collected(walk) :: dir <= f
  {
    if walk != [] {
      var last := walk[|walk| - 1];
      CollectedUnderDir(dir, walk[..|walk| - 1]);
      forall f <- Joined(last) ensures dir <= f {
        var k :| 0 <= k < |last.names| && f == Joined(last)[k];
        assert last.names[k] in last.names;
      }
    }
  }

  /** `str(Path(path).with_suffix(""))`: the normalised path without its final extension. */
  function UrlOf(path: string): (r: Result<string, PathError>)
    ensures r.Err? <==> ParsePath(path).tail == []
    ensures r.Ok? ==> r.value != [] && (path != [] && path[0] == '/' ==> r.value[0] == '/')
  {
    match WithoutSuffix(ParsePath(path))
    case Err(e) => Err(e)
    case Ok(p) =>
      var s := PathStr(p);
      assert p.root != "" ==> s[0] == p.root[0] == '/';
      Ok(s)
  }

  /**
   * The clean URL of a content file as build.py:94 computes it: every
   * occurrence of `dir` in the path is replaced by "/", then `UrlOf`.
   */
  function UrlAsWritten(dir: string, file: string): Result<string, PathError>
  {
    UrlOf(ReplaceAll(file, dir, "/"))
  }

  /** The clean URL as intended: the leading `dir` only is replaced by "/", then `UrlOf`. */
  function DeriveUrl(dir: string, file: string): Result<string, PathError>
  {
    UrlOf(ReplacePrefix(file, dir, "/"))
  }

  /** A rooted path of plain names loses the final extension and nothing else. */
  lemma UrlOfRooted(parts: seq<string>)
    requires |parts| >= 1 && forall n <- parts :: IsName(n)
    ensures UrlOf("/" + Join(parts)) == Ok("/" + Join(StemLast(parts)))
  {
    ParseRooted(parts);
    PathStrRooted(StemLast(parts));
  }

  /**
   * For a file under `dir` whose relative path is a list of plain names,
   * the URL is "/" followed by that relative path with the final
   * extension removed: `content/my_page.md` becomes `/my_page`.
   */
  lemma DeriveUrlOfRelativePath(dir: string, parts: seq<string>)
    requires |parts| >= 1 && forall n <- parts :: IsName(n)
    ensures DeriveUrl(dir, dir + Join(parts)) == Ok("/" + Join(StemLast(parts)))
  {
    ReplaceDirPrefix(dir, Join(parts));
    UrlOfRooted(parts);
  }

  /** The leading `dir` of a file under it becomes the root "/". */
  lemma ReplaceDirPrefix(dir: string, rel: string)
    ensures ReplacePrefix(dir + rel, dir, "/") == "/" + rel
  {
    assert (dir + rel)[|dir|..] == rel;
  }

  /** A URL derived from a file under `dir` is rooted: it starts with "/". */
  lemma DeriveUrlIsRooted(dir: string, file: string)
    requires dir <= file
    requires DeriveUrl(dir, file).Ok?
    ensures DeriveUrl(dir, file).value[0] == '/'
  {
    var p := ParsePath(ReplacePrefix(file, dir, "/"));
    assert p.root != "";
    var q := WithoutSuffix(p).value;
    assert q.root <= PathStr(q);
  }

  /**
   * Where `dir` does not recur after the leading one, replacing every
   * occurrence and replacing the leading one give the same URL.
   */
  lemma UrlAsWrittenAgrees(dir: string, file: string)
    requires dir != [] && dir <= file
    requires !Occurs(dir, file[|dir|..])
    ensures UrlAsWritten(dir, file) == DeriveUrl(dir, file)
  {
    ReplaceAllIsReplacePrefix(file, dir, "/");
  }

  /** The first field of `fields` that `fm` lacks, in list order. */
  function FirstMissing(fields: seq<string>, fm: FrontMatter): (missing: Option<string>)
    ensures missing.None? <==> forall f <- fields :: f in fm
    ensures missing.Some? ==> missing.value in fields && missing.value !in fm
  {
    if fields == [] then None
    else if fields[0] !in fm then Some(fields[0])
    else FirstMissing(fields[1..], fm)
  }

  /** A missing field with every field before it present is the first missing one. */
  lemma {:induction false} FirstMissingAt(fields: seq<string>, fm: FrontMatter, k: nat)
    requires k < |fields|
    requires fields[k] !in fm && forall m :: 0 <= m < k ==> fields[m] in fm
    ensures FirstMissing(fields, fm) == Some(fields[k])
  {
    if k > 0 {
      FirstMissingAt(fields[1..], fm, k - 1);
    }
  }

  /** The field reported missing is missing, and every field listed before it is present. */
  lemma {:induction false} FirstMissingIsFirst(fields: seq<string>, fm: FrontMatter)
    requires FirstMissing(fields, fm).Some?
    ensures exists i :: (0 <= i < |fields| && fields[i] == FirstMissing(fields, fm).value
      && forall m :: 0 <= m < i ==> fields[m] in fm)
  {
    if fields[0] in fm {
      FirstMissingIsFirst(fields[1..], fm);
      var i :| 0 <= i < |fields[1..]| && fields[1..][i] == FirstMissing(fields[1..], fm).value
        && forall m :: 0 <= m < i ==> fields[1..][m] in fm;
      assert forall m :: 0 <= m < i + 1 ==> fields[m] in fm by {
        forall m | 0 <= m < i + 1 ensures fields[m] in fm {
          if m > 0 { assert fields[m] == fields[1..][m - 1]; }
        }
      }
    } else {
      assert fields[0] == FirstMissing(fields, fm).value;
    }
  }

  /**
   * The record of one document: `content` is the HTML body unless the front
   * matter has its own `content`, every front-matter field is kept, and
   * `url` is always the derived URL.
   */
  function MakeRecord(html: string, fm: FrontMatter, url: string): (r: Record)
    ensures r.Keys == fm.Keys + {"content", "url"}
    ensures r["url"] == Text(url)
    ensures r["content"] == if "content" in fm then fm["content"] else Text(html)
    ensures forall k <- fm.Keys :: k != "url" ==> r[k] == fm[k]
  {
    (map["content" := Text(html)] + fm)["url" := Text(url)]
  }

  /** The state a loaded record is in: a known template, its required fields present, a text URL. */
  predicate Loaded(r: Record)
  {
    && "template" in r
    && RequiredFields(r["template"]).Some?
    && (forall f <- RequiredFields(r["template"]).value :: f in r)
    && "url" in r && r["url"].Text?
  }

  /** The front matter names a known template and has every field it requires. */
  predicate Validated(fm: FrontMatter)
  {
    "template" in fm && RequiredFields(fm["template"]).Some?
    && forall f <- RequiredFields(fm["template"]).value :: f in fm
  }

  /** Loading one file: validation, then URL derivation, then the record. */
  function LoadFile(dir: string, file: string, parsed: Parsed): (r: Result<Record, BuildError>)
    ensures "template" !in parsed.frontMatter ==> r == Err(MissingFrontmatter(file, "template"))
    ensures r.Ok? <==> Validated(parsed.frontMatter) && DeriveUrl(dir, file).Ok?
    ensures r.Ok? ==> Loaded(r.value) && r.value["url"] == Text(DeriveUrl(dir, file).value)
    ensures r.Err? && r.error.MissingFrontmatter? ==>
      r.error.file == file && r.error.field !in parsed.frontMatter
    ensures "template" in parsed.frontMatter && RequiredFields(parsed.frontMatter["template"]).None? ==>
      r == Err(UnknownTemplate(file, parsed.frontMatter["template"]))
    ensures var fm := parsed.frontMatter;
      "template" in fm && RequiredFields(fm["template"]).Some? ==>
        var missing := FirstMissing(RequiredFields(fm["template"]).value, fm);
        missing.Some? ==> r == Err(MissingFrontmatter(file, missing.value))
    ensures Validated(parsed.frontMatter) && DeriveUrl(dir, file).Err? ==>
      r == Err(UnnamedPath(file, DeriveUrl(dir, file).error))
    ensures r.Ok? ==> r.value == MakeRecord(parsed.html, parsed.frontMatter, DeriveUrl(dir, file).value)
  {
    var fm := parsed.frontMatter;
    if "template" !in fm then Err(MissingFrontmatter(file, "template"))
    else
      match RequiredFields(fm["template"])
      case None => Err(UnknownTemplate(file, fm["template"]))
      case Some(fields) =>
        match FirstMissing(fields, fm)
        case Some(field) => Err(MissingFrontmatter(file, field))
        case None =>
          match DeriveUrl(dir, file)
          case Err(e) => Err(UnnamedPath(file, e))
          case Ok(url) => Ok(MakeRecord(parsed.html, fm, url))
  }

  /** Loads one file: `parse_content_file`, then `LoadFile`. */
  function FileLoader(dir: string, parse: string -> Parsed): string -> Result<Record, BuildError>
  {
    file => LoadFile(dir, file, parse(file))
  }

  /**
   * The loop of `load_content_from_dir` over the collected files, `load`
   * standing for the per-file step: the records in file order, or the
   * first error.
   */
  function Load(files: seq<string>, load: string -> Result<Record, BuildError>): Result<seq<Record>, BuildError>
  {
    if files == [] then Ok([])
    else
      match Load(files[..|files| - 1], load)
      case Err(e) => Err(e)
      case Ok(rs) =>
        match load(files[|files| - 1])
        case Err(e) => Err(e)
        case Ok(r) => Ok(rs + [r])
  }

  /** A load that has failed on a prefix of the files fails the same way on all of them. */
  lemma {:induction false} LoadErrExtends(files: seq<string>, load: string -> Result<Record, BuildError>, j: nat)
    requires j <= |files| && Load(files[..j], load).Err?
    ensures Load(files, load) == Load(files[..j], load)
  {
    if j < |files| {
      var init := files[..|files| - 1];
      assert init[..j] == files[..j];
      LoadErrExtends(init, load, j);
    } else {
      assert files[..j] == files;
    }
  }

  /**
   * A successful load yields exactly one record per file, in collection
   * order, each the record of that file.
   */
  lemma {:induction false} LoadOnePerFile(files: seq<string>, load: string -> Result<Record, BuildError>)
    requires Load(files, load).Ok?
    ensures |Load(files, load).value| == |files|
    ensures forall i :: 0 <= i < |files| ==> load(files[i]) == Ok(Load(files, load).value[i])
  {
    if files != [] {
      var init := files[..|files| - 1];
      LoadOnePerFile(init, load);
      var all := Load(files, load).value;
      assert all == Load(init, load).value + [all[|files| - 1]];
      forall i | 0 <= i < |init| ensures load(files[i]) == Ok(all[i]) {
        assert files[i] == init[i];
      }
    }
  }

  /** The load succeeds exactly when every file is valid: no file is skipped. */
  lemma {:induction false} LoadOkIffAllValid(files: seq<string>, load: string -> Result<Record, BuildError>)
    ensures Load(files, load).Ok? <==> forall i :: 0 <= i < |files| ==> load(files[i]).Ok?
  {
    if files != [] {
      var init := files[..|files| - 1];
      LoadOkIffAllValid(init, load);
      if Load(files, load).Ok? {
        LoadOnePerFile(files, load);
      } else if Load(init, load).Err? {
        var i :| 0 <= i < |init| && load(init[i]).Err?;
        assert files[i] == init[i];
      }
    }
  }

  /**
   * A failed load reports the error of the first invalid file: every file
   * before it loads, and nothing after it is looked at.
   */
  lemma {:induction false} LoadFailsAtFirstInvalid(files: seq<string>, load: string -> Result<Record, BuildError>)
    requires Load(files, load).Err?
    ensures exists i :: (0 <= i < |files| && load(files[i]) == Err(Load(files, load).error)
      && forall k :: 0 <= k < i ==> load(files[k]).Ok?)
  {
    var init := files[..|files| - 1];
    if Load(init, load).Err? {
      LoadFailsAtFirstInvalid(init, load);
      var i :| 0 <= i < |init| && load(init[i]) == Err(Load(init, load).error)
        && forall k :: 0 <= k < i ==> load(init[k]).Ok?;
      assert forall k :: 0 <= k <= i ==> files[k] == init[k];
    } else {
      LoadOkIffAllValid(init, load);
      assert forall k :: 0 <= k < |init| ==> files[k] == init[k];
    }
  }

  /** Every record of a successful load of content files is in the loaded state. */
  lemma LoadedRecords(dir: string, files: seq<string>, parse: string -> Parsed)
    requires Load(files, FileLoader(dir, parse)).Ok?
    ensures forall r <- Load(files, FileLoader(dir, parse)).value :: Loaded(r)
  {
    var load := FileLoader(dir, parse);
    LoadOnePerFile(files, load);
    forall r <- Load(files, load).value ensures Loaded(r) {
      var i :| 0 <= i < |files| && Load(files, load).value[i] == r;
      assert load(files[i]) == LoadFile(dir, files[i], parse(files[i]));
    }
  }

  /**
   * `load_content_from_dir`: collects the files, then loads each one in
   * turn and appends its record; the first failure is returned.
   */
  method LoadContentFromDir(dir: string, walk: Walk, parse: string -> Parsed)
    returns (r: Result<seq<Record>, BuildError>)
    ensures r == Load(Collected(walk), FileLoader(dir, parse))
  {
    var files := CollectFiles(walk);
    var ret: seq<Record> := [];
    var i := 0;
    while i < |files|
      invariant 0 <= i <= |files|
      invariant Load(files[..i], FileLoader(dir, parse)) == Ok(ret)
    {
      var file := files[i];
      var one := LoadOne(dir, file, parse(file));
      assert files[..i + 1][..i] == files[..i];
      assert FileLoader(dir, parse)(file) == one;
      if one.Err? {
        r := Err(one.error);
        LoadErrExtends(files, FileLoader(dir, parse), i + 1);
        return;
      }
      ret := ret + [one.value];
      i := i + 1;
    }
    assert files[..i] == files;
    r := Ok(ret);
  }

  /**
   * The body of the loop for one file: checks `template`, then its
   * template's required fields in list order, derives the URL and builds
   * the record.
   */
  method LoadOne(dir: string, file: string, parsed: Parsed) returns (r: Result<Record, BuildError>)
    ensures r == LoadFile(dir, file, parsed)
  {
    var fm := parsed.frontMatter;
    if "template" !in fm {
      return Err(MissingFrontmatter(file, "template"));
    }
    var required := RequiredFields(fm["template"]);
    if required.None? {
      return Err(UnknownTemplate(file, fm["template"]));
    }
    var fields := required.value;
    var k := 0;
    while k < |fields|
      invariant 0 <= k <= |fields|
      invariant forall m :: 0 <= m < k ==> fields[m] in fm
    {
      if fields[k] !in fm {
        FirstMissingAt(fields, fm, k);
        return Err(MissingFrontmatter(file, fields[k]));
      }
      k := k + 1;
    }
    var url := DeriveUrl(dir, file);
    if url.Err? {
      return Err(UnnamedPath(file, url.error));
    }
    r := Ok(MakeRecord(parsed.html, fm, url.value));
  }
}
