/**
 * One run of the build: the static assets are copied, every content file
 * is loaded, the global lists are built, and every document is rendered
 * in load order. An exception at any stage ends the run; what was copied
 * or rendered before it stays done. The filesystem is a list of the
 * copies and renders performed.
 */
module Site {
  import opened Base
  import opened Paths
  import opened Content
  import opened Loader
  import opened GlobalContext
  import opened Render
  import opened Assets

  /** What a run did: the copies, the renders, and the exception that ended it, if any. */
  datatype BuildResult = BuildResult(copies: seq<Copy>, renders: seq<RenderJob>, failure: Option<BuildError>)

  /**
   * The run of build.py on the static listing `assets`, the content listing
   * `content`, the parser `parse` and the template names `templates`.
   */
  function Build(assets: Walk, content: Walk, parse: string -> Parsed, templates: set<string>): BuildResult
  {
    var copies := CopyPlan(StaticDir, BuildDir, Collected(assets));
    var files := Collected(content);
    match Load(files, FileLoader(ContentDir, parse))
    case Err(e) => BuildResult(copies, [], Some(e))
    case Ok(records) =>
      LoadedRecords(ContentDir, files, parse);
      match GlobalVars(records)
      case Err(e) => BuildResult(copies, [], Some(e))
      case Ok(g) =>
        var out := RenderAll(records, RenderStep(g, templates));
        BuildResult(copies, out.done, out.failure)
  }

  /**
   * The build: copy the static assets, load all the content, build the
   * global lists, then render each document.
   */
  method BuildSite(assets: Walk, content: Walk, parse: string -> Parsed, templates: set<string>)
    returns (r: BuildResult)
    ensures r == Build(assets, content, parse, templates)
  {
    var copies := CopyFilesFromDir(StaticDir, BuildDir, assets);
    var loaded := LoadContentFromDir(ContentDir, content, parse);
    if loaded.Err? {
      return BuildResult(copies, [], Some(loaded.error));
    }
    var records := loaded.value;
    LoadedRecords(ContentDir, Collected(content), parse);
    var globals := BuildGlobals(records);
    if globals.Err? {
      return BuildResult(copies, [], Some(globals.error));
    }
    var done, failure := RenderContent(records, globals.value, templates);
    r := BuildResult(copies, done, failure);
  }

  /**
   * The assets are copied whatever happens later, and nothing is rendered
   * unless every content file loads: one invalid file stops the build
   * before any page is written, with that file's error.
   */
  lemma FailedLoadRendersNothing(assets: Walk, content: Walk, parse: string -> Parsed, templates: set<string>)
    ensures Build(assets, content, parse, templates).copies == CopyPlan(StaticDir, BuildDir, Collected(assets))
    ensures var files := Collected(content);
      Load(files, FileLoader(ContentDir, parse)).Err? ==>
        && Build(assets, content, parse, templates).renders == []
        && Build(assets, content, parse, templates).failure == Some(Load(files, FileLoader(ContentDir, parse)).error)
        && exists i :: 0 <= i < |files| && FileLoader(ContentDir, parse)(files[i]).Err?
  {
    var files := Collected(content);
    LoadOkIffAllValid(files, FileLoader(ContentDir, parse));
  }

  /**
   * A run that raises nothing loaded every content file and rendered each
   * loaded document exactly once, in load order, from its own template
   * to the output path of its URL.
   */
  lemma CompleteBuildRendersEveryDocument(assets: Walk, content: Walk, parse: string -> Parsed, templates: set<string>)
    requires Build(assets, content, parse, templates).failure.None?
    ensures var files := Collected(content);
      && Load(files, FileLoader(ContentDir, parse)).Ok?
      && var records := Load(files, FileLoader(ContentDir, parse)).value;
      && (forall r <- records :: Loaded(r))
      && GlobalVars(records).Ok?
      && |Build(assets, content, parse, templates).renders| == |records| == |files|
      && forall i :: 0 <= i < |records| ==>
           && Build(assets, content, parse, templates).renders[i] == JobFor(records[i], GlobalVars(records).value)
           && Build(assets, content, parse, templates).renders[i].dest == OutputPath(records[i]["url"].s)
           && TemplateName(records[i]) in templates
  {
    var files := Collected(content);
    var load := FileLoader(ContentDir, parse);
    LoadOnePerFile(files, load);
    var records := Load(files, load).value;
    LoadedRecords(ContentDir, files, parse);
    RenderContentJobs(records, GlobalVars(records).value, templates);
  }

  /**
   * The files on disk after `jobs`, each output path holding the last
   * render written to it: a later write silently replaces an earlier one.
   */
  function Written(jobs: seq<RenderJob>): (disk: map<string, RenderJob>)
    ensures disk.Keys == set j <- jobs :: j.dest
  {
    if jobs == [] then map[]
    else
      var last := jobs[|jobs| - 1];
      var prev := jobs[..|jobs| - 1];
      assert jobs == prev + [last];
      Written(prev)[last.dest := last]
  }

  /** Each output path holds the last render written to it. */
  lemma {:induction false} WrittenLast(jobs: seq<RenderJob>, i: nat)
    requires i < |jobs|
    requires forall k :: i < k < |jobs| ==> jobs[k].dest != jobs[i].dest
    ensures Written(jobs)[jobs[i].dest] == jobs[i]
  {
    var prev := jobs[..|jobs| - 1];
    if i < |jobs| - 1 {
      assert forall k :: i < k < |prev| ==> prev[k] == jobs[k];
      WrittenLast(prev, i);
    }
  }

  /** `dir/stem.ext` has the URL `/stem`, whatever the extension. */
  lemma UrlOfExtension(dir: string, stem: string, ext: string)
    requires IsName(stem) && ext != [] && '.' !in ext && '/' !in ext
    ensures DeriveUrl(dir, dir + stem + "." + ext) == Ok("/" + stem)
  {
    var name := stem + "." + ext;
    assert IsName(name) by {
      assert name[0] == stem[0];
      assert forall c <- name :: c in stem || c == '.' || c in ext;
    }
    assert dir + stem + "." + ext == dir + Join([name]);
    DeriveUrlOfRelativePath(dir, [name]);
    StemOfExtension(stem, ext);
    assert StemLast([name]) == [stem];
  }

  /** The literals of `ExtensionsCollide`, taken apart. */
  lemma CollidingLiterals()
    ensures "content/a.md" == ContentDir + "a" + "." + "md"
    ensures "content/a.txt" == ContentDir + "a" + "." + "txt"
    ensures "/a" == "/" + "a" && IsName("a")
    ensures '.' !in "md" && '/' !in "md" && '.' !in "txt" && '/' !in "txt"
    ensures "build/a.html" == BuildDir + "a" + ".html"
  {
  }

  /**
   * Two content files that differ only in their extension get the same
   * URL and so the same output path, and nothing detects it:
   * `content/a.md` and `content/a.txt` are both written to `build/a.html`.
   */
  lemma ExtensionsCollide()
    ensures DeriveUrl(ContentDir, "content/a.md") == DeriveUrl(ContentDir, "content/a.txt") == Ok("/a")
    ensures OutputPath("/a") == "build/a.html"
  {
    CollidingLiterals();
    UrlOfExtension(ContentDir, "a", "md");
    UrlOfExtension(ContentDir, "a", "txt");
    OutputPathOfRootedUrl("a");
  }
}
