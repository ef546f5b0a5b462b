/**
 * The render loop of the build: for every loaded document, in load order,
 * the output path derived from its URL, the template it names and the
 * scope the template sees (the document's fields, then `posts` and
 * `pages`). The template engine itself is not modelled: a render is the
 * job handed to it.
 */
module Render {
  import opened Base
  import opened Paths
  import opened Content
  import opened Loader
  import opened GlobalContext

  /** What a name in a template's scope is bound to: a document field, or one of the global lists. */
  datatype Binding = Field(value: Value) | Collection(records: seq<Record>)

  /** The variables a template is rendered with. */
  type Scope = map<string, Binding>

  /** `url[1:]`: the URL without its first character. */
  function DropFirst(url: string): (rest: string)
    ensures url != [] ==> url == [url[0]] + rest
    ensures url == [] ==> rest == []
  {
    if url == [] then [] else url[1..]
  }

  /**
   * `os.path.join(BUILD_DIR, url[1:]) + ".html"`: where a document is
   * written. A URL with one leading slash lands under the build directory;
   * one with two leading slashes is taken as absolute and lands outside it.
   */
  function OutputPath(url: string): (path: string)
    ensures url != [] && url[0] == '/' && (|url| == 1 || url[1] != '/') ==> path == BuildDir + url[1..] + ".html"
    ensures |url| >= 2 && url[1] == '/' ==> path == url[1..] + ".html"
  {
    OsPathJoin(BuildDir, DropFirst(url)) + ".html"
  }

  /** A rooted URL `/rel` is written to `build/rel.html`: `/index` becomes `build/index.html`. */
  lemma OutputPathOfRootedUrl(rel: string)
    requires rel == [] || rel[0] != '/'
    ensures OutputPath("/" + rel) == BuildDir + rel + ".html"
  {
    assert DropFirst("/" + rel) == rel;
  }

  /** Two rooted URLs with a single leading slash are written to the same file only when they are equal. */
  lemma OutputPathInjective(u: string, v: string)
    requires |u| >= 1 && u[0] == '/' && (|u| == 1 || u[1] != '/')
    requires |v| >= 1 && v[0] == '/' && (|v| == 1 || v[1] != '/')
    requires OutputPath(u) == OutputPath(v)
    ensures u == v
  {
    var ru, rv := u[1..], v[1..];
    assert u == "/" + ru && v == "/" + rv;
    OutputPathOfRootedUrl(ru);
    OutputPathOfRootedUrl(rv);
    assert |ru| == |rv|;
    assert ru == (BuildDir + ru + ".html")[|BuildDir|..|BuildDir| + |ru|];
    assert rv == (BuildDir + rv + ".html")[|BuildDir|..|BuildDir| + |rv|];
  }

  /**
   * The document at `dir/parts` is written inside the build directory, to
   * its relative path with the final extension replaced by ".html":
   * `content/blog/post.md` is written to `build/blog/post.html`.
   */
  lemma OutputPathOfContentFile(dir: string, parts: seq<string>)
    requires |parts| >= 1 && forall n <- parts :: IsName(n)
    ensures DeriveUrl(dir, dir + Join(parts)).Ok?
    ensures OutputPath(DeriveUrl(dir, dir + Join(parts)).value) == BuildDir + Join(StemLast(parts)) + ".html"
  {
    DeriveUrlOfRelativePath(dir, parts);
    var stemmed := StemLast(parts);
    assert IsName(parts[0]);
    assert stemmed[0] != [] && stemmed[0][0] != '/' by {
      if |parts| == 1 {
        assert stemmed[0] + Suffix(parts[0]) == parts[0];
      } else {
        assert stemmed[0] == parts[0];
      }
    }
    JoinHead(stemmed);
    OutputPathOfRootedUrl(Join(stemmed));
  }

  /**
   * `{**data, **global_vars}`: every field of the document, with `posts`
   * and `pages` bound to the global lists whatever the document says.
   */
  function RenderScope(data: Record, g: Globals): (scope: Scope)
    ensures scope.Keys == data.Keys + {"posts", "pages"}
    ensures scope["posts"] == Collection(g.posts) && scope["pages"] == Collection(g.pages)
    ensures forall k <- data.Keys :: k != "posts" && k != "pages" ==> scope[k] == Field(data[k])
  {
    (map k <- data.Keys :: Field(data[k]))["posts" := Collection(g.posts)]["pages" := Collection(g.pages)]
  }

  /** One call of `render_template`: the template's name, the scope and the destination. */
  datatype RenderJob = RenderJob(template: string, scope: Scope, dest: string)

  /** The name of the template a loaded document names. */
  function TemplateName(data: Record): (name: string)
    requires Loaded(data)
    ensures name in {IndexTemplate, PageTemplate, PostTemplate} && data["template"] == Text(name)
  {
    data["template"].s
  }

  /**
   * The render of one loaded document: its own template, a scope in which
   * `posts` and `pages` are the global lists and every other field is the
   * document's, and, for a URL `/rel`, the file `build/rel.html`.
   */
  function JobFor(data: Record, g: Globals): (job: RenderJob)
    requires Loaded(data)
    ensures job.template in {IndexTemplate, PageTemplate, PostTemplate} && data["template"] == Text(job.template)
    ensures job.scope.Keys == data.Keys + {"posts", "pages"}
    ensures job.scope["posts"] == Collection(g.posts) && job.scope["pages"] == Collection(g.pages)
    ensures forall k <- data.Keys :: k != "posts" && k != "pages" ==> job.scope[k] == Field(data[k])
    ensures var url := data["url"].s;
      url != [] && url[0] == '/' && (|url| == 1 || url[1] != '/') ==> job.dest == BuildDir + url[1..] + ".html"
  {
    var url := data["url"].s;
    assert url != [] && url[0] == '/' && (|url| == 1 || url[1] != '/') ==> OutputPath(url) == BuildDir + url[1..] + ".html" by {
      if url != [] && url[0] == '/' && (|url| == 1 || url[1] != '/') {
        assert url == "/" + url[1..];
        OutputPathOfRootedUrl(url[1..]);
      }
    }
    RenderJob(TemplateName(data), RenderScope(data, g), OutputPath(url))
  }

  /** The renders done so far, and the exception that stopped the loop, if any. */
  datatype RenderOutcome = RenderOutcome(done: seq<RenderJob>, failure: Option<BuildError>)

  /**
   * One turn of the render loop for a loaded document: its render, or the
   * exception the template loader raises when the template named is not
   * among `templates`, the names it can find.
   */
  function RenderStep(g: Globals, templates: set<string>): Record --> Result<RenderJob, BuildError>
  {
    data requires Loaded(data) =>
      if TemplateName(data) in templates then Ok(JobFor(data, g))
      else Err(TemplateNotFound(TemplateName(data)))
  }

  /**
   * The render loop over `content`, `step` standing for one turn: the
   * first turn that raises stops the loop, after the renders before it.
   */
  function RenderAll(content: seq<Record>, step: Record --> Result<RenderJob, BuildError>): RenderOutcome
    requires forall r <- content :: step.requires(r)
  {
    if content == [] then RenderOutcome([], None)
    else
      var last := content[|content| - 1];
      assert last in content;
      var prev := RenderAll(content[..|content| - 1], step);
      if prev.failure.Some? then prev
      else
        match step(last)
        case Err(e) => RenderOutcome(prev.done, Some(e))
        case Ok(job) => RenderOutcome(prev.done + [job], None)
  }

  /** The loop renders the documents in order, one render each, as far as it gets. */
  lemma {:induction false} RenderAllInOrder(content: seq<Record>, step: Record --> Result<RenderJob, BuildError>)
    requires forall r <- content :: step.requires(r)
    ensures var out := RenderAll(content, step);
      && |out.done| <= |content|
      && forall i :: 0 <= i < |out.done| ==> step(content[i]) == Ok(out.done[i])
  {
    if content != [] {
      var init := content[..|content| - 1];
      RenderAllInOrder(init, step);
      RenderAllStops(init, step);
      var prev := RenderAll(init, step);
      var out := RenderAll(content, step);
      forall i | 0 <= i < |out.done| ensures step(content[i]) == Ok(out.done[i]) {
        if i < |prev.done| {
          assert content[i] == init[i] && out.done[i] == prev.done[i];
        }
      }
    }
  }

  /**
   * The loop fails exactly when it stops short of the last document, and
   * then with the exception of the first document it did not render.
   */
  lemma {:induction false} RenderAllStops(content: seq<Record>, step: Record --> Result<RenderJob, BuildError>)
    requires forall r <- content :: step.requires(r)
    ensures var out := RenderAll(content, step);
      && |out.done| <= |content|
      && (out.failure.None? <==> |out.done| == |content|)
      && (out.failure.Some? ==> step(content[|out.done|]) == Err(out.failure.value))
  {
    if content != [] {
      var init := content[..|content| - 1];
      RenderAllStops(init, step);
      var prev := RenderAll(init, step);
      if prev.failure.Some? {
        assert content[|prev.done|] == init[|prev.done|];
      }
    }
  }

  /**
   * Over loaded documents: exactly one render per document, in load order,
   * until the first document whose template cannot be found; the loop
   * fails exactly then, naming that template.
   */
  lemma RenderContentJobs(content: seq<Record>, g: Globals, templates: set<string>)
    requires forall r <- content :: Loaded(r)
    ensures var out := RenderAll(content, RenderStep(g, templates));
      && |out.done| <= |content|
      && (forall i :: 0 <= i < |out.done| ==>
            TemplateName(content[i]) in templates && out.done[i] == JobFor(content[i], g))
      && (out.failure.None? <==> |out.done| == |content|)
      && (out.failure.Some? ==>
            (TemplateName(content[|out.done|]) !in templates
             && out.failure == Some(TemplateNotFound(TemplateName(content[|out.done|])))))
  {
    var step := RenderStep(g, templates);
    RenderAllInOrder(content, step);
    RenderAllStops(content, step);
  }

  /** A loop that has failed on a prefix of the documents fails the same way on all of them. */
  lemma {:induction false} RenderErrExtends(content: seq<Record>, step: Record --> Result<RenderJob, BuildError>, j: nat)
    requires forall r <- content :: step.requires(r)
    requires j <= |content|
    ensures forall r <- content[..j] :: step.requires(r)
    ensures RenderAll(content[..j], step).failure.Some? ==> RenderAll(content, step) == RenderAll(content[..j], step)
  {
    assert forall r <- content[..j] :: r in content;
    if j < |content| {
      var init := content[..|content| - 1];
      assert init[..j] == content[..j];
      assert forall r <- init :: r in content;
      RenderErrExtends(init, step, j);
    } else {
      assert content[..j] == content;
    }
  }

  /**
   * The render loop of build.py: for each document in load order, the
   * output path, the template (raising when it cannot be found) and the
   * merged scope, handed to `render_template`.
   */
  method RenderContent(content: seq<Record>, g: Globals, templates: set<string>)
    returns (done: seq<RenderJob>, failure: Option<BuildError>)
    requires forall r <- content :: Loaded(r)
    ensures RenderAll(content, RenderStep(g, templates)) == RenderOutcome(done, failure)
  {
    ghost var step := RenderStep(g, templates);
    done := [];
    var i := 0;
    while i < |content|
      invariant 0 <= i <= |content|
      invariant RenderAll(content[..i], step) == RenderOutcome(done, None)
    {
      var data := content[i];
      assert data in content;
      assert content[..i + 1][..i] == content[..i];
      RenderErrExtends(content, step, i + 1);
      var path := OutputPath(data["url"].s);
      var name := data["template"].s;
      if name !in templates {
        return done, Some(TemplateNotFound(name));
      }
      var scope := RenderScope(data, g);
      done := done + [RenderJob(name, scope, path)];
      i := i + 1;
    }
    assert content[..i] == content;
    failure := None;
  }
}
