/**
 * Inputs on which build.py's path rewriting goes wrong. Both rewritings
 * use `str.replace`, which replaces every occurrence of the directory
 * string and not only the leading one: a sub-directory whose name ends in
 * the directory's name loses part of its name, and a sub-directory named
 * like the directory itself yields a URL with a doubled root, whose
 * output file lands outside the build directory. Each lemma shows the
 * as-written result next to the prefix-only rewriting the rest of the
 * model uses.
 */
module Findings {
  import opened Base
  import opened Strings
  import opened Paths
  import opened Content
  import opened Loader
  import opened Render
  import opened Assets

  /** Two names joined. */
  lemma JoinPair(a: string, b: string)
    ensures Join([a, b]) == a + "/" + b
  {
    JoinCons(a, [b]);
    assert [a, b] == [a] + [b];
  }

  /** A stem is a non-empty prefix of its name. */
  lemma StemHead(name: string)
    requires name != []
    ensures Stem(name) != [] && Stem(name)[0] == name[0]
  {
    assert Stem(name) + Suffix(name) == name;
  }

  /** `/pre/name` is the rooted join of the two names. */
  lemma RootedPair(pre: string, name: string)
    ensures "/" + pre + "/" + name == "/" + Join([pre, name])
  {
    JoinPair(pre, name);
  }

  /** `/pre/name` loses the suffix of `name` and nothing else. */
  lemma UrlOfRootedPair(pre: string, name: string)
    requires IsName(pre) && IsName(name)
    ensures UrlOf("/" + pre + "/" + name) == Ok("/" + pre + "/" + Stem(name))
  {
    var stem := Stem(name);
    RootedPair(pre, name);
    RootedPair(pre, stem);
    UrlOfRooted([pre, name]);
    assert StemLast([pre, name]) == [pre, stem];
  }

  /** "//name" keeps its doubled root, as POSIX allows. */
  lemma ParseDoubleRooted(name: string)
    requires IsName(name)
    ensures ParsePath("//" + name) == PurePath("//", [name])
  {
    assert ("//" + name)[2..] == name;
    assert Join([name]) == name;
    ComponentsOfJoin([name]);
  }

  /** `//name` keeps its doubled root and loses the suffix of `name`. */
  lemma UrlOfDoubleRooted(name: string)
    requires IsName(name)
    ensures UrlOf("//" + name) == Ok("//" + Stem(name))
  {
    ParseDoubleRooted(name);
    assert StemLast([name]) == [Stem(name)];
    assert Join([Stem(name)]) == Stem(name);
  }

  /** `d/sub/name` is the directory `d/` followed by the join of the two names. */
  lemma FileUnder(d: string, sub: string, name: string)
    ensures d + "/" + sub + "/" + name == (d + "/") + Join([sub, name])
  {
    JoinPair(sub, name);
  }

  /** The intended URL of `d/sub/name`. */
  lemma NestedIntended(d: string, sub: string, name: string)
    requires IsName(sub) && IsName(name)
    ensures DeriveUrl(d + "/", d + "/" + sub + "/" + name) == Ok("/" + sub + "/" + Stem(name))
  {
    var stem := Stem(name);
    FileUnder(d, sub, name);
    RootedPair(sub, stem);
    DeriveUrlOfRelativePath(d + "/", [sub, name]);
    assert StemLast([sub, name]) == [sub, stem];
  }

  /** `d/` + `pre d` + `/name` holds the directory `d/` twice, the second time right after `pre`. */
  lemma NestedFile(d: string, pre: string, name: string)
    ensures d + "/" + (pre + d) + "/" + name == (d + "/") + pre + (d + "/") + name
  {
  }

  /**
   * With `dir` = `d/`, the file `d/sub/name` whose sub-directory `sub` is
   * `pre` followed by `d` gets the URL `/pre/stem` as written: the inner
   * `d/` is rewritten too. The intended URL keeps the sub-directory's whole
   * name.
   */
  lemma UrlAsWrittenNested(d: string, pre: string, name: string)
    requires IsName(d) && IsName(pre) && IsName(name)
    requires d[0] !in pre
    ensures UrlAsWritten(d + "/", d + "/" + (pre + d) + "/" + name) == Ok("/" + pre + "/" + Stem(name))
    ensures DeriveUrl(d + "/", d + "/" + (pre + d) + "/" + name) == Ok("/" + (pre + d) + "/" + Stem(name))
  {
    NestedFile(d, pre, name);
    NoOccurrenceWithout(d + "/", name, '/');
    ReplaceAllTwice(d + "/", pre, name, "/");
    UrlOfRootedPair(pre, name);
    NestedIntended(d, pre + d, name);
  }

  /** `d/d/name` is the directory `d/` twice, with nothing between. */
  lemma DoubledFile(d: string, name: string)
    ensures d + "/" + d + "/" + name == (d + "/") + "" + (d + "/") + name
    ensures "/" + "" + "/" + name == "//" + name
  {
  }

  /** `os.path.join` takes `/stem` as absolute: the URL `//stem` is written outside the build directory. */
  lemma OutputPathDoubleRooted(stem: string)
    requires stem != [] && stem[0] != '/'
    ensures OutputPath("//" + stem) == "/" + stem + ".html"
    ensures !(BuildDir <= OutputPath("//" + stem))
  {
    assert DropFirst("//" + stem) == "/" + stem;
    assert OutputPath("//" + stem)[0] == '/' && BuildDir[0] == 'b';
  }

  /**
   * With `dir` = `d/`, the file `d/d/name` (a sub-directory named like the
   * content directory) gets the URL `//stem` as written, and
   * `os.path.join` then treats `/stem` as absolute: the page is written to
   * `/stem.html`, outside the build directory. The intended URL is
   * `/d/stem`, written inside it.
   */
  lemma UrlAsWrittenDoubleRoot(d: string, name: string)
    requires IsName(d) && IsName(name)
    ensures UrlAsWritten(d + "/", d + "/" + d + "/" + name) == Ok("//" + Stem(name))
    ensures OutputPath("//" + Stem(name)) == "/" + Stem(name) + ".html"
    ensures !(BuildDir <= OutputPath("//" + Stem(name)))
    ensures DeriveUrl(d + "/", d + "/" + d + "/" + name) == Ok("/" + d + "/" + Stem(name))
  {
    DoubledFile(d, name);
    NoOccurrenceWithout(d + "/", name, '/');
    ReplaceAllTwice(d + "/", "", name, "/");
    UrlOfDoubleRooted(name);
    StemHead(name);
    OutputPathDoubleRooted(Stem(name));
    NestedIntended(d, d, name);
  }

  /** The literals of `ContentSuffixedDirectory`, taken apart. */
  lemma SuffixedLiterals()
    ensures ContentDir == "content" + "/"
    ensures "content/mycontent/a.md" == "content" + "/" + ("my" + "content") + "/" + "a.md"
    ensures "a.md" == "a" + "." + "md"
    ensures "/my/a" == "/" + "my" + "/" + "a"
    ensures "/mycontent/a" == "/" + ("my" + "content") + "/" + "a"
    ensures IsName("content") && IsName("my") && IsName("a.md") && 'c' !in "my"
  {
  }

  /** `content/mycontent/a.md` gets the URL `/my/a`; the intended URL is `/mycontent/a`. */
  lemma ContentSuffixedDirectory()
    ensures UrlAsWritten(ContentDir, "content/mycontent/a.md") == Ok("/my/a")
    ensures DeriveUrl(ContentDir, "content/mycontent/a.md") == Ok("/mycontent/a")
  {
    SuffixedLiterals();
    StemOfExtension("a", "md");
    UrlAsWrittenNested("content", "my", "a.md");
  }

  /** The literals of `ContentInsideContent`, taken apart. */
  lemma DoubledLiterals()
    ensures ContentDir == "content" + "/"
    ensures "content/content/a.md" == "content" + "/" + "content" + "/" + "a.md"
    ensures "a.md" == "a" + "." + "md"
    ensures "//a" == "//" + "a" && "/a.html" == "/" + "a" + ".html"
    ensures "/content/a" == "/" + "content" + "/" + "a" == "/" + "content/a"
    ensures "build/content/a.html" == BuildDir + "content/a" + ".html"
    ensures IsName("content") && IsName("a.md")
  {
  }

  /**
   * `content/content/a.md` gets the URL `//a` and is written to `/a.html`;
   * the intended URL is `/content/a`, written to `build/content/a.html`.
   */
  lemma ContentInsideContent()
    ensures UrlAsWritten(ContentDir, "content/content/a.md") == Ok("//a")
    ensures OutputPath("//a") == "/a.html"
    ensures DeriveUrl(ContentDir, "content/content/a.md") == Ok("/content/a")
    ensures OutputPath("/content/a") == "build/content/a.html"
  {
    DoubledLiterals();
    StemOfExtension("a", "md");
    UrlAsWrittenDoubleRoot("content", "a.md");
    OutputPathOfRootedUrl("content/a");
  }

  /** `s/p/s/name` holds the directory `s/` twice, the second time after `p/`. */
  lemma NestedAsset(s: string, p: string, name: string)
    ensures s + "/" + p + "/" + s + "/" + name == (s + "/") + (p + "/") + (s + "/") + name
    ensures s + "/" + p + "/" + s + "/" + name == (s + "/") + Join([p, s, name])
  {
    JoinThree(p, s, name);
  }

  /** `e/` + `p/` + `e/` + `name` is the join of the four names. */
  lemma RewrittenAsset(e: string, p: string, name: string)
    ensures (e + "/") + (p + "/") + (e + "/") + name == Join([e, p, e, name])
    ensures Join([e, p, e, name]) == e + "/" + p + "/" + e + "/" + name
  {
    JoinThree(p, e, name);
    JoinCons(e, [p, e, name]);
    assert [e, p, e, name] == [e] + [p, e, name];
  }

  /**
   * With the static directory `s/` and the build directory `e/`, the file
   * `s/p/s/name` (a sub-directory of the static directory named like it) is
   * copied to `e/p/e/name` as written: the inner `s/` is rewritten too.
   */
  lemma AssetDestAsWrittenNested(s: string, e: string, p: string, name: string)
    requires IsName(s) && IsName(e) && IsName(p) && IsName(name)
    requires s[0] !in p
    ensures AssetDestAsWritten(s + "/", e + "/", s + "/" + p + "/" + s + "/" + name) == e + "/" + p + "/" + e + "/" + name
  {
    assert s[0] != '/';
    NestedAsset(s, p, name);
    NoOccurrenceWithout(s + "/", name, '/');
    ReplaceAllTwice(s + "/", p + "/", name, e + "/");
    RewrittenAsset(e, p, name);
    NormalizeRelative([e, p, e, name]);
  }

  /** The intended destination of `s/p/s/name` keeps the inner `s`: `e/p/s/name`. */
  lemma AssetDestNested(s: string, e: string, p: string, name: string)
    requires IsName(s) && IsName(e) && IsName(p) && IsName(name)
    ensures AssetDest(s + "/", e + "/", s + "/" + p + "/" + s + "/" + name) == e + "/" + p + "/" + s + "/" + name
  {
    NestedAsset(s, p, name);
    AssetDestOfRelativePath(s + "/", e, [p, s, name]);
    UnderDir(e, p, s, name);
  }

  /** `e/` followed by the join of three names. */
  lemma UnderDir(e: string, a: string, b: string, c: string)
    ensures e + "/" + Join([a, b, c]) == e + "/" + a + "/" + b + "/" + c
  {
    JoinThree(a, b, c);
  }

  /** Three names joined. */
  lemma JoinThree(a: string, b: string, c: string)
    ensures Join([a, b, c]) == a + "/" + b + "/" + c
  {
    JoinCons(a, [b, c]);
    assert [a, b, c] == [a] + [b, c];
    JoinPair(b, c);
  }

  /** The literals of `StaticInsideStatic`, taken apart. */
  lemma StaticLiterals()
    ensures StaticDir == "static" + "/" && BuildDir == "build" + "/"
    ensures "static/img/static/x.png" == "static" + "/" + "img" + "/" + "static" + "/" + "x.png"
    ensures "build/img/build/x.png" == "build" + "/" + "img" + "/" + "build" + "/" + "x.png"
    ensures "build/img/static/x.png" == "build" + "/" + "img" + "/" + "static" + "/" + "x.png"
  {
  }

  /** `static/img/static/x.png` is copied to `build/img/build/x.png`; the intended destination is `build/img/static/x.png`. */
  lemma StaticInsideStatic()
    ensures AssetDestAsWritten(StaticDir, BuildDir, "static/img/static/x.png") == "build/img/build/x.png"
    ensures AssetDest(StaticDir, BuildDir, "static/img/static/x.png") == "build/img/static/x.png"
  {
    StaticLiterals();
    AssetDestAsWrittenNested("static", "build", "img", "x.png");
    AssetDestNested("static", "build", "img", "x.png");
  }

  /** `/p//name` has the URL of `/p/name`: the empty piece between the slashes is dropped. */
  lemma UrlOfGap(p: string, name: string)
    requires IsName(p) && IsName(name)
    ensures UrlOf("/" + p + "//" + name) == Ok("/" + p + "/" + Stem(name))
  {
    ParseGap(p, name);
    RootedPair(p, name);
    ParseRooted([p, name]);
    UrlOfRootedPair(p, name);
  }

  /** `d/p/d/name` and `d/p/name`, taken apart around their leading `d/`. */
  lemma CollidingFiles(d: string, p: string, name: string)
    ensures d + "/" + p + "/" + d + "/" + name == (d + "/") + (p + "/") + (d + "/") + name
    ensures d + "/" + p + "/" + name == (d + "/") + (p + "/" + name)
    ensures "/" + (p + "/") + "/" + name == "/" + p + "//" + name
    ensures "/" + (p + "/" + name) == "/" + p + "/" + name
  {
  }

  /** `d/p/d/name` is the directory `d/` followed by the join of three names. */
  lemma FileUnderThree(d: string, p: string, name: string, stem: string)
    ensures d + "/" + p + "/" + d + "/" + name == (d + "/") + Join([p, d, name])
    ensures "/" + p + "/" + d + "/" + stem == "/" + Join([p, d, stem])
  {
    JoinThree(p, d, name);
    JoinThree(p, d, stem);
  }

  /** The intended URL of `d/p/d/name` keeps the inner `d`. */
  lemma NestedIntendedThree(d: string, p: string, name: string)
    requires IsName(d) && IsName(p) && IsName(name)
    ensures DeriveUrl(d + "/", d + "/" + p + "/" + d + "/" + name) == Ok("/" + p + "/" + d + "/" + Stem(name))
  {
    var stem := Stem(name);
    FileUnderThree(d, p, name, stem);
    DeriveUrlOfRelativePath(d + "/", [p, d, name]);
    assert StemLast([p, d, name]) == [p, d, stem];
  }

  /**
   * With `dir` = `d/`, the files `d/p/d/name` and `d/p/name` get the same
   * URL `/p/stem` as written, so the later render overwrites the earlier
   * one. The intended URLs differ: `/p/d/stem` and `/p/stem`.
   */
  lemma UrlsCollideAsWritten(d: string, p: string, name: string)
    requires IsName(d) && IsName(p) && IsName(name)
    requires d[0] !in p && d[0] !in name
    ensures UrlAsWritten(d + "/", d + "/" + p + "/" + d + "/" + name) == Ok("/" + p + "/" + Stem(name))
    ensures UrlAsWritten(d + "/", d + "/" + p + "/" + name) == Ok("/" + p + "/" + Stem(name))
    ensures DeriveUrl(d + "/", d + "/" + p + "/" + d + "/" + name) == Ok("/" + p + "/" + d + "/" + Stem(name))
    ensures DeriveUrl(d + "/", d + "/" + p + "/" + name) == Ok("/" + p + "/" + Stem(name))
  {
    assert d[0] != '/';
    CollidingFiles(d, p, name);
    NoOccurrenceWithout(d + "/", name, '/');
    ReplaceAllTwice(d + "/", p + "/", name, "/");
    UrlOfGap(p, name);
    ReplaceAllOnce(d + "/", p + "/" + name, "/");
    UrlOfRootedPair(p, name);
    NestedIntendedThree(d, p, name);
    NestedIntended(d, p, name);
  }

  /** The literals of `ContentUrlsCollide`, taken apart. */
  lemma CollidingUrlLiterals()
    ensures ContentDir == "content" + "/"
    ensures "content/a/content/x.md" == "content" + "/" + "a" + "/" + "content" + "/" + "x.md"
    ensures "content/a/x.md" == "content" + "/" + "a" + "/" + "x.md"
    ensures "x.md" == "x" + "." + "md"
    ensures "/a/x" == "/" + "a" + "/" + "x"
    ensures "/a/content/x" == "/" + "a" + "/" + "content" + "/" + "x"
    ensures IsName("content") && IsName("a") && IsName("x.md") && 'c' !in "a" && 'c' !in "x.md"
  {
  }

  /**
   * `content/a/content/x.md` and `content/a/x.md` both get the URL `/a/x`
   * as written; the intended URLs are `/a/content/x` and `/a/x`.
   */
  lemma ContentUrlsCollide()
    ensures UrlAsWritten(ContentDir, "content/a/content/x.md") == Ok("/a/x")
    ensures UrlAsWritten(ContentDir, "content/a/x.md") == Ok("/a/x")
    ensures DeriveUrl(ContentDir, "content/a/content/x.md") == Ok("/a/content/x")
    ensures DeriveUrl(ContentDir, "content/a/x.md") == Ok("/a/x")
  {
    CollidingUrlLiterals();
    StemOfExtension("x", "md");
    UrlsCollideAsWritten("content", "a", "x.md");
  }

  /** `s/p/e/name`, taken apart around its leading `s/`. */
  lemma OtherAsset(s: string, p: string, e: string, name: string)
    ensures s + "/" + p + "/" + e + "/" + name == (s + "/") + (p + "/" + e + "/" + name)
    ensures (e + "/") + (p + "/" + e + "/" + name) == (e + "/") + (p + "/") + (e + "/") + name
    ensures s + "/" + p + "/" + e + "/" + name == (s + "/") + Join([p, e, name])
  {
    JoinThree(p, e, name);
  }

  /**
   * With the static directory `s/` and the build directory `e/`, the files
   * `s/p/s/name` and `s/p/e/name` are both copied to `e/p/e/name` as
   * written, so the later copy overwrites the earlier one. The intended
   * destinations differ: `e/p/s/name` and `e/p/e/name`.
   */
  lemma AssetsCollideAsWritten(s: string, e: string, p: string, name: string)
    requires IsName(s) && IsName(e) && IsName(p) && IsName(name)
    requires s[0] !in p && s[0] !in e && s[0] !in name
    ensures AssetDestAsWritten(s + "/", e + "/", s + "/" + p + "/" + s + "/" + name) == e + "/" + p + "/" + e + "/" + name
    ensures AssetDestAsWritten(s + "/", e + "/", s + "/" + p + "/" + e + "/" + name) == e + "/" + p + "/" + e + "/" + name
    ensures AssetDest(s + "/", e + "/", s + "/" + p + "/" + s + "/" + name) == e + "/" + p + "/" + s + "/" + name
    ensures AssetDest(s + "/", e + "/", s + "/" + p + "/" + e + "/" + name) == e + "/" + p + "/" + e + "/" + name
  {
    assert s[0] != '/';
    AssetDestAsWrittenNested(s, e, p, name);
    AssetDestNested(s, e, p, name);
    OtherAsset(s, p, e, name);
    ReplaceAllOnce(s + "/", p + "/" + e + "/" + name, e + "/");
    RewrittenAsset(e, p, name);
    NormalizeRelative([e, p, e, name]);
    AssetDestOfRelativePath(s + "/", e, [p, e, name]);
    UnderDir(e, p, e, name);
  }

  /** The literals of `StaticAssetsCollide`, taken apart. */
  lemma CollidingAssetLiterals()
    ensures StaticDir == "static" + "/" && BuildDir == "build" + "/"
    ensures "static/a/static/x.png" == "static" + "/" + "a" + "/" + "static" + "/" + "x.png"
    ensures "static/a/build/x.png" == "static" + "/" + "a" + "/" + "build" + "/" + "x.png"
    ensures "build/a/build/x.png" == "build" + "/" + "a" + "/" + "build" + "/" + "x.png"
    ensures "build/a/static/x.png" == "build" + "/" + "a" + "/" + "static" + "/" + "x.png"
  {
  }

  /** The names of `StaticAssetsCollide`: none holds the first letter of `static`. */
  lemma CollidingAssetNames()
    ensures IsName("static") && IsName("build") && IsName("a") && IsName("x.png")
    ensures 's' !in "a" && 's' !in "build" && 's' !in "x.png"
  {
  }

  /**
   * `static/a/static/x.png` and `static/a/build/x.png` are both copied to
   * `build/a/build/x.png` as written; the intended destinations are
   * `build/a/static/x.png` and `build/a/build/x.png`.
   */
  lemma StaticAssetsCollide()
    ensures AssetDestAsWritten(StaticDir, BuildDir, "static/a/static/x.png") == "build/a/build/x.png"
    ensures AssetDestAsWritten(StaticDir, BuildDir, "static/a/build/x.png") == "build/a/build/x.png"
    ensures AssetDest(StaticDir, BuildDir, "static/a/static/x.png") == "build/a/static/x.png"
    ensures AssetDest(StaticDir, BuildDir, "static/a/build/x.png") == "build/a/build/x.png"
  {
    CollidingAssetLiterals();
    CollidingAssetNames();
    AssetsCollideAsWritten("static", "build", "a", "x.png");
  }
}
