# A model of the content pipeline of `build.py`

`build.py` is a small static-site generator. A run does the following:

1. It copies every file under `static/` into `build/`.
2. It loads every file under `content/`. For each file it:
   - parses the front matter and converts the body to HTML;
   - checks that `template` is present, then each field that template requires, in list order;
   - derives a clean URL from the path (`content/my_page.md` becomes `/my_page`);
   - builds one record per file.
3. It collects `posts` (stably sorted by `date`) and `pages` into global template variables.
4. It renders every document, in load order, to `build/` + the URL without its leading slash + `.html`. The template sees the document's fields, with `posts` and `pages` bound to the global lists.

The first error stops the run. Anything copied or rendered before it stays written.

This project models that pipeline in Dafny. Each part is written in the form the Python uses:

- Path rewriting, URL derivation, record merging, the template scope and list selection are pure functions with lemmas.
- Four loops are methods over `seq`, each proved equal to a specification function:
  - file collection (`Loader.CollectFiles`, equal to `Loader.Collected`);
  - the asset copy (`Assets.CopyFilesFromDir`, equal to `Assets.CopyPlan`);
  - loading (`Loader.LoadContentFromDir` and `Loader.LoadOne`, equal to `Loader.Load` and `Loader.LoadFile`);
  - rendering (`Render.RenderContent`, equal to `Render.RenderAll` with the step `Render.RenderStep`).
- The in-place sort of `posts` is an insertion sort on an `array` (`GlobalContext.SortPostsByDate`). It is proved equal to `GlobalContext.SortByDate`. That function is then proved sorted, a permutation of its input, and stable.
- The whole run is `Site.BuildSite`, proved equal to `Site.Build`.

Modules:

| Module | Contents |
|---|---|
| `Base` | `Option` and `Result`. |
| `Strings` | Python's `str.replace`, which replaces every occurrence, and string `<=`. |
| `Paths` | The pieces of `split("/")`, `"/".join`, `PurePosixPath`, `with_suffix("")` and `os.path.join` that the build uses. The `PurePosixPath` behaviour is that of Python 3.12. |
| `Content` | Front-matter values, records, the build's exceptions, the directory constants and the required-field table. |
| `Loader` | `collect_files` and `load_content_from_dir`. |
| `GlobalContext` | `global_vars`: the partition by template and the stable date sort. |
| `Render` | The render loop: output path, template lookup and scope. |
| `Assets` | `copy_files_from_dir`. |
| `Site` | The whole run, and what it leaves on disk. |
| `Findings` | The inputs on which the `str.replace` path rewriting goes wrong. |

Effects are represented as values:

- A copy is a `Copy(source, dest)`.
- A render is a `RenderJob(template, scope, dest)`.
- An exception is a `BuildError`.

The URL and asset rewriting in `build.py` use `str.replace`, which rewrites every occurrence of the directory string (build.py:94, build.py:55). The pipeline in this model (`Loader.LoadFile`, `Assets.CopyPlan`, `Site.Build`) instead rewrites only the leading directory (`Loader.DeriveUrl`, `Assets.AssetDest`). The two agree whenever the directory string does not occur again after the leading one (`Loader.UrlAsWrittenAgrees`, `Assets.AssetDestAsWrittenAgrees`). The as-written rewritings (`Loader.UrlAsWritten`, `Assets.AssetDestAsWritten`) are modelled beside them, and the inputs on which they differ are under "## Findings".

Nothing checks that URLs are unique. Two files that differ only in extension get the same URL, and the later render overwrites the earlier one (`Site.ExtensionsCollide`, `Site.WrittenLast`).

Some functions define an operation and state nothing about it themselves; the rows of the table name the lemmas and methods that state their properties:

- `Strings.ReplacePrefix` (build.py:94, build.py:55, the leading-only replacement): `Loader.ReplaceDirPrefix`, `Strings.ReplaceAllIsReplacePrefix`.
- `Loader.Collected` (build.py:45-50): `Loader.CollectFiles`, `Loader.CollectedStep`, `Loader.CollectedUnderDir`.
- `Loader.UrlAsWritten` and `Loader.DeriveUrl` (build.py:94): `Loader.UrlAsWrittenAgrees`, `Loader.DeriveUrlOfRelativePath`, `Loader.DeriveUrlIsRooted` and the `Findings` lemmas.
- `Loader.FileLoader` and `Loader.Load` (build.py:78-104): `Loader.LoadContentFromDir`, `Loader.LoadOnePerFile`, `Loader.LoadOkIffAllValid`, `Loader.LoadFailsAtFirstInvalid`, `Loader.LoadErrExtends`, `Loader.LoadedRecords`.
- `GlobalContext.GlobalVars` (build.py:120-126): `GlobalContext.BuildGlobals`, `GlobalContext.GlobalVarsContents`.
- `Render.RenderStep` and `Render.RenderAll` (build.py:131-140): `Render.RenderContent`, `Render.RenderAllInOrder`, `Render.RenderAllStops`, `Render.RenderContentJobs`, `Render.RenderErrExtends`.
- `Assets.AssetDestAsWritten` and `Assets.AssetDest` (build.py:55): `Assets.AssetDestOfRelativePath`, `Assets.AssetDestInjective`, `Assets.AssetDestAsWrittenAgrees` and the `Findings` lemmas.
- `Site.Build` (build.py:107-140): `Site.BuildSite`, `Site.FailedLoadRendersNothing`, `Site.CompleteBuildRendersEveryDocument`.

## Model

| member | source | states |
|---|---|---|
| Content.RequiredFields | build.py:23-27 | A template value has a required-field list exactly when it is one of the three template names. Posts require `title` then `date`, pages `title`, the index nothing. Any other value is the KeyError case. |
| Strings.Interleave | build.py:94 | `s.replace("", rep)` puts `rep` around every character: the result has length \|s\| + (\|s\|+1)·\|rep\|. `build.py` never replaces an empty pattern; this case only makes `ReplaceAll` total. |
| Strings.ReplaceAll | build.py:94 | `str.replace` of a non-empty pattern by itself leaves the string unchanged. |
| Strings.ReplaceAllNoOccurrence | build.py:94 | `str.replace` leaves a string unchanged when the pattern does not occur in it. |
| Strings.ReplaceAllLeading | build.py:94 | A leading occurrence is replaced, and the scan resumes right after it. |
| Strings.ReplaceAllSkip | build.py:94 | A character that cannot start the pattern is copied. |
| Strings.ReplaceAllShort | build.py:94 | A string shorter than the pattern is unchanged. |
| Strings.ReplaceAllSkipAll | build.py:94 | A run of characters none of which starts the pattern is copied unchanged. |
| Strings.ReplaceAllLeadingSkip | build.py:94 | A leading pattern followed by text that cannot start it: only the first is replaced. |
| Strings.ReplaceAllLast | build.py:94 | The pattern followed by a tail in which it does not occur: only the pattern is replaced. |
| Strings.ReplaceAllTwice | build.py:94 | The pattern, text that cannot start it, the pattern again, and a tail in which it does not occur: exactly the two occurrences are replaced. |
| Strings.ReplaceAllOnce | build.py:94 | A leading pattern followed by text none of whose characters can start it: only the leading one is replaced. |
| Strings.NoOccurrenceWithout | build.py:94 | A pattern ending in a character does not occur in a string without that character, so a directory `d/` never occurs in a file name. |
| Strings.ReplaceAllIsReplacePrefix | build.py:94 | When the pattern leads the string and never recurs, replace-all equals replace-prefix. |
| Strings.LexLeTotal | build.py:126 | Python's string `<=` is total. |
| Strings.LexLeAntisymmetric | build.py:126 | Python's string `<=` is antisymmetric. |
| Strings.LexLeTransitive | build.py:126 | Python's string `<=` is transitive. |
| Paths.Split | build.py:94 | `split("/")` gives at least one piece, and no piece holds a slash. |
| Paths.JoinSplit | build.py:94 | Joining the pieces of a split gives the string back. |
| Paths.SplitName | build.py:94 | A string without a slash splits into itself. |
| Paths.SplitAtSlash | build.py:94 | Splitting `a/b` gives `a` followed by the pieces of `b`. |
| Paths.SplitJoin | build.py:94 | Splitting a join of slash-free pieces gives the pieces back. |
| Paths.Keep | build.py:94 | Parsing drops empty and "." pieces; what remains are names taken from the input. |
| Paths.KeepNames | build.py:94 | A list of names is kept whole. |
| Paths.Components | build.py:94 | Every component of a parsed path is a name: non-empty, not ".", and slash-free. |
| Paths.ComponentsOfJoin | build.py:94 | Names joined by slashes parse back into the same names. |
| Paths.ParsePath | build.py:94 | `Path(s)` is well formed, and it has a root exactly when `s` starts with a slash. |
| Paths.PathStr | build.py:94 | `str(path)` is never empty, and it starts with the root. |
| Paths.ParsePathStr | build.py:94 | Parsing the printed form of a parsed path gives the path back. |
| Paths.NormalizeIdempotent | build.py:55 | `str(Path(str(Path(s))))` equals `str(Path(s))`. |
| Paths.JoinCons | build.py:94 | Joining a name before a non-empty list puts one slash between them. |
| Paths.JoinHead | build.py:94 | Joined names start with the first character of the first name. |
| Paths.ParseDot | build.py:94 | "." is the empty relative path. |
| Paths.ParseRooted | build.py:94 | `/n1/…/nk` parses into root "/" and the names `n1 … nk`. |
| Paths.SplitGap | build.py:94 | `split("/")` of `/p//name` gives an empty piece between the two slashes. |
| Paths.ParseGap | build.py:94 | `Path("/p//name")` drops that empty piece: it is the rooted path of `p` and `name`. |
| Paths.PathStrRooted | build.py:94 | A rooted path prints as "/" followed by its names joined by slashes. |
| Paths.LastIndex | build.py:94 | `rfind`: the position of the last occurrence of the character, or -1 when it is absent. |
| Paths.Suffix | build.py:94 | The suffix is a tail of the name. It is either empty or a dot followed by a dot-free, non-empty rest, and it never takes the whole name. |
| Paths.Stem | build.py:94 | The stem followed by the suffix is the name. |
| Paths.StemOfExtension | build.py:94 | `stem.ext`, with a non-empty stem and a dot-free extension, loses exactly `.ext`. |
| Paths.LastIndexPast | build.py:94 | Characters after the last occurrence do not move it. |
| Paths.StemLast | build.py:94 | Only the last name changes, and that name is its own stem plus its suffix. |
| Paths.WithoutSuffix | build.py:94 | `with_suffix("")` fails exactly on a path without components (the ValueError). Otherwise it keeps the root and every component except the last, which loses its suffix. |
| Paths.OsPathJoin | build.py:133 | `os.path.join(a, b)` is `b` when `b` is absolute. Otherwise it is `a` and `b` with at most one "/" between them, and it is exactly one "/" unless `a` is empty or already ends in "/". |
| Loader.Joined | build.py:48-49 | There is one joined path per file name of a walked directory. |
| Loader.CollectFiles | build.py:45-50 | The collected paths are those of every walked directory's files, in walk order. |
| Loader.CollectedStep | build.py:47-49 | Walking one more directory appends its files. |
| Loader.CollectedUnderDir | build.py:45-50 | When every walked directory lies under `dir`, every collected path starts with `dir`. |
| Loader.UrlOf | build.py:94 | `str(Path(s).with_suffix(""))` fails exactly when the path has no components. Otherwise it is non-empty, and it starts with "/" when `s` does. |
| Loader.UrlOfRooted | build.py:94 | `str(Path("/n1/…/nk").with_suffix(""))` is the same path with the last name's suffix removed. |
| Loader.DeriveUrlOfRelativePath | build.py:92-94 | A file at `dir` + `n1/…/nk` gets the URL "/" + `n1/…/nk` without the final extension, so `content/my_page.md` becomes `/my_page`. |
| Loader.ReplaceDirPrefix | build.py:94 | The leading `dir` of a path under it becomes "/". |
| Loader.DeriveUrlIsRooted | build.py:92-94 | Every URL derived from a file under `dir` starts with "/". |
| Loader.UrlAsWrittenAgrees | build.py:94 | When `dir` does not recur after the leading one, `file.replace(dir, "/")` and the prefix-only rewriting give the same URL. |
| Loader.FirstMissing | build.py:86-90 | No missing field exactly when every required field is present. A reported field is required and absent. |
| Loader.FirstMissingAt | build.py:86-90 | An absent field with every earlier field present is the one reported. |
| Loader.FirstMissingIsFirst | build.py:86-90 | The reported field is the first absent one in list order. |
| Loader.MakeRecord | build.py:96-101 | The record's keys are the front matter's plus `content` and `url`. `url` is always the derived URL. `content` is the HTML body unless the front matter has its own. Every other field is the front matter's. |
| Loader.LoadFile | build.py:79-101 | A missing `template` is reported first. An unknown template is reported next, as the KeyError. Then the first missing required field in list order is reported, then a path with no name. Otherwise the record is `MakeRecord` of the parsed body, the front matter and the derived URL. The load succeeds exactly when the template is known, every required field is present and the URL exists. |
| Loader.LoadOne | build.py:79-101 | The loop body, with its loop over the required fields, computes `LoadFile`. |
| Loader.LoadErrExtends | build.py:78-104 | A load that has failed on a prefix of the files fails the same way on all of them. |
| Loader.LoadOnePerFile | build.py:78-104 | A successful load returns exactly one record per file, in collection order, each the record of its own file. |
| Loader.LoadOkIffAllValid | build.py:78-104 | The load succeeds exactly when every file loads: no file is skipped. |
| Loader.LoadFailsAtFirstInvalid | build.py:78-104 | A failed load reports the error of a file all of whose predecessors load. |
| Loader.LoadedRecords | build.py:78-104 | Every record of a successful load has a known template, its required fields and a text URL. |
| Loader.LoadContentFromDir | build.py:75-104 | The method computes `Load` over the collected files. |
| GlobalContext.ValueLeTotal | build.py:126 | The date order is total. |
| GlobalContext.ValueLeTransitive | build.py:126 | The date order is transitive. |
| GlobalContext.ValueLeAntisymmetric | build.py:126 | The date order is antisymmetric. |
| GlobalContext.Insert | build.py:126 | One insertion step keeps every record dated and adds exactly one record. |
| GlobalContext.SortByDate | build.py:126 | The sort keeps every record dated and keeps the length. |
| GlobalContext.InsertPermutes | build.py:126 | Insertion adds exactly the inserted record (multiset). |
| GlobalContext.SortByDatePermutes | build.py:126 | The sorted posts are a permutation of the posts. |
| GlobalContext.InsertSorted | build.py:126 | Inserting into a sorted list keeps it sorted. |
| GlobalContext.AppendSorted | build.py:126 | Appending a record no earlier than the last keeps the list sorted. |
| GlobalContext.InsertBeforeLater | build.py:126 | A sorted list followed by a record later than all of it is sorted. |
| GlobalContext.SortByDateSorted | build.py:126 | The sorted posts are non-decreasing by `date`. |
| GlobalContext.WithDateAppend | build.py:126 | Selecting the records of one date distributes over concatenation. |
| GlobalContext.InsertStable | build.py:126 | Insertion puts the new record after every earlier record of the same date. |
| GlobalContext.InsertPastLater | build.py:126 | Moving the inserted record past a later one keeps the same-date order. |
| GlobalContext.SortByDateStable | build.py:126 | The sort is stable: the records of each date keep their load order. |
| GlobalContext.SortPostsByDate | build.py:126 | The in-place sort of the posts array leaves `SortByDate` of its old contents. |
| GlobalContext.InsertLast | build.py:126 | One insertion pass places the next record, as `Insert` specifies, and leaves the rest of the array alone. |
| GlobalContext.Placed | build.py:126 | An array slice with one element placed at `j` and the rest shifted is the old slice with that element inserted. |
| GlobalContext.SortByDateStep | build.py:126 | Sorting one more element is one more insertion. |
| GlobalContext.InsertAt | build.py:126 | Insertion places the record right after the last record that is not later than it. |
| GlobalContext.WithTemplate | build.py:121-122 | The selection holds exactly the records with that template, taken from the content. |
| GlobalContext.WithTemplateAppend | build.py:121-122 | Selection by template distributes over concatenation. |
| GlobalContext.TemplatesPartition | build.py:121-122 | The post, page and index records together are all the records, with none counted twice. |
| GlobalContext.PostsDated | build.py:121 | Every post has a `date`. |
| GlobalContext.BuildGlobals | build.py:120-126 | The method computes `GlobalVars`: the TypeError when dates mix kinds, and otherwise sorted posts and pages. |
| GlobalContext.GlobalVarsContents | build.py:120-126 | `posts` is sorted by date and is a permutation of the post records, and records with equal dates keep load order. `pages` is exactly the page records in load order. Index records are in neither list. |
| Render.OutputPath | build.py:133 | `os.path.join("build/", url[1:]) + ".html"`: a URL with a single leading slash is written to `build/` + the rest + `.html`. A URL with two leading slashes makes the rest absolute, so it is written outside `build/`. |
| Render.DropFirst | build.py:133 | `url[1:]` drops exactly the first character, and it is empty for an empty URL. |
| Render.OutputPathOfRootedUrl | build.py:132-133 | `/rel` is written to `build/rel.html`, so `/index` goes to `build/index.html`. |
| Render.OutputPathInjective | build.py:133 | Two single-rooted URLs share an output path only when they are equal. |
| Render.OutputPathOfContentFile | build.py:133 | The document at `content/n1/…/nk` is written to `build/n1/…/stem.html`. |
| Render.RenderScope | build.py:136-139 | `posts` and `pages` are bound to the global lists whatever the document says. Every other field of the document is passed through unchanged, and nothing else is added. |
| Render.TemplateName | build.py:135 | A loaded document names one of the three templates. |
| Render.JobFor | build.py:131-140 | A document's render uses one of the three templates, the one its `template` field names. The scope holds the document's keys plus `posts` and `pages`. `posts` and `pages` are the global lists, and every other key keeps the document's value. A URL with one leading slash is written to `build/` + the rest of the URL + `.html`. |
| Render.RenderAllInOrder | build.py:131-140 | The loop renders documents in order, one render each, as far as it gets. |
| Render.RenderAllStops | build.py:131-140 | The loop fails exactly when it stops short of the end, and it fails with the exception of the first document not rendered. |
| Render.RenderContentJobs | build.py:131-140 | Each document gets exactly one render, in load order, until the first whose template cannot be found; the loop then fails naming that template. |
| Render.RenderErrExtends | build.py:131-140 | A loop that has failed on a prefix fails the same way on the whole list. |
| Render.RenderContent | build.py:129-140 | The render loop computes `RenderAll` with the per-document step. |
| Assets.NormalizeRelative | build.py:55 | `Path` leaves a relative path of plain names unchanged. |
| Assets.AssetDestOfRelativePath | build.py:53-56 | `static/n1/…/nk` is copied to `build/n1/…/nk`, so `static/foo.txt` goes to `build/foo.txt`. |
| Assets.AssetDestInjective | build.py:53-56 | With the prefix-only rewriting `AssetDest`, two static files are never copied to the same destination. As written, two files can collide (`Findings.AssetsCollideAsWritten`). |
| Assets.AssetDestAsWrittenAgrees | build.py:55 | When `src` does not recur after the leading one, the as-written and prefix-only destinations agree. |
| Assets.CopyPlan | build.py:53-57 | There is one copy per collected file. |
| Assets.CopyFilesFromDir | build.py:53-57 | The loop copies every collected file, in order, to its rewritten destination. |
| Site.BuildSite | build.py:107-140 | The run computes `Build`: copy, load, globals, render, stopping at the first exception. |
| Site.FailedLoadRendersNothing | build.py:114-118 | The assets are always copied. A failed load renders nothing, reports the load's error, and has an invalid file behind it. |
| Site.CompleteBuildRendersEveryDocument | build.py:118-140 | A run without an exception loaded every file and rendered each document exactly once, in load order, to the output path of its URL. |
| Site.Written | build.py:131-140 | The files written by the renders are exactly their output paths. Only renders are counted: a copied asset such as `build/x.html` is silently overwritten by the render of `/x`. |
| Site.WrittenLast | build.py:131-140 | Each output file holds the last render written to it; nothing detects the overwrite. |
| Site.UrlOfExtension | build.py:92-94 | `content/stem.ext` gets the URL `/stem`, whatever the extension. |
| Site.ExtensionsCollide | build.py:94 | `content/a.md` and `content/a.txt` both get `/a`, and `/a` is written to `build/a.html`. |
| Findings.UrlOfRootedPair | build.py:94 | `/pre/name` loses the suffix of `name` and nothing else. |
| Findings.ParseDoubleRooted | build.py:94 | `//name` keeps its doubled root. |
| Findings.UrlOfDoubleRooted | build.py:94 | `//name` becomes `//stem`. |
| Findings.NestedIntended | build.py:92-94 | The intended URL of `d/sub/name` is `/sub/stem`. |
| Findings.UrlAsWrittenNested | build.py:94 | As written, `d/` + `pre d` + `/name` gets `/pre/stem`, while the intended URL is `/pre d/stem`. |
| Findings.OutputPathDoubleRooted | build.py:133 | The URL `//stem` is written to `/stem.html`, outside `build/`. |
| Findings.UrlAsWrittenDoubleRoot | build.py:94 | As written, `d/d/name` gets `//stem`, which is written outside `build/`. The intended URL is `/d/stem`. |
| Findings.ContentSuffixedDirectory | build.py:94 | `content/mycontent/a.md` gets `/my/a`, while the intended URL is `/mycontent/a`. |
| Findings.ContentInsideContent | build.py:94 | `content/content/a.md` gets `//a` and is written to `/a.html`. The intended URL is `/content/a`, written to `build/content/a.html`. |
| Findings.AssetDestAsWrittenNested | build.py:55 | As written, `s/p/s/name` is copied to `e/p/e/name`. |
| Findings.AssetDestNested | build.py:53-56 | The intended destination of `s/p/s/name` is `e/p/s/name`. |
| Findings.StaticInsideStatic | build.py:55 | `static/img/static/x.png` is copied to `build/img/build/x.png`, while the intended destination is `build/img/static/x.png`. |
| Findings.UrlOfGap | build.py:94 | `/p//name` gets the URL `/p/stem`. |
| Findings.NestedIntendedThree | build.py:92-94 | The intended URL of `d/p/d/name` is `/p/d/stem`. |
| Findings.UrlsCollideAsWritten | build.py:94 | As written, `d/p/d/name` and `d/p/name` both get `/p/stem`. The intended URLs are `/p/d/stem` and `/p/stem`. |
| Findings.ContentUrlsCollide | build.py:94 | `content/a/content/x.md` and `content/a/x.md` both get `/a/x`. The intended URLs are `/a/content/x` and `/a/x`. |
| Findings.AssetsCollideAsWritten | build.py:55 | As written, `s/p/s/name` and `s/p/e/name` are both copied to `e/p/e/name`. The intended destinations are `e/p/s/name` and `e/p/e/name`. |
| Findings.StaticAssetsCollide | build.py:55 | `static/a/static/x.png` and `static/a/build/x.png` are both copied to `build/a/build/x.png`. The intended destinations are `build/a/static/x.png` and `build/a/build/x.png`. |

## Left out

- `serve.py`: it only wires a file watcher and a development HTTP server to the build.
- `frontmatter.load` and `markdown.markdown` (build.py:60-64) are foreign libraries. They are the parameter `parse: string -> Parsed`, which gives the front matter and the HTML body of a path.
- The Jinja2 engine is not modelled:
  - template loading (build.py:129-130, 135) is the parameter `templates`, the set of names that exist;
  - rendering (build.py:67-68) is not modelled either; a render is the `RenderJob` handed to it.
- Filesystem effects are not modelled:
  - `rmtree` and `mkdir` of the build directory (build.py:109-111);
  - `makedirs` of parent directories (build.py:34-37);
  - `shutil.copy` (build.py:40-42);
  - file writes and the progress prints (build.py:57, 69-72).
  Copies and renders are recorded as values.
- The model assumes that `template.render` (build.py:68), the file write (build.py:70-71) and `shutil.copy` (build.py:40) never raise. In build.py any of them would end the run partway through its loop. "A run without an exception" in `Site.CompleteBuildRendersEveryDocument` covers only the exceptions the model has: a missing or unknown template, a missing field, a path with no name, mixed date kinds, and a template not found.
- `os.walk` (build.py:47) is the input `Walk`, a list of directories and their file names in the order the walk yields them. The walk's order and its restriction to paths under the walked directory are not modelled.
- Front-matter values are `Text` or `Date` only, and a date is a day number. Any other YAML type is not modelled. Comparing a date with a text raises TypeError; the model gives `UncomparableDates` when the posts' dates are of both kinds.
- GlobalContext.SortPostsByDate: the model uses an insertion sort where CPython uses Timsort. Both are stable, so the result is the same: the sorted order in which equal dates keep their load order.
- The paths follow Python 3.12's `pathlib`. `with_suffix("")` raises on a path with no components (`UnnamedPath`). A name like `..md` yields the stem `.`. Later versions, where `with_suffix` goes through `with_name` and `with_name` refuses ".", reject it.
- Exceptions carry the file and field they concern, not the message text.
- Loader.LoadFile: the URL is derived by replacing only the leading `content/`, not every occurrence as build.py:94 does. The two agree when `content/` does not occur again after the leading one (`Loader.UrlAsWrittenAgrees`). Otherwise see "## Findings".
- Assets.CopyPlan: the destination is derived by replacing only the leading `static/`, not every occurrence as build.py:55 does. The two agree when `static/` does not occur again after the leading one (`Assets.AssetDestAsWrittenAgrees`). Otherwise see "## Findings".
- Site.Build: it uses `Loader.LoadFile` and `Assets.CopyPlan`, so it has the same condition. It agrees with build.py:107-140 when neither directory string occurs again after the leading one in any collected path.

## Findings

| source | as written | input that shows it | evidently intended | confidence | as-written member | corrected member |
|---|---|---|---|---|---|---|
| build.py:94 | `file.replace(dir, "/")` rewrites every occurrence of `content/` in the path | `content/mycontent/a.md` gets the URL `/my/a` | only the leading `content/` is replaced, giving `/mycontent/a` as the comment's `content/my_page.md => /my_page` describes | high; not executed | Findings.ContentSuffixedDirectory | Loader.DeriveUrlOfRelativePath |
| build.py:94 | a sub-directory named `content` inside `content/` gets a URL with two leading slashes, and `os.path.join` then treats the rest as absolute | `content/content/a.md` gets `//a` and is written to `/a.html`, outside `build/` | `/content/a`, written to `build/content/a.html` | high; not executed | Findings.UrlAsWrittenDoubleRoot | Render.OutputPathOfContentFile |
| build.py:55 | `file.replace(src, dest)` rewrites every occurrence of `static/` in the path | `static/img/static/x.png` is copied to `build/img/build/x.png` | `build/img/static/x.png`, the relative path kept | high; not executed | Findings.StaticInsideStatic | Assets.AssetDestOfRelativePath |
| build.py:55 | two different static files can be copied to the same destination, and the later copy overwrites the earlier | `static/a/static/x.png` and `static/a/build/x.png` both go to `build/a/build/x.png` | each file keeps its own relative path: `build/a/static/x.png` and `build/a/build/x.png` | high; not executed | Findings.StaticAssetsCollide | Assets.AssetDestInjective |
| build.py:94 | two different content files can get the same URL, and the later render overwrites the earlier | `content/a/content/x.md` and `content/a/x.md` both get `/a/x` | `/a/content/x` and `/a/x` | high; not executed | Findings.ContentUrlsCollide | Loader.DeriveUrlOfRelativePath |
