/**
 * The data the build passes between its stages: front-matter values,
 * loaded documents, the configured directories and templates, and the
 * exceptions that stop a build.
 */
module Content {
  import opened Base
  import Paths

  /**
   * A front-matter value as the YAML parser yields it: text, or a date
   * (abstracted as a day number, so that two dates compare as integers).
   */
  datatype Value = Text(s: string) | Date(day: int)

  /** The parsed front matter of one content file. */
  type FrontMatter = map<string, Value>

  /** One loaded document: its front-matter fields, `content` and `url`. */
  type Record = map<string, Value>

  /** What parsing one content file yields: its front matter and its body converted to HTML. */
  datatype Parsed = Parsed(frontMatter: FrontMatter, html: string)

  /** The exceptions that stop a build. */
  datatype BuildError =
    | MissingFrontmatter(file: string, field: string)   // MissingFrontmatter
    | UnknownTemplate(file: string, template: Value)    // KeyError from the required-field table
    | UnnamedPath(file: string, reason: Paths.PathError) // ValueError from with_suffix
    | UncomparableDates                                 // TypeError while sorting posts
    | TemplateNotFound(name: string)                    // the template engine finds no such template

  const BuildDir: string := "build/"
  const ContentDir: string := "content/"
  const StaticDir: string := "static/"

  const IndexTemplate: string := "index.html.j2"
  const PageTemplate: string := "page.html.j2"
  const PostTemplate: string := "post.html.j2"

  /** The front-matter fields each template requires, in the order they are checked. */
  const RequiredFrontmatter: map<string, seq<string>> :=
    map[IndexTemplate := [], PageTemplate := ["title"], PostTemplate := ["title", "date"]]

  /** Looking a `template` value up in the table: `None` where Python raises KeyError. */
  function RequiredFields(template: Value): (fields: Option<seq<string>>)
    ensures fields.Some? <==> template in {Text(IndexTemplate), Text(PageTemplate), Text(PostTemplate)}
    ensures template == Text(PostTemplate) ==> fields == Some(["title", "date"])
    ensures template == Text(PageTemplate) ==> fields == Some(["title"])
    ensures template == Text(IndexTemplate) ==> fields == Some([])
  {
    if template.Text? && template.s in RequiredFrontmatter then Some(RequiredFrontmatter[template.s]) else None
  }
}
