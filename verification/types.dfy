/** The records the pages exchange with the backend. */
module Types {
  import opened Wrappers
  import opened Json

  datatype User = User(id: string, email: string, fullName: Option<string>)

  /** A template's `content` as the backend sends it: either a string, which
      the pages hand to `JSON.parse` (`parsed` is that call's result, `None`
      when it throws), or an already parsed JSON value (`printed` is what
      `JSON.stringify(value, null, 2)` makes of it). */
  datatype TemplateContent =
    | Text(raw: string, parsed: Option<Json>)
    | Tree(value: Json, printed: string)

  /** The content as text: a string as it is, an object as printed by
      `JSON.stringify(content, null, 2)`. The live preview starts from it and
      the admin editor shows it. */
  function ContentText(c: TemplateContent): string {
    match c
    case Text(raw, _) => raw
    case Tree(_, printed) => printed
  }

  datatype Template = Template(
    id: string,
    title: string,
    description: string,
    category: string,
    content: TemplateContent,
    variables: seq<string>)

  datatype GlobalVariable = GlobalVariable(key: string, value: string)

  datatype Workspace = Workspace(name: string, id: string)

  datatype NotionIntegration = NotionIntegration(connected: bool, workspace: Option<Workspace>)

  datatype PaginatedResponse<T> = PaginatedResponse(data: seq<T>, total: int, page: int, limit: int, hasMore: bool)
}
