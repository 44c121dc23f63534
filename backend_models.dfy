/** The values the backend handles: rows as the database returns them, the
    article a language model generates, web search results and thrown errors
    (backend/src/interfaces/interfaces.ts). */
module BackendModels {
  import opened Wrappers
  import opened Text

  /** A JSON value, as far as the modelled code produces or inspects it. */
  datatype Json = JNull | JBool(b: bool) | JNum(n: int) | JStr(s: string) | JStrList(items: seq<string>)

  /** A table row or a request body: a JSON object. The `Article` interface is
      only a cast over such an object, so the model keeps the keys as they are
      written. */
  type Row = map<string, Json>

  /** `row.key`, `undefined` being `None`. */
  function Field(row: Row, key: string): Option<Json> {
    if key in row then Some(row[key]) else None
  }

  /** JavaScript truthiness of a property value. */
  predicate Truthy(v: Option<Json>) {
    match v
    case None => false
    case Some(j) =>
      match j
      case JNull => false
      case JBool(b) => b
      case JNum(n) => n != 0
      case JStr(s) => s != ""
      case JStrList(_) => true
  }

  /** `String(v)`, as a template literal writes a property value. */
  function TemplateText(v: Option<Json>): string {
    match v
    case None => "undefined"
    case Some(j) =>
      match j
      case JNull => "null"
      case JBool(b) => if b then "true" else "false"
      case JNum(n) => if n < 0 then "-" + NatToString(-n) else NatToString(n)
      case JStr(s) => s
      case JStrList(items) => Join(items, ",")
  }

  /** The article a language model returns (`GeneratedArticle`). The parsed reply
      is whatever object the model wrote: `headerImagePrompt` is the key the
      prompt asks for and the interface declares, `snakeCaseImagePrompt` the value
      of a `header_image_prompt` key, which the model is not asked for. */
  datatype GeneratedArticle = GeneratedArticle(
    title: string,
    metaTitle: string,
    metaDescription: string,
    content: string,
    segment: string,
    tags: seq<string>,
    category: string,
    sources: seq<string>,
    headerImagePrompt: Option<string>,
    snakeCaseImagePrompt: Option<string>)

  /** `ResearchResult`: the text handed to the article generator and its sources. */
  datatype ResearchResult = ResearchResult(content: string, sources: seq<string>)

  /** One result of a Tavily web search. */
  datatype WebResult = WebResult(title: string, url: string, content: string)

  /** A thrown value: an `Error` object, or anything else a `throw` can carry. */
  datatype Thrown = ErrorObject(name: string, message: string) | OtherValue(text: string)

  /** `new Error(message)`. */
  function Fail(message: string): Thrown {
    ErrorObject("Error", message)
  }

  /** `error instanceof Error ? error.message : fallback`. */
  function ErrorMessage(t: Thrown, fallback: string): string {
    match t
    case ErrorObject(_, message) => message
    case OtherValue(_) => fallback
  }

  /** `${error}`: `Error.prototype.toString` for an `Error`, the text otherwise. */
  function Stringify(t: Thrown): string {
    match t
    case ErrorObject(name, message) =>
      if name == "" then message else if message == "" then name else name + ": " + message
    case OtherValue(text) => text
  }

  /** An error as PostgREST reports it. */
  datatype PgError = PgError(code: string, message: string)
}
