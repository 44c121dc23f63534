/** The failure handling of the backend's language-model service
    (backend/src/services/markdownOpenaiService.ts): what each call turns the
    answers of Tavily, OpenAI and `fetch` into. The answers themselves are inputs. */
module MarkdownOpenaiService {
  import opened Wrappers
  import opened Text
  import opened BackendModels

  /** `searchWeb(query)`: the search's result list, or an empty list when the
      search throws; it never throws itself. */
  function SearchWeb(answer: Result<seq<WebResult>, Thrown>): seq<WebResult> {
    match answer
    case Ok(rs) => rs
    case Err(_) => []
  }

  const GenerationFailurePrefix: string := "Failed to generate article: "

  /** `generateArticle(topic, researchData)`: the article the model's JSON reply
      parses to, or a failure wrapping the reason. `reply` stands for the model
      call followed by `JSON.parse`, either of which may throw. */
  function GenerateArticle(reply: Result<GeneratedArticle, Thrown>): (r: Result<GeneratedArticle, Thrown>)
    ensures reply.Ok? ==> r == reply
    ensures reply.Err? ==> r.Err? && r.error.ErrorObject?
    ensures reply.Err? ==> r.error.message == GenerationFailurePrefix + ErrorMessage(reply.error, "Unknown error")
  {
    match reply
    case Ok(g) => Ok(g)
    case Err(t) => Err(Fail(GenerationFailurePrefix + ErrorMessage(t, "Unknown error")))
  }

  /** Bytes of a downloaded image. */
  type Bytes = seq<bv8>

  /** One entry of the image API's `data` list. */
  datatype ImageEntry = ImageEntry(url: Option<string>)

  /** The image API's answer: its `data` list (possibly absent), or a throw. */
  datatype ImageAnswer = ImagesThrew(thrown: Thrown) | Images(data: Option<seq<ImageEntry>>)

  /** The download of the image URL: the HTTP answer, or a throw. */
  datatype Download = DownloadThrew(thrown: Thrown) | Downloaded(ok: bool, statusText: string, body: Bytes)

  const ImageFailurePrefix: string := "Error crítico generando imagen: "
  const NoImage: string := "No se generó ninguna imagen"
  const NoImageUrl: string := "No se generó URL de imagen"

  /** The error `generateHeaderImage` throws for a cause `t`: the cause is
      interpolated, so an `Error` shows as "Error: message". */
  function ImageFailure(t: Thrown): Thrown {
    Fail(ImageFailurePrefix + Stringify(t))
  }

  /** `generateHeaderImage(prompt)`: the downloaded image, or a failure. The image
      API must return at least one entry, the first one must carry a URL, and
      downloading it must succeed. */
  function GenerateHeaderImage(answer: ImageAnswer, download: Download): (r: Result<Bytes, Thrown>)
    ensures r.Ok? <==>
      answer.Images? && answer.data.Some? && |answer.data.value| > 0
      && answer.data.value[0].url.Some? && answer.data.value[0].url.value != ""
      && download.Downloaded? && download.ok
    ensures r.Ok? ==> r.value == download.body
    ensures r.Err? ==> r.error.ErrorObject? && Prefix(ImageFailurePrefix, r.error.message)
  {
    match answer
    case ImagesThrew(t) => Err(ImageFailure(t))
    case Images(data) =>
      if data.None? || |data.value| == 0 then Err(ImageFailure(Fail(NoImage)))
      else if data.value[0].url.None? || data.value[0].url.value == "" then Err(ImageFailure(Fail(NoImageUrl)))
      else
        match download
        case DownloadThrew(t) => Err(ImageFailure(t))
        case Downloaded(ok, statusText, body) =>
          if !ok then Err(ImageFailure(Fail("Error descargando imagen: " + statusText))) else Ok(body)
  }

  /** `p` is a prefix of `s`. */
  predicate Prefix(p: string, s: string) {
    |p| <= |s| && s[..|p|] == p
  }

  /** An empty `data` list ends in the message naming that cause. */
  lemma NoImageMessage(download: Download)
    ensures GenerateHeaderImage(Images(Some([])), download)
      == Err(Fail(ImageFailurePrefix + "Error: " + NoImage))
  {
    assert |NoImage| > 0;
    assert Stringify(Fail(NoImage)) == "Error" + ": " + NoImage;
    assert ImageFailurePrefix + ("Error" + ": " + NoImage) == ImageFailurePrefix + "Error: " + NoImage;
  }
}
