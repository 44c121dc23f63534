/** `ArticlesController` (backend/src/controllers/articlesController.ts): the
    request handlers of the articles API over an in-memory picture of the
    database table, the image bucket and the services they call. Every answer a
    service or the database could give is an input of the handler. */
module ArticlesController {
  import opened Wrappers
  import opened Text
  import opened Api
  import opened BackendModels
  import opened SupabaseService
  import opened MarkdownOpenaiService

  const TopicRequired: string := "Topic is required"
  const ArticleNotFound: string := "Article not found"

  // ---------------------------------------------------------------------------
  // Topic validation

  /** `!topic || topic.trim() === ''`. */
  predicate TopicRejected(topic: Option<string>) {
    topic.None? || topic.value == "" || Trim(topic.value) == ""
  }

  /** A topic is rejected exactly when it is missing or holds only white space. */
  lemma TopicRejectedIff(topic: Option<string>)
    ensures TopicRejected(topic) <==> topic.None? || AllSpace(topic.value)
  {
    if topic.Some? {
      TrimEmptyIffAllSpace(topic.value);
    }
  }

  // ---------------------------------------------------------------------------
  // Image file name

  predicate AsciiAlnum(c: char) {
    'a' <= c <= 'z' || 'A' <= c <= 'Z' || '0' <= c <= '9'
  }

  /** `toLowerCase` on the characters a slug can still hold. */
  function AsciiLower(c: char): char {
    if 'A' <= c <= 'Z' then (c as int + 32) as char else c
  }

  /** A character allowed in a slug: `[a-z0-9-]`. */
  predicate SlugSafe(c: char) {
    'a' <= c <= 'z' || '0' <= c <= '9' || c == '-'
  }

  /** `title.replace(/[^a-zA-Z0-9]/g, '-').toLowerCase()`: one character per
      character of the title, lower-cased when it is an ASCII letter or digit and
      '-' otherwise. */
  function Slug(title: string): (r: string)
    ensures |r| == |title|
    ensures forall i | 0 <= i < |r| :: SlugSafe(r[i])
    ensures forall i | 0 <= i < |r| :: AsciiAlnum(title[i]) ==> r[i] == AsciiLower(title[i])
    ensures forall i | 0 <= i < |r| :: !AsciiAlnum(title[i]) ==> r[i] == '-'
  {
    if title == [] then []
    else [if AsciiAlnum(title[0]) then AsciiLower(title[0]) else '-'] + Slug(title[1..])
  }

  /** A slug is its own slug. */
  lemma SlugIdempotent(title: string)
    ensures Slug(Slug(title)) == Slug(title)
  {
    var s := Slug(title);
    assert forall i | 0 <= i < |s| :: Slug(s)[i] == s[i];
  }

  /** The name the header image is uploaded under. */
  function ImageFileName(title: string): (name: string)
    ensures |name| == |title| + 4 && name[|title|..] == ".jpg"
    ensures name[..|title|] == Slug(title)
  {
    Slug(title) + ".jpg"
  }

  // ---------------------------------------------------------------------------
  // Research handed to the article generator

  /** `${result.title}: ${result.content}`. */
  function ResearchLine(r: WebResult): string {
    r.title + ": " + r.content
  }

  function ResearchLines(results: seq<WebResult>): (lines: seq<string>)
    ensures |lines| == |results|
    ensures forall i | 0 <= i < |results| :: lines[i] == ResearchLine(results[i])
  {
    if results == [] then [] else [ResearchLine(results[0])] + ResearchLines(results[1..])
  }

  function Urls(results: seq<WebResult>): (urls: seq<string>)
    ensures |urls| == |results|
    ensures forall i | 0 <= i < |results| :: urls[i] == results[i].url
  {
    if results == [] then [] else [results[0].url] + Urls(results[1..])
  }

  /** The research built from the web results: their lines separated by blank
      lines, and their URLs, one per result, in result order. */
  function ResearchFromWeb(results: seq<WebResult>): (r: ResearchResult)
    ensures |r.sources| == |results|
    ensures forall i | 0 <= i < |results| :: r.sources[i] == results[i].url
  {
    ResearchResult(Join(ResearchLines(results), "\n\n"), Urls(results))
  }

  /** The research text: empty without results, one result's line alone, and
      otherwise the first line, a blank line, and the text of the rest. */
  lemma ResearchContentShape(results: seq<WebResult>)
    ensures results == [] ==> ResearchFromWeb(results).content == ""
    ensures |results| == 1 ==> ResearchFromWeb(results).content == ResearchLine(results[0])
    ensures |results| > 1 ==>
      ResearchFromWeb(results).content == ResearchLine(results[0]) + "\n\n" + ResearchFromWeb(results[1..]).content
  {
    if |results| > 1 {
      assert ResearchLines(results)[1..] == ResearchLines(results[1..]);
    }
  }

  // ---------------------------------------------------------------------------
  // Header image prompt

  /** The prompt as the handler computes it: `generatedArticle.header_image_prompt
      || generatedArticle.title`. */
  function ImagePromptAsWritten(g: GeneratedArticle): string {
    OrElse(g.snakeCaseImagePrompt, g.title)
  }

  /** The prompt the handler evidently means: the `headerImagePrompt` the model is
      asked for, or the title when that is missing or empty. */
  function ImagePrompt(g: GeneratedArticle): string {
    OrElse(g.headerImagePrompt, g.title)
  }

  /** Which of the two prompts a generation request draws: the handler's as
      written, or the corrected one. */
  datatype PromptReading = AsWritten | Corrected

  /** The prompt a generation request draws under `reading`. */
  function ImagePromptBy(reading: PromptReading, g: GeneratedArticle): string {
    match reading
    case AsWritten => ImagePromptAsWritten(g)
    case Corrected => ImagePrompt(g)
  }

  /** A reply in exactly the requested shape has its image prompt ignored by the
      handler as written, which falls back to the title. */
  lemma RequestedImagePromptIgnored(g: GeneratedArticle, prompt: string)
    requires g.headerImagePrompt == Some(prompt) && prompt != "" && g.snakeCaseImagePrompt.None?
    ensures ImagePromptAsWritten(g) == g.title
    ensures ImagePrompt(g) == prompt
  {
  }

  // ---------------------------------------------------------------------------
  // The handlers

  /** An outward call: a service, the database or the image bucket. */
  datatype Call =
    | SearchCall(query: string)
    | GenerateTextCall(topic: string, research: ResearchResult)
    | GenerateImageCall(prompt: string)
    | UploadCall(path: string, image: Bytes)
    | InsertCall(row: Row)
    | UpdateCall(id: string, data: Row)
    | RemoveImageCall(path: string)
    | DeleteRowCall(id: string)
    | ExportCall(id: string)

  /** The answers every service gives during one `generateArticle` request. */
  datatype GenerationAnswers = GenerationAnswers(
    search: Result<seq<WebResult>, Thrown>,
    text: Result<GeneratedArticle, Thrown>,
    image: ImageAnswer,
    download: Download,
    uuid: string,
    uploadFault: Option<string>,
    publicBase: string,
    insertFault: Option<PgError>,
    newId: string,
    now: string)

  /** What one `generateArticle` request does: its reply, the calls it makes in
      order, the image object it leaves in the bucket, and the row it adds. */
  datatype Generation = Generation(reply: Reply<Row>, calls: seq<Call>, uploaded: Option<string>, inserted: Option<Row>)

  /** The row the database keeps for an insert: the inserted keys plus the id and
      time stamps it assigns. */
  function StoredRow(row: Row, id: string, now: string): Row {
    row + map["id" := JStr(id), "created_at" := JStr(now), "updated_at" := JStr(now)]
  }

  const GenerationFallback: string := "Failed to generate article"

  /** `e`, preceded by the calls `prefix`. */
  function After(prefix: seq<Call>, e: Generation): Generation {
    e.(calls := prefix + e.calls)
  }

  /** `generateArticle(req, res)` step by step: validation, web search, article
      generation, header image, upload, insert. The first failing step ends the
      request with status 500. The handler draws the image with the prompt
      `AsWritten`; `Corrected` gives the same request with the corrected prompt. */
  function GenerateOutcome(reading: PromptReading, topic: Option<string>, a: GenerationAnswers): Generation {
    if TopicRejected(topic) then Generation(Failure(400, TopicRequired), [], None, None)
    else Research(reading, topic.value, a)
  }

  /** Steps 1 to 5, once the topic `t` is accepted: web search, article
      generation, then the image stage. */
  function Research(reading: PromptReading, t: string, a: GenerationAnswers): Generation {
    var searched := [SearchCall(t), GenerateTextCall(t, ResearchFromWeb(SearchWeb(a.search)))];
    match GenerateArticle(a.text)
    case Err(e) => Generation(Failure(500, ErrorMessage(e, GenerationFallback)), searched, None, None)
    case Ok(g) => After(searched, Illustrate(reading, g, a))
  }

  /** Steps 3 to 5, once the article is generated: header image, upload, insert. */
  function Illustrate(reading: PromptReading, g: GeneratedArticle, a: GenerationAnswers): Generation {
    var drawn := [GenerateImageCall(ImagePromptBy(reading, g))];
    match GenerateHeaderImage(a.image, a.download)
    case Err(e) => Generation(Failure(500, ErrorMessage(e, GenerationFallback)), drawn, None, None)
    case Ok(bytes) => After(drawn, Save(g, bytes, a))
  }

  /** Steps 4 and 5, once the image is drawn: upload, insert. */
  function Save(g: GeneratedArticle, bytes: Bytes, a: GenerationAnswers): Generation {
    var path := UploadPath(a.uuid, ImageFileName(g.title));
    if a.uploadFault.Some? then
      Generation(Failure(500, FailureMessage("upload image", a.uploadFault.value)), [UploadCall(path, bytes)], None, None)
    else
      var row := NewArticleRow(g, Some(PublicUrl(a.publicBase, path)));
      var calls := [UploadCall(path, bytes), InsertCall(row)];
      if a.insertFault.Some? then
        Generation(Failure(500, FailureMessage("create article", a.insertFault.value.message)), calls, Some(path), None)
      else
        var stored := StoredRow(row, a.newId, a.now);
        Generation(Reply(201, ApiResponse(true, Some(stored), None, Some(GenerationSaved))), calls, Some(path), Some(stored))
  }

  const GenerationSaved: string := "Article generated and saved successfully"

  /** A missing or blank topic is answered 400 before any service is called. */
  lemma BlankTopicCallsNothing(reading: PromptReading, topic: Option<string>, a: GenerationAnswers)
    requires topic.None? || AllSpace(topic.value)
    ensures GenerateOutcome(reading, topic, a) == Generation(Failure(400, TopicRequired), [], None, None)
  {
    TopicRejectedIff(topic);
  }

  /** The upload and insert stage: 201 exactly when both succeed; the image stays
      in the bucket once uploaded, even when the insert then fails; the stored row
      is the inserted record with the public URL of the upload. */
  lemma SaveSteps(g: GeneratedArticle, bytes: Bytes, a: GenerationAnswers)
    ensures var e := Save(g, bytes, a);
      var path := UploadPath(a.uuid, ImageFileName(g.title));
      && e.reply.status in {201, 500}
      && (e.inserted.Some? <==> e.reply.status == 201)
      && StatusAgrees(e.reply)
      && (e.uploaded.Some? <==> a.uploadFault.None?)
      && (e.uploaded.Some? ==> e.uploaded.value == path)
      && |e.calls| == (if a.uploadFault.Some? then 1 else 2)
      && e.calls[0] == UploadCall(path, bytes)
      && (a.uploadFault.None? ==> e.calls[1] == InsertCall(NewArticleRow(g, Some(PublicUrl(a.publicBase, path)))))
      && (e.inserted.Some? ==>
            e.inserted.value == StoredRow(NewArticleRow(g, Some(PublicUrl(a.publicBase, path))), a.newId, a.now)
            && e.reply.body.data == e.inserted)
  {
  }

  /** Every request is answered 201, 400 or 500, and only a 201 adds a row. */
  lemma GenerationStatuses(reading: PromptReading, topic: Option<string>, a: GenerationAnswers)
    ensures var e := GenerateOutcome(reading, topic, a);
      && e.reply.status in {201, 400, 500}
      && (e.inserted.Some? <==> e.reply.status == 201)
      && StatusAgrees(e.reply)
  {
    if !TopicRejected(topic) {
      ResearchSteps(reading, topic.value, a);
    }
  }

  /** A 201 means that search, generation, image, upload and insert ran in that
      order, with the image uploaded under the slug of the title and the stored
      row in the reply. */
  lemma GenerationSteps(reading: PromptReading, topic: Option<string>, a: GenerationAnswers)
    requires GenerateOutcome(reading, topic, a).reply.status == 201
    ensures !TopicRejected(topic) && a.text.Ok?
    ensures var e := GenerateOutcome(reading, topic, a);
      && |e.calls| == 5 && e.calls[0] == SearchCall(topic.value)
      && e.calls[1].GenerateTextCall? && e.calls[2] == GenerateImageCall(ImagePromptBy(reading, a.text.value))
      && e.calls[3] == UploadCall(UploadPath(a.uuid, ImageFileName(a.text.value.title)), a.download.body)
      && e.calls[4].InsertCall?
      && e.uploaded == Some(UploadPath(a.uuid, ImageFileName(a.text.value.title)))
      && e.inserted.Some? && e.reply.body.data == e.inserted
  {
    ResearchSteps(reading, topic.value, a);
  }

  /** The stages after validation: 201 or 500, a row only with 201, and on 201
      the five calls in order. */
  lemma ResearchSteps(reading: PromptReading, t: string, a: GenerationAnswers)
    ensures var e := Research(reading, t, a);
      && e.reply.status in {201, 500}
      && (e.inserted.Some? <==> e.reply.status == 201)
      && StatusAgrees(e.reply)
      && |e.calls| >= 2 && e.calls[0] == SearchCall(t)
      && e.calls[1] == GenerateTextCall(t, ResearchFromWeb(SearchWeb(a.search)))
      && (e.reply.status == 201 ==>
            && a.text.Ok? && |e.calls| == 5
            && e.calls[2] == GenerateImageCall(ImagePromptBy(reading, a.text.value))
            && e.calls[3] == UploadCall(UploadPath(a.uuid, ImageFileName(a.text.value.title)), a.download.body)
            && e.calls[4].InsertCall?
            && e.uploaded == Some(UploadPath(a.uuid, ImageFileName(a.text.value.title)))
            && e.reply.body.data == e.inserted)
  {
    var searched := [SearchCall(t), GenerateTextCall(t, ResearchFromWeb(SearchWeb(a.search)))];
    if a.text.Ok? {
      var i := Illustrate(reading, a.text.value, a);
      IllustrateSteps(reading, a.text.value, a);
      assert Research(reading, t, a) == After(searched, i);
      assert After(searched, i).calls == searched + i.calls;
    }
  }

  /** The image stage: 201 exactly when the image is drawn and saved, and then
      the prompt, upload and insert calls in that order. */
  lemma IllustrateSteps(reading: PromptReading, g: GeneratedArticle, a: GenerationAnswers)
    ensures var e := Illustrate(reading, g, a);
      && e.reply.status in {201, 500}
      && (e.inserted.Some? <==> e.reply.status == 201)
      && StatusAgrees(e.reply)
      && |e.calls| >= 1 && e.calls[0] == GenerateImageCall(ImagePromptBy(reading, g))
      && (e.reply.status == 201 ==>
            && |e.calls| == 3
            && e.calls[1] == UploadCall(UploadPath(a.uuid, ImageFileName(g.title)), a.download.body)
            && e.calls[2].InsertCall?
            && e.uploaded == Some(UploadPath(a.uuid, ImageFileName(g.title)))
            && e.reply.body.data == e.inserted)
  {
    var image := GenerateHeaderImage(a.image, a.download);
    if image.Ok? {
      SaveSteps(g, image.value, a);
    }
  }

  /** The article generator receives the research built from the web search,
      after the search call. */
  lemma GenerationResearch(reading: PromptReading, topic: Option<string>, a: GenerationAnswers)
    requires !TopicRejected(topic)
    ensures var e := GenerateOutcome(reading, topic, a);
      |e.calls| >= 2 && e.calls[1] == GenerateTextCall(topic.value, ResearchFromWeb(SearchWeb(a.search)))
  {
    ResearchSteps(reading, topic.value, a);
  }

  /** A failed search still lets the article be generated, from research
      without sources or text. */
  lemma FailedSearchNoSources(a: GenerationAnswers)
    requires a.search.Err?
    ensures ResearchFromWeb(SearchWeb(a.search)).sources == []
    ensures ResearchFromWeb(SearchWeb(a.search)).content == ""
  {
    ResearchContentShape([]);
  }

  /** Once the topic is accepted and the article generated, the request goes on
      with the image stage after the two research calls. */
  lemma OutcomeOfArticle(reading: PromptReading, topic: Option<string>, a: GenerationAnswers)
    requires !TopicRejected(topic) && a.text.Ok?
    ensures GenerateOutcome(reading, topic, a) ==
      After([SearchCall(topic.value), GenerateTextCall(topic.value, ResearchFromWeb(SearchWeb(a.search)))],
            Illustrate(reading, a.text.value, a))
  {
  }

  /** An insert that fails after the upload leaves the uploaded image behind. */
  lemma FailedInsertLeavesImage(reading: PromptReading, topic: Option<string>, a: GenerationAnswers)
    requires !TopicRejected(topic) && a.text.Ok? && a.uploadFault.None? && a.insertFault.Some?
    requires GenerateHeaderImage(a.image, a.download).Ok?
    ensures GenerateOutcome(reading, topic, a).reply.status == 500
    ensures GenerateOutcome(reading, topic, a).uploaded.Some? && GenerateOutcome(reading, topic, a).inserted.None?
  {
    OutcomeOfArticle(reading, topic, a);
    var g := a.text.value;
    var bytes := GenerateHeaderImage(a.image, a.download).value;
    assert Illustrate(reading, g, a) == After([GenerateImageCall(ImagePromptBy(reading, g))], Save(g, bytes, a));
    SaveSteps(g, bytes, a);
  }

  /** With the corrected prompt, the image is drawn from the `headerImagePrompt`
      of the reply when it has one. */
  lemma GenerationDrawsRequestedPrompt(topic: Option<string>, a: GenerationAnswers, prompt: string)
    requires !TopicRejected(topic) && a.text.Ok? && a.text.value.headerImagePrompt == Some(prompt) && prompt != ""
    ensures |GenerateOutcome(Corrected, topic, a).calls| >= 3
    ensures GenerateOutcome(Corrected, topic, a).calls[2] == GenerateImageCall(prompt)
  {
    OutcomeOfArticle(Corrected, topic, a);
    IllustrateSteps(Corrected, a.text.value, a);
  }

  /** The handler as written draws the title for a reply in exactly the requested
      shape, whatever `headerImagePrompt` it carries. */
  lemma HandlerDrawsTitle(topic: Option<string>, a: GenerationAnswers, prompt: string)
    requires !TopicRejected(topic) && a.text.Ok? && a.text.value.snakeCaseImagePrompt.None?
    requires a.text.value.headerImagePrompt == Some(prompt) && prompt != ""
    ensures |GenerateOutcome(AsWritten, topic, a).calls| >= 3
    ensures GenerateOutcome(AsWritten, topic, a).calls[2] == GenerateImageCall(a.text.value.title)
    ensures a.text.value.title != prompt ==>
      GenerateOutcome(AsWritten, topic, a).calls[2] != GenerateOutcome(Corrected, topic, a).calls[2]
  {
    OutcomeOfArticle(AsWritten, topic, a);
    IllustrateSteps(AsWritten, a.text.value, a);
    GenerationDrawsRequestedPrompt(topic, a, prompt);
  }

  /** What `deleteArticle` asks storage to remove for a row: only a truthy
      `image_url` is looked at. */
  function ImageRemoval(row: Row): (p: Option<string>)
    ensures p.Some? ==> "image_url" in row && row["image_url"].JStr?
  {
    if Truthy(Field(row, "image_url")) then ImageRemovalTarget(row["image_url"]) else None
  }

  /** A row `generateArticle` adds is the one its upload-and-insert stage stores. */
  lemma InsertedBySave(reading: PromptReading, topic: Option<string>, a: GenerationAnswers)
    requires GenerateOutcome(reading, topic, a).inserted.Some?
    ensures !TopicRejected(topic) && a.text.Ok? && GenerateHeaderImage(a.image, a.download).Ok?
    ensures GenerateOutcome(reading, topic, a).inserted ==
      Save(a.text.value, GenerateHeaderImage(a.image, a.download).value, a).inserted
  {
    GenerationStatuses(reading, topic, a);
    GenerationSteps(reading, topic, a);
    OutcomeOfArticle(reading, topic, a);
    var g := a.text.value;
    IllustrateSteps(reading, g, a);
    var image := GenerateHeaderImage(a.image, a.download);
    assert image.Ok?;
    assert Illustrate(reading, g, a) == After([GenerateImageCall(ImagePromptBy(reading, g))], Save(g, image.value, a));
  }

  /** The row the insert stage stores has no `image_url` key. */
  lemma SavedRowHasNoImageUrl(g: GeneratedArticle, bytes: Bytes, a: GenerationAnswers)
    requires Save(g, bytes, a).inserted.Some?
    ensures ImageRemoval(Save(g, bytes, a).inserted.value).None?
  {
    SaveSteps(g, bytes, a);
    var url := PublicUrl(a.publicBase, UploadPath(a.uuid, ImageFileName(g.title)));
    AuthorAlwaysDefault(g, Some(url));
    assert "image_url" !in StoredRow(NewArticleRow(g, Some(url)), a.newId, a.now);
  }

  /** The row `generateArticle` stores keeps its URL under `imageUrl`, a key
      `deleteArticle` never reads, so deleting it removes no image. */
  lemma GeneratedRowImageNotRemoved(reading: PromptReading, topic: Option<string>, a: GenerationAnswers)
    requires GenerateOutcome(reading, topic, a).inserted.Some?
    ensures ImageRemoval(GenerateOutcome(reading, topic, a).inserted.value).None?
  {
    InsertedBySave(reading, topic, a);
    SavedRowHasNoImageUrl(a.text.value, GenerateHeaderImage(a.image, a.download).value, a);
  }

  /** An `image_url` holding a public URL of an upload is removed from the bucket. */
  lemma StoredUploadRemoved(row: Row, publicBase: string, uuid: string, fileName: string)
    requires Bucket !in Split(publicBase, '/')
    requires Field(row, "image_url") == Some(JStr(PublicUrl(publicBase, UploadPath(uuid, fileName))))
    ensures ImageRemoval(row) == Some(UploadPath(uuid, fileName))
  {
    DeleteTargetsUpload(publicBase, uuid, fileName);
  }

  /** A download of an exported article, or a JSON answer. */
  datatype ExportReply =
    | ZipDownload(fileName: string, contentType: string, disposition: string, body: Bytes)
    | JsonReply(reply: Reply<Row>)

  /** `article-${article.id}-export.zip`. */
  function ExportFileName(row: Row): string {
    "article-" + TemplateText(Field(row, "id")) + "-export.zip"
  }

  lemma ExportFileNameOfId(row: Row, id: string)
    requires Field(row, "id") == Some(JStr(id))
    ensures ExportFileName(row) == "article-" + id + "-export.zip"
  {
  }

  /** The message of the `.single()` error for a missing row. */
  const NoRowMessage: string := "JSON object requested, multiple (or no) rows returned"

  /** `this.supabaseService.getArticleById(id)`: the row, `None` for a missing
      one, or the failure it throws. */
  function LookupAnswer(rows: map<string, Row>, id: string, fault: Option<PgError>): (r: Result<Option<Row>, string>)
    ensures fault.None? ==> r == Ok(if id in rows then Some(rows[id]) else None)
    ensures fault.Some? && fault.value.code != NotFoundCode ==>
      r == Err(FailureMessage("fetch article", fault.value.message))
    ensures fault.Some? && fault.value.code == NotFoundCode ==> r == Ok(None)
  {
    ArticleFromSingle(
      if fault.Some? then Err(fault.value)
      else if id in rows then Ok(rows[id])
      else Err(PgError(NotFoundCode, NoRowMessage)))
  }

  /** The reply of a handler whose lookup did not find a row, or failed. */
  function MissReply(lookup: Result<Option<Row>, string>): Reply<Row>
    requires !(lookup.Ok? && lookup.value.Some?)
  {
    if lookup.Err? then Failure(500, lookup.error) else Failure(404, ArticleNotFound)
  }

  /** `getArticles`: the rows as the database orders them, or status 500. */
  function GetArticlesReply(answer: Result<seq<Row>, PgError>): (reply: Reply<seq<Row>>)
    ensures answer.Ok? ==>
      reply.status == 200 && reply.body.data == Some(answer.value)
      && reply.body.message == Some("Found " + NatToString(|answer.value|) + " articles")
    ensures answer.Err? ==> reply == Failure(500, FailureMessage("fetch articles", answer.error.message))
    ensures StatusAgrees(reply)
  {
    match answer
    case Ok(list) => Reply(200, ApiResponse(true, Some(list), None, Some("Found " + NatToString(|list|) + " articles")))
    case Err(e) => Failure(500, FailureMessage("fetch articles", e.message))
  }

  class ArticlesApi {
    /** The `articles` table, by id. */
    var rows: map<string, Row>
    /** The object paths in the image bucket. */
    var images: set<string>
    /** The outward calls made so far, in order. */
    var calls: seq<Call>

    constructor(table: map<string, Row>, bucket: set<string>)
      ensures rows == table && images == bucket && calls == []
    {
      rows := table;
      images := bucket;
      calls := [];
    }

    /** The lookup every handler starts with, against the current table. */
    function Lookup(id: string, fault: Option<PgError>): Result<Option<Row>, string>
      reads this
    {
      LookupAnswer(rows, id, fault)
    }

    /** `GET /api/articles/:id`. */
    method GetArticleById(id: string, fault: Option<PgError>) returns (reply: Reply<Row>)
      ensures fault.None? && id !in rows ==> reply == Failure(404, ArticleNotFound)
      ensures fault.None? && id in rows ==> reply == Reply(200, ApiResponse(true, Some(rows[id]), None, None))
      ensures fault.Some? && fault.value.code != NotFoundCode ==>
        reply == Failure(500, FailureMessage("fetch article", fault.value.message))
      ensures fault.Some? && fault.value.code == NotFoundCode ==> reply == Failure(404, ArticleNotFound)
      ensures StatusAgrees(reply)
    {
      var lookup := LookupAnswer(rows, id, fault);
      if lookup.Err? {
        reply := Failure(500, lookup.error);
      } else if lookup.value.None? {
        reply := Failure(404, ArticleNotFound);
      } else {
        reply := Reply(200, ApiResponse(true, Some(lookup.value.value), None, None));
      }
    }

    /** `POST /api/articles/generate`, drawing the image with the handler's
        prompt as written: `header_image_prompt`, or else the title. */
    method GenerateArticle(topic: Option<string>, a: GenerationAnswers) returns (reply: Reply<Row>)
      modifies this
      ensures StatusAgrees(reply)
      ensures var e := GenerateOutcome(AsWritten, topic, a);
        && reply == e.reply && calls == old(calls) + e.calls
        && images == old(images) + (if e.uploaded.Some? then {e.uploaded.value} else {})
        && rows == (if e.inserted.Some? then old(rows)[a.newId := e.inserted.value] else old(rows))
    {
      if TopicRejected(topic) {
        reply := Failure(400, TopicRequired);
        return;
      }
      reply := ResearchAndWrite(topic.value, a);
    }

    /** Steps 1 to 5 of `generateArticle`, once the topic is accepted. */
    method ResearchAndWrite(t: string, a: GenerationAnswers) returns (reply: Reply<Row>)
      modifies this
      ensures StatusAgrees(reply)
      ensures var e := Research(AsWritten, t, a);
        && reply == e.reply && calls == old(calls) + e.calls
        && images == old(images) + (if e.uploaded.Some? then {e.uploaded.value} else {})
        && rows == (if e.inserted.Some? then old(rows)[a.newId := e.inserted.value] else old(rows))
    {
      var searched := [SearchCall(t), GenerateTextCall(t, ResearchFromWeb(SearchWeb(a.search)))];
      calls := calls + searched;
      var generated := MarkdownOpenaiService.GenerateArticle(a.text);
      if generated.Err? {
        reply := Failure(500, ErrorMessage(generated.error, GenerationFallback));
        return;
      }
      ghost var mid := calls;
      reply := IllustrateAndSave(generated.value, a);
      assert calls == mid + Illustrate(AsWritten, generated.value, a).calls;
      assert calls == old(calls) + (searched + Illustrate(AsWritten, generated.value, a).calls);
      assert Research(AsWritten, t, a) == After(searched, Illustrate(AsWritten, generated.value, a));
    }

    /** Steps 3 to 5 of `generateArticle`; the image is drawn with the prompt
        as written. */
    method IllustrateAndSave(g: GeneratedArticle, a: GenerationAnswers) returns (reply: Reply<Row>)
      modifies this
      ensures StatusAgrees(reply)
      ensures var e := Illustrate(AsWritten, g, a);
        && reply == e.reply && calls == old(calls) + e.calls
        && images == old(images) + (if e.uploaded.Some? then {e.uploaded.value} else {})
        && rows == (if e.inserted.Some? then old(rows)[a.newId := e.inserted.value] else old(rows))
    {
      calls := calls + [GenerateImageCall(ImagePromptAsWritten(g))];
      var image := GenerateHeaderImage(a.image, a.download);
      if image.Err? {
        reply := Failure(500, ErrorMessage(image.error, GenerationFallback));
        return;
      }
      reply := UploadAndInsert(g, image.value, a);
    }

    /** Steps 4 and 5 of `generateArticle`. */
    method UploadAndInsert(g: GeneratedArticle, bytes: Bytes, a: GenerationAnswers) returns (reply: Reply<Row>)
      modifies this
      ensures StatusAgrees(reply)
      ensures var e := Save(g, bytes, a);
        && reply == e.reply && calls == old(calls) + e.calls
        && images == old(images) + (if e.uploaded.Some? then {e.uploaded.value} else {})
        && rows == (if e.inserted.Some? then old(rows)[a.newId := e.inserted.value] else old(rows))
    {
      var path := UploadPath(a.uuid, ImageFileName(g.title));
      calls := calls + [UploadCall(path, bytes)];
      if a.uploadFault.Some? {
        reply := Failure(500, FailureMessage("upload image", a.uploadFault.value));
        return;
      }
      images := images + {path};
      var row := NewArticleRow(g, Some(PublicUrl(a.publicBase, path)));
      calls := calls + [InsertCall(row)];
      if a.insertFault.Some? {
        reply := Failure(500, FailureMessage("create article", a.insertFault.value.message));
        return;
      }
      var stored := StoredRow(row, a.newId, a.now);
      rows := rows[a.newId := stored];
      reply := Reply(201, ApiResponse(true, Some(stored), None, Some(GenerationSaved)));
    }

    /** `PUT /api/articles/:id`. */
    method UpdateArticle(id: string, updates: Row, now: string, lookupFault: Option<PgError>, updateFault: Option<PgError>)
      returns (reply: Reply<Row>)
      modifies this
      ensures StatusAgrees(reply)
      ensures var lookup := old(Lookup(id, lookupFault));
        !(lookup.Ok? && lookup.value.Some?) ==>
          reply == MissReply(lookup) && rows == old(rows) && images == old(images) && calls == old(calls)
      ensures var lookup := old(Lookup(id, lookupFault));
        lookup.Ok? && lookup.value.Some? ==>
          var data := UpdateData(updates, now);
          calls == old(calls) + [UpdateCall(id, data)] && images == old(images)
          && (updateFault.Some? ==>
                rows == old(rows) && reply == Failure(500, FailureMessage("update article", updateFault.value.message)))
          && (updateFault.None? ==>
                rows == old(rows)[id := lookup.value.value + data]
                && reply == Reply(200, ApiResponse(true, Some(rows[id]), None, Some("Article updated successfully"))))
    {
      var lookup := LookupAnswer(rows, id, lookupFault);
      if !(lookup.Ok? && lookup.value.Some?) {
        reply := MissReply(lookup);
        return;
      }
      var data := UpdateData(updates, now);
      calls := calls + [UpdateCall(id, data)];
      if updateFault.Some? {
        reply := Failure(500, FailureMessage("update article", updateFault.value.message));
        return;
      }
      var updated := lookup.value.value + data;
      rows := rows[id := updated];
      reply := Reply(200, ApiResponse(true, Some(updated), None, Some("Article updated successfully")));
    }

    /** `DELETE /api/articles/:id`: the stored image goes first, then the row. */
    method DeleteArticle(id: string, lookupFault: Option<PgError>, removeError: Option<string>, deleteFault: Option<PgError>)
      returns (reply: Reply<Row>)
      modifies this
      ensures StatusAgrees(reply)
      ensures var lookup := old(Lookup(id, lookupFault));
        !(lookup.Ok? && lookup.value.Some?) ==>
          reply == MissReply(lookup) && rows == old(rows) && images == old(images) && calls == old(calls)
      ensures var lookup := old(Lookup(id, lookupFault));
        lookup.Ok? && lookup.value.Some? ==>
          var removal := ImageRemoval(lookup.value.value);
          calls == old(calls) + (if removal.Some? then [RemoveImageCall(removal.value)] else []) + [DeleteRowCall(id)]
          && images == (if removal.Some? && removeError.None? then old(images) - {removal.value} else old(images))
          && (deleteFault.Some? ==>
                rows == old(rows) && reply == Failure(500, FailureMessage("delete article", deleteFault.value.message)))
          && (deleteFault.None? ==>
                rows == old(rows) - {id}
                && reply == Reply(200, ApiResponse(true, None, None, Some("Article deleted successfully"))))
    {
      var lookup := LookupAnswer(rows, id, lookupFault);
      if !(lookup.Ok? && lookup.value.Some?) {
        reply := MissReply(lookup);
        return;
      }
      var removal := ImageRemoval(lookup.value.value);
      if removal.Some? {
        calls := calls + [RemoveImageCall(removal.value)];
        if removeError.None? {
          images := images - {removal.value};
        }
      }
      calls := calls + [DeleteRowCall(id)];
      if deleteFault.Some? {
        reply := Failure(500, FailureMessage("delete article", deleteFault.value.message));
        return;
      }
      rows := rows - {id};
      reply := Reply(200, ApiResponse(true, None, None, Some("Article deleted successfully")));
    }

    /** `POST /api/articles/:id/export`; `exported` is the export service's answer. */
    method ExportToWeb(id: string, lookupFault: Option<PgError>, exported: Result<Bytes, Thrown>)
      returns (reply: ExportReply)
      modifies this
      ensures reply.JsonReply? ==> StatusAgrees(reply.reply)
      ensures reply.ZipDownload? ==> reply.disposition == "attachment; filename=\"" + reply.fileName + "\""
      ensures rows == old(rows) && images == old(images)
      ensures var lookup := old(Lookup(id, lookupFault));
        !(lookup.Ok? && lookup.value.Some?) ==> reply == JsonReply(MissReply(lookup)) && calls == old(calls)
      ensures var lookup := old(Lookup(id, lookupFault));
        lookup.Ok? && lookup.value.Some? ==>
          calls == old(calls) + [ExportCall(id)]
          && (exported.Err? ==> reply == JsonReply(Failure(500, ErrorMessage(exported.error, "Export failed"))))
          && (exported.Ok? ==>
                reply.ZipDownload? && reply.body == exported.value
                && reply.fileName == ExportFileName(lookup.value.value) && reply.contentType == "application/zip")
    {
      var lookup := LookupAnswer(rows, id, lookupFault);
      if !(lookup.Ok? && lookup.value.Some?) {
        reply := JsonReply(MissReply(lookup));
        return;
      }
      calls := calls + [ExportCall(id)];
      if exported.Err? {
        reply := JsonReply(Failure(500, ErrorMessage(exported.error, "Export failed")));
        return;
      }
      var fileName := ExportFileName(lookup.value.value);
      reply := ZipDownload(fileName, "application/zip", "attachment; filename=\"" + fileName + "\"", exported.value);
    }
  }
}
