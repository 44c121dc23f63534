# TOTS blog creator, modelled in Dafny

TOTS blog creator writes blog articles with a language model. It has three parts:

- **Backend** (Express). It exposes `/api/articles`. A `POST /generate` request takes a topic through five steps:
  - a web search (Tavily);
  - article generation by the model;
  - a header image drawn by the model;
  - an upload of that image to the Supabase `article-images` bucket;
  - an insert into the `articles` table.

  `GET`, `PUT` and `DELETE` on `/:id` read, update and delete a row. `POST /:id/export` packs an article for the web. The server adds a CORS origin check, a 404 catch-all and a global error handler.
- **Command-line pipeline**. It collects articles from RSS feeds and has the model choose the best one. It then researches that choice with Tavily and writes a new article from it.
- **Angular frontend**. It has three components:
  - a list with per-segment counts, colours and labels;
  - a generator form;
  - an editor with auto-save, tags, sources and deletion.

The Dafny project mirrors that structure, one module per source file:

- `ArticlesController` is the backend handlers. Its class `ArticlesApi` holds the stored rows, the bucket's objects and the trace of outward calls. Each handler is a method. The generation request is specified by the functions `GenerateOutcome`, `Research`, `Illustrate` and `Save`.
- `SupabaseService`, `MarkdownOpenaiService` and `Server` cover the other backend files.
- `RssService` and `OpenaiService` are the pipeline.
- `ArticleListComponent`, `ArticleGeneratorComponent` and `ArticleEditorComponent` are the three components. Each is a class whose fields are the component's signals.
- `JsonFence` models `cleanJsonResponse`. It is defined once because both services carry the same three lines.
- `Text` holds the JavaScript string operations the code relies on, each modelled with JavaScript's own rules: `trim` (with the ECMA-262 white-space set), `split`/`join`, `indexOf`, `replace` with a string pattern, `findIndex`, `||` on strings, and `${n}`.

Answers from the outside world are parameters of the operations that receive them:

- the model and the search;
- `JSON.parse`;
- the database and storage;
- `fetch`;
- `confirm`/`prompt`;
- the HTTP replies the frontend gets;
- the clock and `uuid`.

Rows are maps from keys to JSON values, so the model can tell which keys an insert writes and which keys a handler reads.

## Model

| member | source | states |
|---|---|---|
| Text.Trim | backend/src/controllers/articlesController.ts:76 | `trim` leaves no white space at either end and never lengthens the string |
| Text.TrimEmptyIffAllSpace | backend/src/controllers/articlesController.ts:76 | `s.trim() === ''` holds exactly when every character of `s` is white space, in both directions |
| Text.TrimIdempotent | frontend/src/app/components/article-generator/article-generator.ts:58-60 | trimming a trimmed topic again changes nothing, so the server's trim of the topic the form already trimmed is harmless |
| Text.TrimOfTrimmed | src/services/openaiService.ts:22 | a string without white space at either end is its own trim |
| Text.TrimPadded | src/services/openaiService.ts:22 | white space added before and after a string does not survive `trim` |
| Text.TrimSpaceSuffix | src/services/openaiService.ts:22 | white space appended to a string does not survive `trim` |
| Text.TrimStart | src/services/openaiService.ts:20 | the result of `trimStart` is no longer than the input and does not begin with white space |
| Text.TrimStartDropsSpace | src/services/openaiService.ts:20 | everything `trimStart` removes is white space |
| Text.TrimEnd | src/services/openaiService.ts:20 | the result of `trimEnd` is no longer than the input and does not end with white space |
| Text.TrimEndDropsSpace | src/services/openaiService.ts:20 | everything `trimEnd` removes is white space |
| Text.Split | backend/src/services/supabaseService.ts:143 | `split` on one character gives at least one piece, and no piece holds the separator |
| Text.JoinSplit | backend/src/services/supabaseService.ts:143-147 | joining the pieces of a split with the same separator gives the string back |
| Text.SplitJoin | backend/src/services/supabaseService.ts:143-147 | splitting a join of separator-free pieces gives the pieces back |
| Text.SplitFree | backend/src/services/supabaseService.ts:143 | a string without the separator splits into itself alone |
| Text.FindIndex | backend/src/services/supabaseService.ts:144-145 | `findIndex` is -1 (None) exactly when the element is absent; otherwise it is the first index holding it |
| Text.IndexOf | src/services/rssService.ts:80-81 | `indexOf`/`includes` find the first position where the pattern occurs, and none when it occurs nowhere |
| Text.ReplaceLeadingOccurrence | src/services/rssService.ts:86 | `replace('www.', '')` on a string that starts with the pattern removes exactly that prefix |
| Text.NatToString | backend/src/controllers/articlesController.ts:23 | `${n}` is a non-empty string of decimal digits without a leading zero |
| Text.NatToStringValue | backend/src/controllers/articlesController.ts:23 | reading the decimal text of `n` back gives `n` (round trip) |
| JsonFence.RemoveOpeningFences | backend/src/services/markdownOpenaiService.ts:17 | the global replace of "```json" and the white space after it never lengthens the text |
| JsonFence.CleanJsonResponse | backend/src/services/markdownOpenaiService.ts:16-20 | the cleaned reply is trimmed and no longer than the original |
| JsonFence.ClosingFenceMatch | backend/src/services/markdownOpenaiService.ts:17 | wherever `/```\s*$/` matches, the text is cut exactly at that fence |
| JsonFence.ClosingFenceNoMatch | backend/src/services/markdownOpenaiService.ts:17 | where `/```\s*$/` cannot match, the text is left unchanged |
| JsonFence.OpeningFencesPlain | backend/src/services/markdownOpenaiService.ts:17 | text without backticks passes the opening-fence replace unchanged |
| JsonFence.CleanWithoutBackticks | src/services/openaiService.ts:18-24 | on a reply without backticks, cleaning is exactly `trim` |
| JsonFence.CleanFencedReply | src/services/openaiService.ts:18-24 | "```json" + white space + X + "```" + white space, with X free of backticks, cleans to X trimmed |
| JsonFence.OpeningFenceDropsSpace | src/services/openaiService.ts:20 | the opening fence goes together with all white space up to the payload's first character |
| OpenaiService.CategoriesLine | src/services/openaiService.ts:61 | the categories line of the prompt is never empty; with no categories it is "N/A" |
| OpenaiService.CategoriesLineJoins | src/services/openaiService.ts:61 | categories whose first entry is not empty appear joined by ", " |
| OpenaiService.ReplyOrInput | src/services/openaiService.ts:80 | the clarified prompt is the model's text when it is non-empty, and the prompt given otherwise |
| OpenaiService.ReplyOrInputNonEmpty | src/services/openaiService.ts:114 | for a non-empty prompt the returned text is never empty, and it is either the prompt or the model's own text |
| OpenaiService.CleanPlainTrimmed | src/services/openaiService.ts:169 | a trimmed reply without backticks reaches `JSON.parse` unchanged |
| OpenaiService.SelectionTextCases | src/services/openaiService.ts:166-169 | a missing or empty reply is parsed as "{}"; a reply without backticks is parsed trimmed |
| OpenaiService.SelectBestArticle | src/services/openaiService.ts:166-187 | a selection succeeds exactly when the parsed reply has an index from 1 to the number of articles; it returns article index−1 with the reply's reason and score, and fails with the fixed selection error otherwise |
| OpenaiService.SelectByNumber | src/services/openaiService.ts:173-183 | naming article i+1 selects exactly article i |
| OpenaiService.NoContentNoSelection | src/services/openaiService.ts:166-173 | a reply without an index, or any index into an empty list, ends in the selection error |
| OpenaiService.ExecuteDeepResearch | src/services/openaiService.ts:207-216 | the research exists exactly when the search answered; its query is the search's query or else the navigator query, its time defaults to 0, and it has one source per result |
| OpenaiService.SourcesFollowResults | src/services/openaiService.ts:211-216 | source i copies the title, URL, content and score of search result i |
| OpenaiService.ResearchQueryNonEmpty | src/services/openaiService.ts:92-124 | the research query is never empty when the user's prompt is not |
| OpenaiService.GenerateArticle | src/services/openaiService.ts:271-290 | writing the article succeeds exactly when a reply arrives and `JSON.parse` accepts its text, or "{}" when the text is missing or empty; the value returned is what that parse gives, and every failure, the missing reply included, becomes the one fixed error |
| OpenaiService.FencedArticleReplyKept | src/services/openaiService.ts:279-280 | a fenced reply that the selection step cleans is handed to `JSON.parse` with its fence when the article is written |
| OpenaiService.FencedArticleReplyFails | src/services/openaiService.ts:279-285 | a reply opening with a Markdown fence fails with the fixed error whenever `JSON.parse` rejects text starting with a backquote; a missing or empty text is parsed as "{}" |
| RssService.BlankIff | src/services/rssService.ts:71 | the filter test `cat && cat.trim() !== ''` fails exactly on strings of white space |
| RssService.Filter | src/services/rssService.ts:71 | `filter` never lengthens a list |
| RssService.FilterMembers | src/services/rssService.ts:71 | an entry survives `filter` exactly when it was in the list and passes the test |
| RssService.FilterAppend | src/services/rssService.ts:71 | filtering a concatenation filters each part, so order is kept |
| RssService.FilterIdempotent | src/services/rssService.ts:71 | filtering twice with the same test changes nothing |
| RssService.KeepNonBlankMembers | src/services/rssService.ts:71 | a category is kept exactly when it was in the list and holds something besides white space |
| RssService.CategoriesMembers | src/services/rssService.ts:52-72 | a string is an extracted category exactly when it is an entry of `categories` or `category` and is not blank |
| RssService.CategoriesInOrder | src/services/rssService.ts:52-72 | the entries of `categories` come first, then those of `category`, each kept unchanged and in order |
| RssService.ExtractTags | src/services/rssService.ts:74-77 | the tags are exactly the extracted categories |
| RssService.SourceName | src/services/rssService.ts:79-90 | the two known feeds get their names; any other feed is named by its host name with the first "www." taken out, and "Unknown Source" when the URL does not parse |
| RssService.SourceNameOfHost | src/services/rssService.ts:85-86 | an unknown feed on "www.h" is named "h", and a host without "www." keeps its own name |
| RssService.ItemDefaults | src/services/rssService.ts:25-35 | each missing field of an item gets its default: title, description and author are never empty, present values are kept, tags equal categories, and the source is named after the feed |
| RssService.Take | src/services/rssService.ts:46 | `slice(0, n)` gives a prefix of at most n elements, and the whole list when it is short enough |
| RssService.FetchAllArticles | src/services/rssService.ts:16-50 | the loop over the feeds returns the first 20 articles of the feeds' articles concatenated in feed order, a failing feed contributing none |
| RssService.FailingFeedSkipped | src/services/rssService.ts:40-42 | a failing feed contributes nothing, and the feeds after it still contribute theirs |
| RssService.FetchedPrefix | src/services/rssService.ts:46 | the result is a prefix of the collected articles, and it is exactly 20 long whenever at least 20 were collected |
| Server.AllowedOriginsContents | backend/src/server.ts:19-23 | the local and production frontends are always allowed, and the first entry is `FRONTEND_URL`, or the local frontend when that is unset |
| Server.CorsCheck | backend/src/server.ts:25-37 | a refusal carries the CORS error message |
| Server.CorsAllowsIff | backend/src/server.ts:26-34 | an origin is allowed exactly when it is missing or empty, or is one of the allowed origins |
| Server.NotFound | backend/src/server.ts:59-65 | unknown routes answer 404 with success false and "Route not found" |
| Server.GlobalError | backend/src/server.ts:68-75 | uncaught errors answer 500; the message is hidden only when `NODE_ENV` is "production" |
| Server.RefusedOriginAnswer | backend/src/server.ts:30-34 | a refused origin is a present origin outside the list, and it reaches the error handler as a 500 |
| SupabaseService.ImageStoragePath | backend/src/services/supabaseService.ts:143-147 | a storage path exists exactly when some URL segment is the bucket name; it is the segments after the first such one, joined with '/' |
| SupabaseService.DeleteImageResult | backend/src/services/supabaseService.ts:140-162 | `deleteImage` resolves to true exactly when a path was found and storage reported no error; it never throws |
| SupabaseService.StoragePathOfBucketUrl | backend/src/services/supabaseService.ts:143-147 | a URL made of a bucket-free prefix, the bucket and a path yields exactly that path |
| SupabaseService.DeleteTargetsUpload | backend/src/services/supabaseService.ts:117-147 | the public URL of an upload leads `deleteImage` back to the uploaded object (round trip) |
| SupabaseService.NoBucketNoRemoval | backend/src/services/supabaseService.ts:145 | a URL without a bucket segment answers false without asking storage |
| SupabaseService.NewArticleRowFields | backend/src/services/supabaseService.ts:23-34 | the inserted record copies the generated article's fields and the image URL, always names the default author, and has no other keys |
| SupabaseService.AuthorAlwaysDefault | backend/src/services/supabaseService.ts:31 | the author is always "TOTS Team", and no `image_url` key is written |
| SupabaseService.UpdateData | backend/src/services/supabaseService.ts:83-86 | the update sends every supplied key unchanged, plus `updated_at` set to now |
| SupabaseService.UpdatedAtOverwritten | backend/src/services/supabaseService.ts:83-86 | a caller-supplied `updated_at` never survives |
| SupabaseService.ArticleFromSingle | backend/src/services/supabaseService.ts:64-80 | a found row is returned, "no row" (PGRST116) becomes null, and any other error becomes a failure naming the fetch |
| MarkdownOpenaiService.GenerateArticle | backend/src/services/markdownOpenaiService.ts:183-193 | the parsed reply is returned unchanged; any failure becomes an Error whose message has the "Failed to generate article: " prefix |
| MarkdownOpenaiService.GenerateHeaderImage | backend/src/services/markdownOpenaiService.ts:197-237 | an image comes back exactly when the API gives a first entry with a URL and the download succeeds; every failure is an Error with the critical-image prefix |
| MarkdownOpenaiService.NoImageMessage | backend/src/services/markdownOpenaiService.ts:212-214 | an empty image list ends in the critical-image message naming "No se generó ninguna imagen" |
| ArticlesController.TopicRejectedIff | backend/src/controllers/articlesController.ts:76-82 | a topic is refused exactly when it is missing or holds only white space |
| ArticlesController.Slug | backend/src/controllers/articlesController.ts:110 | the slug has one character per title character: an ASCII letter or digit lower-cased, anything else '-' |
| ArticlesController.SlugIdempotent | backend/src/controllers/articlesController.ts:110 | a slug is its own slug |
| ArticlesController.ImageFileName | backend/src/controllers/articlesController.ts:110 | the image file name is the title's slug followed by ".jpg" |
| ArticlesController.ResearchLines | backend/src/controllers/articlesController.ts:92 | one research line per web result, "title: content", in order |
| ArticlesController.Urls | backend/src/controllers/articlesController.ts:93 | the sources are the results' URLs, in order |
| ArticlesController.ResearchFromWeb | backend/src/controllers/articlesController.ts:91-94 | the research content is the result lines joined by a blank line |
| ArticlesController.ResearchContentShape | backend/src/controllers/articlesController.ts:91-94 | no results give empty content; one result gives its line alone; more give the first line, a blank line, then the rest |
| ArticlesController.RequestedImagePromptIgnored | backend/src/controllers/articlesController.ts:102-104 | a reply with the requested `headerImagePrompt` and no `header_image_prompt` has the title as its prompt as written, and that prompt under the corrected reading (see Findings) |
| ArticlesController.HandlerDrawsTitle | backend/src/controllers/articlesController.ts:102-104 | for such a reply the handler's third call draws the title, which differs from the call the corrected reading makes whenever the title is not the requested prompt (see Findings) |
| ArticlesController.BlankTopicCallsNothing | backend/src/controllers/articlesController.ts:76-82 | a missing or blank topic answers 400 before any service is called |
| ArticlesController.SaveSteps | backend/src/controllers/articlesController.ts:106-125 | the upload-and-insert stage answers 201 exactly when both steps succeed; the image stays in storage whenever the upload succeeded |
| ArticlesController.GenerationStatuses | backend/src/controllers/articlesController.ts:72-135 | a generation request always answers 201, 400 or 500, with `success` true exactly on the 201, and a row is added exactly when it answers 201 |
| ArticlesController.GenerationSteps | backend/src/controllers/articlesController.ts:86-125 | under either prompt reading, a 201 means search, generation, image, upload and insert happened in that order, the image drawn with that reading's prompt (as written, `header_image_prompt` or else the title), with the slug-named upload and the inserted row returned |
| ArticlesController.ResearchSteps | backend/src/controllers/articlesController.ts:86-125 | after validation the search and generation come first, the generator receiving the research from the search; a 201 carries the inserted row and the image drawn with the reading's prompt |
| ArticlesController.IllustrateSteps | backend/src/controllers/articlesController.ts:100-125 | the image stage answers 201 exactly when the image is drawn and saved; its first call draws the reading's prompt (as written, `header_image_prompt` or else the title) |
| ArticlesController.GenerationResearch | backend/src/controllers/articlesController.ts:88-98 | the article generator receives the research built from the web search |
| ArticlesController.FailedSearchNoSources | backend/src/services/markdownOpenaiService.ts:131-134 | a failed search still lets generation go on, with empty research and no sources |
| ArticlesController.OutcomeOfArticle | backend/src/controllers/articlesController.ts:98-104 | once the article is generated, the rest of the request depends only on the image stage |
| ArticlesController.FailedInsertLeavesImage | backend/src/controllers/articlesController.ts:113-135 | an insert that fails after the upload answers 500 and leaves the uploaded image in storage |
| ArticlesController.GenerationDrawsRequestedPrompt | backend/src/controllers/articlesController.ts:102-104 | under the corrected reading, the image is drawn from the reply's `headerImagePrompt` (see Findings) |
| ArticlesController.ImageRemoval | backend/src/controllers/articlesController.ts:203-206 | deletion asks to remove an image only for a row with a string `image_url` |
| ArticlesController.InsertedBySave | backend/src/controllers/articlesController.ts:113-115 | a row added by generation is the one the insert stage stores |
| ArticlesController.SavedRowHasNoImageUrl | backend/src/services/supabaseService.ts:23-34 | the stored row keeps its URL under `imageUrl`, so it has no `image_url` |
| ArticlesController.GeneratedRowImageNotRemoved | backend/src/controllers/articlesController.ts:203-206 | deleting a row that generation stored never removes its image, because deletion reads `image_url` |
| ArticlesController.StoredUploadRemoved | backend/src/controllers/articlesController.ts:203-206 | a row whose `image_url` is an upload's public URL has that upload removed |
| ArticlesController.ExportFileNameOfId | backend/src/controllers/articlesController.ts:277 | the export download is named "article-" + id + "-export.zip" |
| ArticlesController.LookupAnswer | backend/src/services/supabaseService.ts:64-80 | without a fault the lookup gives the stored row, or null for a missing id; a PGRST116 fault also gives null; other faults give the fetch failure |
| ArticlesController.GetArticlesReply | backend/src/controllers/articlesController.ts:16-36 | listing answers 200 with success, the rows and "Found n articles", or 500 with the fetch failure |
| ArticlesController.ArticlesApi.constructor | backend/src/controllers/articlesController.ts:10-13 | the API starts over the given table and bucket with no calls made |
| ArticlesController.ArticlesApi.GetArticleById | backend/src/controllers/articlesController.ts:40-69 | a missing id, or a lookup fault with code PGRST116, answers 404; a stored id 200 with its row; any other failing lookup 500; `success` is true exactly on the 200 |
| ArticlesController.ArticlesApi.GenerateArticle | backend/src/controllers/articlesController.ts:72-135 | the reply, the calls, the bucket and the table change exactly as the generation outcome as written says, the image drawn with `header_image_prompt` or else the title; `success` is true exactly on a 2xx answer |
| ArticlesController.ArticlesApi.ResearchAndWrite | backend/src/controllers/articlesController.ts:86-125 | steps 1 to 5 change the state as the research stage as written says; `success` is true exactly on a 2xx answer |
| ArticlesController.ArticlesApi.IllustrateAndSave | backend/src/controllers/articlesController.ts:100-125 | steps 3 to 5 change the state as the image stage as written says: the prompt drawn is `header_image_prompt` or else the title; `success` is true exactly on a 2xx answer |
| ArticlesController.ArticlesApi.UploadAndInsert | backend/src/controllers/articlesController.ts:106-125 | steps 4 and 5 change the state as the save stage says; `success` is true exactly on a 2xx answer |
| ArticlesController.ArticlesApi.UpdateArticle | backend/src/controllers/articlesController.ts:139-186 | a missing row answers 404 and changes nothing; otherwise the merged update is stored and returned, or the failure answers 500 with the table unchanged; `success` is true exactly on a 2xx answer |
| ArticlesController.ArticlesApi.DeleteArticle | backend/src/controllers/articlesController.ts:189-227 | a missing row answers 404 and changes nothing; otherwise the image is removed first, then the row, and a failing row delete leaves the table unchanged; `success` is true exactly on a 2xx answer |
| ArticlesController.ArticlesApi.ExportToWeb | backend/src/controllers/articlesController.ts:256-295 | a missing row answers 404 without exporting; otherwise a zip named after the id is returned with `Content-Disposition: attachment; filename="<name>"`, or a 500 carrying the thrown Error's message ("Export failed" for a thrown value that is not an Error); nothing stored changes |
| FrontendModels.StatusNameRoundTrip | frontend/src/app/models/interfaces.ts:3 | every status is read back from its name, and only its name parses to it |
| FrontendModels.SegmentNameRoundTrip | frontend/src/app/models/interfaces.ts:11 | every segment is read back from its name, and only its name parses to it |
| FrontendModels.SegmentNames | frontend/src/app/components/article-list/article-list.ts:23 | the list holds the four segment names in order |
| FrontendModels.SegmentNamesDistinct | frontend/src/app/components/article-list/article-list.ts:23 | the four names are distinct and every segment is listed |
| ArticleListComponent.SegmentCount | frontend/src/app/components/article-list/article-list.ts:30 | a segment's count never exceeds the number of articles |
| ArticleListComponent.CountsFor | frontend/src/app/components/article-list/article-list.ts:29-32 | the reduce gives one entry per segment name, holding that segment's count |
| ArticleListComponent.ArticleStats | frontend/src/app/components/article-list/article-list.ts:25-34 | the total is the number of articles |
| ArticleListComponent.ArticleStatsCounts | frontend/src/app/components/article-list/article-list.ts:25-34 | every segment has an entry holding its count, and there are no other entries |
| ArticleListComponent.CountsPartition | frontend/src/app/components/article-list/article-list.ts:25-34 | with distinct names, the per-name counts plus the articles outside them account for every article exactly once |
| ArticleListComponent.SegmentCountsWithinTotal | frontend/src/app/components/article-list/article-list.ts:25-34 | the four counts add up to at most the total, and to exactly the total when every article has a known segment |
| ArticleListComponent.SegmentColor | frontend/src/app/components/article-list/article-list.ts:109-117 | an unknown segment gets the grey fallback colour |
| ArticleListComponent.SegmentColorsDistinct | frontend/src/app/components/article-list/article-list.ts:109-117 | each segment has its own colour, and none is the fallback |
| ArticleListComponent.StatusLookups | frontend/src/app/components/article-list/article-list.ts:119-153 | a status's own name gets that status's colour and label |
| ArticleListComponent.StatusLabelsDistinct | frontend/src/app/components/article-list/article-list.ts:137-153 | different statuses get different labels |
| ArticleListComponent.LabelDecode | frontend/src/app/components/article-list/article-list.ts:137-153 | each label gives its status back |
| ArticleListComponent.UnknownStatusIsDraft | frontend/src/app/components/article-list/article-list.ts:119-153 | any unrecognised status string is shown with the draft colour and label |
| ArticleListComponent.RemoveById | frontend/src/app/components/article-list/article-list.ts:86 | no article with the deleted id remains |
| ArticleListComponent.RemoveByIdMembers | frontend/src/app/components/article-list/article-list.ts:86 | exactly the articles with another id stay |
| ArticleListComponent.RemoveAbsentId | frontend/src/app/components/article-list/article-list.ts:86 | removing an id no article has leaves the list unchanged |
| ArticleListComponent.RemoveByIdAppend | frontend/src/app/components/article-list/article-list.ts:86 | removal distributes over concatenation, so the kept articles keep their order |
| Api.ClientOutcome | frontend/src/app/services/article.service.ts:16-47 | through `HttpClient`, exactly a 2xx answer reaches the `next` callback, with its body; every other status and a lost request reach `error` |
| Api.AgreeingServerFailuresUnanswered | backend/src/controllers/articlesController.ts:30-35 | when a server's `success` agrees with its status, a client never sees an answered failure: every `success: false` arrives through `error` |
| ArticleListComponent.ServerErrorTextUnreached | frontend/src/app/components/article-list/article-list.ts:61-73 | against the backend's answers, the branch showing `response.error` is reached only by a 2xx success without data; every failure the server sends shows the connection message instead |
| ArticleListComponent.ArticleList.constructor | frontend/src/app/components/article-list/article-list.ts:17-19 | the list starts empty, loading, without an error |
| ArticleListComponent.ArticleList.LoadArticles | frontend/src/app/components/article-list/article-list.ts:57-76 | loading ends; delivered articles replace the list; a 2xx answer without data shows its error or "Error cargando artículos"; any non-2xx answer, whatever its body, and a lost request show the connection message; the error is empty exactly when the articles arrived |
| ArticleListComponent.ArticleList.DeleteArticle | frontend/src/app/components/article-list/article-list.ts:78-96 | an article is removed only when the user confirms and a 2xx answer reports success; a 2xx failure alerts with its error, and a non-2xx answer or a lost request with the connection message; otherwise the list is unchanged |
| ArticleGeneratorComponent.RequestForIff | frontend/src/app/components/article-generator/article-generator.ts:47-61 | a request goes out exactly when the topic is not blank, with the topic and author trimmed and the segment as chosen |
| ArticleGeneratorComponent.ArticleGenerator.constructor | frontend/src/app/components/article-generator/article-generator.ts:23-29 | the form starts with an empty topic, segment "IA", author "TOTS Team" and no message |
| ArticleGeneratorComponent.ArticleGenerator.StartGeneration | frontend/src/app/components/article-generator/article-generator.ts:39-61 | a blank topic shows "El tema es requerido" and sends nothing; otherwise generating starts and the trimmed request is sent |
| ArticleGeneratorComponent.ArticleGenerator.FinishGeneration | frontend/src/app/components/article-generator/article-generator.ts:78-101 | a delivered article leads to its editor; an answer without the article leads to /create with its error or the fallback; a request that throws leads to /create with the unexpected-error message; generating always ends |
| ArticleGeneratorComponent.ArticleGenerator.OnTopicChange | frontend/src/app/components/article-generator/article-generator.ts:104-109 | the topic is set and any message is cleared |
| ArticleGeneratorComponent.ArticleGenerator.OnSegmentChange | frontend/src/app/components/article-generator/article-generator.ts:111-113 | only the segment changes |
| ArticleGeneratorComponent.ArticleGenerator.OnAuthorChange | frontend/src/app/components/article-generator/article-generator.ts:115-117 | only the author changes |
| ArticleGeneratorComponent.ArticleGenerator.ResetForm | frontend/src/app/components/article-generator/article-generator.ts:128-134 | the form returns to its initial values |
| ArticleEditorComponent.ApplyChangesOnlyThatField | frontend/src/app/components/article-editor/article-editor.ts:316-331 | an update sets the named field and every other field keeps its value |
| ArticleEditorComponent.ApplyOwnValue | frontend/src/app/components/article-editor/article-editor.ts:316-331 | setting a field to its current value changes nothing |
| ArticleEditorComponent.AddEntryIff | frontend/src/app/components/article-editor/article-editor.ts:333-360 | a tag or source is added exactly when the answer is not blank and its trim is not listed yet; it goes at the end, trimmed |
| ArticleEditorComponent.AddEntryKeepsNoDuplicates | frontend/src/app/components/article-editor/article-editor.ts:333-360 | adding keeps a list free of duplicates, and every added entry is trimmed and non-empty |
| ArticleEditorComponent.AddEntryTwice | frontend/src/app/components/article-editor/article-editor.ts:333-360 | giving the same answer twice adds it once |
| ArticleEditorComponent.Splice1InRange | frontend/src/app/components/article-editor/article-editor.ts:343-369 | an index inside the list removes exactly that element and keeps the rest in order, as a multiset too; an index past the end changes nothing |
| ArticleEditorComponent.Splice1Negative | frontend/src/app/components/article-editor/article-editor.ts:343-369 | a negative index counts from the end, and one before the start removes the first element |
| ArticleEditorComponent.PlaceholderShape | frontend/src/app/components/article-editor/article-editor.ts:178-193 | the temporary article is a draft with the request's segment and author, titled after the topic, with no tags, sources or image |
| ArticleEditorComponent.ArticleEditor.constructor | frontend/src/app/components/article-editor/article-editor.ts:38-42 | the editor starts without an article, loading, not saving, with no message and no unsaved changes |
| ArticleEditorComponent.ArticleEditor.CurrentStatus | frontend/src/app/components/article-editor/article-editor.ts:67-70 | the shown status is the article's when it has one, "draft" otherwise, and never empty |
| ArticleEditorComponent.ArticleEditor.Init | frontend/src/app/components/article-editor/article-editor.ts:72-97 | the "generating" id shows the placeholder; another id is loaded; a missing id shows "ID de artículo no proporcionado" |
| ArticleEditorComponent.ArticleEditor.FinishLoad | frontend/src/app/components/article-editor/article-editor.ts:203-240 | a delivered article replaces the shown one with no unsaved changes; otherwise the message is shown; loading ends |
| ArticleEditorComponent.ArticleEditor.StartSave | frontend/src/app/components/article-editor/article-editor.ts:242-264 | without an article nothing happens; otherwise the editor's text becomes the content, saving starts, and that article is sent |
| ArticleEditorComponent.ArticleEditor.FinishSave | frontend/src/app/components/article-editor/article-editor.ts:266-294 | a saved article replaces the shown one and clears unsaved changes, with a message only for a manual save; failures keep the article and show a message; saving ends |
| ArticleEditorComponent.ArticleEditor.AutoSaveTick | frontend/src/app/components/article-editor/article-editor.ts:91-96 | the timer sends a save exactly when there are unsaved changes, an article, and no save in progress; it then starts the same save as the save button (editor content copied in, saving on, error cleared, the article sent); otherwise nothing changes |
| ArticleEditorComponent.ArticleEditor.UpdateField | frontend/src/app/components/article-editor/article-editor.ts:316-331 | with an article, the field changes and the article is marked unsaved; without one, nothing changes |
| ArticleEditorComponent.ArticleEditor.AddEntryTo | frontend/src/app/components/article-editor/article-editor.ts:333-360 | the tag or source list grows as AddEntry says and is marked unsaved; otherwise nothing changes |
| ArticleEditorComponent.ArticleEditor.RemoveEntryFrom | frontend/src/app/components/article-editor/article-editor.ts:343-369 | the list becomes its splice at the index and is marked unsaved, even when the index removes nothing |
| ArticleEditorComponent.ArticleEditor.GoBack | frontend/src/app/components/article-editor/article-editor.ts:308-314 | the page leaves exactly when there are no unsaved changes or the user confirms |
| ArticleEditorComponent.ArticleEditor.StartDelete | frontend/src/app/components/article-editor/article-editor.ts:371-380 | the article's id is sent exactly when there is an article and the user confirms; saving then starts |
| ArticleEditorComponent.ArticleEditor.FinishDelete | frontend/src/app/components/article-editor/article-editor.ts:381-392 | the page goes to the list exactly when the server reports success; otherwise the message is shown; saving ends |

## Left out

- Prompt texts, model names, logging and the wording the model is asked for are left out. Model replies, `JSON.parse`, Tavily answers, database and storage answers, `fetch`, the clock and `uuid` are parameters.
- The JSON reply of the backend's article generation is taken as parsed into the declared fields (backend/src/services/markdownOpenaiService.ts:183-185). A reply missing `title` would throw at the slug step; that case is not modelled. `cleanJsonResponse` is not applied there, and the model follows the code in that.
- `selectBestArticle` also accepts an index written as a string, such as "2", through JavaScript coercion. The model's index is an integer or absent.
- ArticlesController.TopicRejectedIff: the topic is modelled as an optional string. A request without a body fails the destructuring, and a topic that is not a string (such as `{"topic": 5}`) has no `trim`; both throw at backend/src/controllers/articlesController.ts:74-76 and answer 500 through the catch, which the model does not express.
- The article list's reload when a success notification arrives, and its subscription to `loadingArticles$` (frontend/src/app/components/article-list/article-list.ts:39-54), are left out: both are observable subscriptions.
- ArticlesController.Slug: a character outside the Basic Multilingual Plane is two UTF-16 code units, which the slug's regular expression (no `u` flag) replaces with two '-'; the model replaces the one character with one '-'.
- `getArticleByIdAsync`, `updateArticleAsync`, `deleteArticleAsync` and `generateArticleAsync`, which the editor and the generator await, are not part of this model: frontend/src/app/services/article.service.ts does not define them. Their answer is therefore an `Outcome` parameter, answered or failed, without the status mapping `HttpClient` applies to the list's requests.
- Strings are sequences of Unicode scalar values. JavaScript counts UTF-16 code units, so lengths of strings with characters outside the Basic Multilingual Plane differ.
- A non-string category entry makes `trim` throw, and the whole feed is then skipped. Categories are modelled as strings.
- The feed URL's host name is a parameter, because URL parsing is not modelled. The feed list from src/config.ts:21-25 is a parameter too; the limit of 20 (src/config.ts:27) is modelled.
- A `responseTime` that is present but not a number is not modelled.
- Database defaults, row ordering and the table schema are not modelled. `updateArticle` accepts an `id` key in the update, which could rename a row; the model keeps the row under its id.
- The Supabase public URL is built from a parameter prefix, the bucket and the path.
- JavaScript object lookups for segment colours and status labels also hit `Object.prototype` names such as "constructor". Those names are not modelled.
- ArticleListComponent.StatusLabelsDistinct: the colours of the statuses are not claimed distinct.
- The editor's `exportToWeb` (frontend/src/app/components/article-editor/article-editor.ts:427-498) is left out: a browser download built from the fetched archive.
- `showSuccessMessage` restoring the message after three seconds is left out, as are timers, navigation and the Markdown editor widget. The auto-save timer is modelled as a single tick.
- `testImageGeneration` (backend/src/controllers/articlesController.ts:230-253) is a diagnostic route and is left out.
- `exportArticleToWeb` is not part of this model: it is not in the repository, and no route reaches the export handler. The handler is modelled with the export's answer as a parameter.
- The controller imports its service from backend/src/services/openaiService.ts (backend/src/controllers/articlesController.ts:3), whose class body is made entirely of comments. As written, `this.openaiService.searchWeb` is therefore not a function, and every generation request that passes validation answers 500 at backend/src/controllers/articlesController.ts:88. The model substitutes backend/src/services/markdownOpenaiService.ts, which no file imports but whose methods carry the names the controller calls; that 500 is not modelled.
- `generateHeaderImageArticle` in src/services/openaiService.ts:293-315, `openaiController`, the HTML service and the frontend HTTP services are not part of this model.
- The frontend interface writes keys in snake_case (`meta_title`, `image_url`, `created_at`). The editor's model uses field names, so key spelling only matters in the backend rows, where it is modelled.

## Findings

| source | as written | input that shows it | evidently intended | confidence | as-written member | corrected member |
|---|---|---|---|---|---|---|
| backend/src/controllers/articlesController.ts:102-104 | the image prompt is read from `header_image_prompt`, a key the model is never asked for; the prompt (backend/src/services/markdownOpenaiService.ts:171) and the interface (backend/src/interfaces/interfaces.ts:56) both name `headerImagePrompt` | a reply whose `headerImagePrompt` is "X" and that has no `header_image_prompt` draws an image of the title instead of "X" | draw the reply's `headerImagePrompt`, falling back to the title | not executed | ArticlesController.HandlerDrawsTitle | ArticlesController.GenerationDrawsRequestedPrompt |
