/** The decisions of the command-line pipeline's `OpenAIService`
    (src/services/openaiService.ts) around its model and search calls: the
    categories line of its prompts, the fallbacks when the model gives no text,
    the 1-based choice of the best article, and the assembly of the research
    data. The answers of the model, of `JSON.parse` and of the Tavily search are
    inputs. */
module OpenaiService {
  import opened Wrappers
  import opened Text
  import opened JsonFence
  import opened PipelineTypes

  // ---------------------------------------------------------------------------
  // Prompt lines and fallbacks

  /** `article.categories?.join(', ') || 'N/A'`. */
  function CategoriesLine(categories: Option<seq<string>>): (line: string)
    ensures line != ""
    ensures categories.None? || categories.value == [] ==> line == "N/A"
  {
    if categories.None? then "N/A" else OrElse(Some(Join(categories.value, ", ")), "N/A")
  }

  /** A list whose first entry is not empty joins to a string that starts with it. */
  lemma JoinStartsWithHead(cs: seq<string>, sep: string)
    requires |cs| >= 1
    ensures |Join(cs, sep)| >= |cs[0]| && Join(cs, sep)[..|cs[0]|] == cs[0]
  {
    if |cs| > 1 {
      assert Join(cs, sep) == cs[0] + (sep + Join(cs[1..], sep));
    }
  }

  /** Categories whose first entry is not empty are listed, joined by ", ". */
  lemma CategoriesLineJoins(cs: seq<string>)
    requires |cs| >= 1 && cs[0] != ""
    ensures CategoriesLine(Some(cs)) == Join(cs, ", ")
  {
    JoinStartsWithHead(cs, ", ");
  }

  /** The text `clarifyResearchPrompt` and `generateQuerySearchNavigator` return
      for the prompt `inputText`: the model's text (`reply` is `None` when the call
      throws, `Some(None)` when the first choice has no content), or the prompt
      itself when the call fails or the text is empty. */
  function ReplyOrInput(inputText: string, reply: Option<Option<string>>): (text: string)
    ensures reply.Some? && reply.value.Some? && reply.value.value != "" ==> text == reply.value.value
    ensures reply.None? || reply.value.None? || reply.value.value == "" ==> text == inputText
  {
    if reply.None? then inputText else OrElse(reply.value, inputText)
  }

  /** The text is never empty when the prompt is not, and it is always either the
      model's text or the prompt. */
  lemma ReplyOrInputNonEmpty(inputText: string, reply: Option<Option<string>>)
    requires inputText != ""
    ensures ReplyOrInput(inputText, reply) != ""
    ensures ReplyOrInput(inputText, reply) == inputText || reply == Some(Some(ReplyOrInput(inputText, reply)))
  {
  }

  // ---------------------------------------------------------------------------
  // Choosing the best article

  const SelectionError: string := "Error en la selección de artículo con IA"

  /** The text handed to `JSON.parse`: the model's content, or "{}" when it has
      none, with any Markdown fence removed. */
  function SelectionText(content: Option<string>): string {
    CleanJsonResponse(OrElse(content, "{}"))
  }

  /** Text without backticks and without surrounding white space is left alone. */
  lemma CleanPlainTrimmed(s: string)
    requires '`' !in s && Trimmed(s)
    ensures CleanJsonResponse(s) == s
  {
    CleanWithoutBackticks(s);
    TrimOfTrimmed(s);
  }

  /** A reply without content gives "{}"; one without backticks gives its trimmed text. */
  lemma SelectionTextCases(content: Option<string>)
    ensures content.None? || content.value == "" ==> SelectionText(content) == "{}"
    ensures content.Some? && content.value != "" && '`' !in content.value ==>
      SelectionText(content) == Trim(content.value)
  {
    if content.None? || content.value == "" {
      var braces := "{}";
      assert braces[0] == '{' && braces[1] == '}';
      CleanPlainTrimmed(braces);
    } else if '`' !in content.value {
      CleanWithoutBackticks(content.value);
    }
  }

  /** The fields of the parsed selection reply; `selectedIndex` is `None` when
      the object has no numeric index. */
  datatype SelectionReply = SelectionReply(selectedIndex: Option<int>, selectionReason: string, score: real)

  /** `selectBestArticle(articles)`. `reply` is the parsed reply, or `None` when
      the model call or `JSON.parse` throws. Index `k` names `articles[k - 1]`;
      any other index reads `undefined`, whose `title` then throws, and every
      failure becomes the one selection error. */
  function SelectBestArticle(articles: seq<Article>, reply: Option<SelectionReply>): (r: Result<SelectedArticle, string>)
    ensures r.Ok? <==>
      reply.Some? && reply.value.selectedIndex.Some? && 1 <= reply.value.selectedIndex.value <= |articles|
    ensures r.Ok? ==>
      && r.value.article == articles[reply.value.selectedIndex.value - 1]
      && r.value.selectionReason == reply.value.selectionReason
      && r.value.score == reply.value.score
    ensures r.Err? ==> r.error == SelectionError
  {
    if reply.None? || reply.value.selectedIndex.None? then Err(SelectionError)
    else
      var k := reply.value.selectedIndex.value;
      if 1 <= k <= |articles| then Ok(SelectedArticle(articles[k - 1], reply.value.selectionReason, reply.value.score))
      else Err(SelectionError)
  }

  /** Naming article `i` by its 1-based number selects exactly that article. */
  lemma SelectByNumber(articles: seq<Article>, i: nat, reason: string, score: real)
    requires i < |articles|
    ensures SelectBestArticle(articles, Some(SelectionReply(Some(i + 1), reason, score)))
      == Ok(SelectedArticle(articles[i], reason, score))
  {
  }

  /** A reply without content never selects anything: "{}" has no index. */
  lemma NoContentNoSelection(articles: seq<Article>)
    ensures SelectBestArticle(articles, Some(SelectionReply(None, "", 0.0))) == Err(SelectionError)
    ensures SelectBestArticle([], Some(SelectionReply(Some(1), "", 0.0))) == Err(SelectionError)
  {
  }

  // ---------------------------------------------------------------------------
  // Deep research

  /** One entry of the Tavily search's `results`. */
  datatype SearchResult = SearchResult(title: string, url: string, content: string, score: real)

  /** The Tavily search's answer; `None` fields are missing. */
  datatype SearchAnswer = SearchAnswer(query: Option<string>, responseTime: Option<real>, results: Option<seq<SearchResult>>)

  /** `executeDeepResearch` once the query is known: `None` when the search
      throws (the method then rejects); otherwise the search's query or the
      generated one, its response time or 0, and one source per result. */
  function ExecuteDeepResearch(queryNavigator: string, search: Option<SearchAnswer>): (r: Option<ResearchData>)
    ensures r.Some? <==> search.Some?
    ensures r.Some? ==> r.value.query == OrElse(search.value.query, queryNavigator)
    ensures r.Some? ==>
      r.value.responseTime == (if search.value.responseTime.None? then 0.0 else search.value.responseTime.value)
    ensures r.Some? && search.value.results.None? ==> r.value.sources == []
    ensures r.Some? && search.value.results.Some? ==> |r.value.sources| == |search.value.results.value|
  {
    match search
    case None => None
    case Some(answer) =>
      var results := if answer.results.None? then [] else answer.results.value;
      Some(ResearchData(
        OrElse(answer.query, queryNavigator),
        if answer.responseTime.None? || answer.responseTime.value == 0.0 then 0.0 else answer.responseTime.value,
        seq(|results|, i requires 0 <= i < |results| =>
          Source(results[i].title, results[i].url, results[i].content, results[i].score))))
  }

  /** Source `i` copies result `i`: title, URL, content and score, in order. */
  lemma SourcesFollowResults(queryNavigator: string, answer: SearchAnswer, i: nat)
    requires answer.results.Some? && i < |answer.results.value|
    ensures var r := ExecuteDeepResearch(queryNavigator, Some(answer)).value.sources;
      var x := answer.results.value[i];
      i < |r| && r[i] == Source(x.title, x.url, x.content, x.score)
  {
  }

  /** The research query is never empty when the prompt of the navigator query
      is not: it is the search's query, the model's query or that prompt. */
  lemma ResearchQueryNonEmpty(inputText: string, reply: Option<Option<string>>, answer: SearchAnswer)
    requires inputText != ""
    ensures ExecuteDeepResearch(ReplyOrInput(inputText, reply), Some(answer)).value.query != ""
  {
    ReplyOrInputNonEmpty(inputText, reply);
  }
  // ---------------------------------------------------------------------------
  // Writing the article

  const ArticleGenerationError: string := "Error en la generación del artículo con IA"

  /** The text the pipeline's `generateArticle` hands to `JSON.parse`: the model's
      output, or "{}" when it has none. Its fence removal is commented out. */
  function ArticleReplyText(outputText: Option<string>): string {
    OrElse(outputText, "{}")
  }

  /** `generateArticle(originalArticle, research)`. `output` is the model's
      `output_text` (`None` when the call throws) and `parse` stands for
      `JSON.parse` (`None` when it throws). The reply text is parsed without any
      fence removal; the parsed object is returned as it is, and every failure
      becomes the same error, whatever its cause. */
  function GenerateArticle<T>(output: Option<Option<string>>, parse: string -> Option<T>): (r: Result<T, string>)
    ensures r.Ok? <==> output.Some? && parse(ArticleReplyText(output.value)).Some?
    ensures r.Ok? ==> r.value == parse(ArticleReplyText(output.value)).value
    ensures r.Err? ==> r.error == ArticleGenerationError
  {
    if output.None? then Err(ArticleGenerationError)
    else
      match parse(ArticleReplyText(output.value))
      case Some(article) => Ok(article)
      case None => Err(ArticleGenerationError)
  }

  /** A fenced reply that the selection step would clean reaches `JSON.parse`
      with its fence when it writes the article. */
  lemma FencedArticleReplyKept(x: string)
    requires '`' !in x
    ensures SelectionText(Some("```json" + x + "```")) == Trim(x)
    ensures ArticleReplyText(Some("```json" + x + "```")) == "```json" + x + "```"
    ensures |ArticleReplyText(Some("```json" + x + "```"))| > |SelectionText(Some("```json" + x + "```"))|
  {
    CleanFencedReply("", x, "");
    assert "```json" + "" + x + "```" + "" == "```json" + x + "```";
  }

  /** `JSON.parse` refuses any text that starts with a backtick, so a fenced reply
      always ends in the generation error, while the selection step would have
      parsed its payload. An empty reply is parsed as "{}". */
  lemma FencedArticleReplyFails<T>(x: string, parse: string -> Option<T>)
    requires forall t: string :: |t| > 0 && t[0] == '`' ==> parse(t).None?
    ensures GenerateArticle(Some(Some("```json" + x)), parse) == Err(ArticleGenerationError)
    ensures GenerateArticle(Some(None), parse).Ok? <==> parse("{}").Some?
    ensures GenerateArticle(Some(Some("")), parse) == GenerateArticle(Some(None), parse)
  {
    var fenced := "```json" + x;
    assert ArticleReplyText(Some(fenced)) == fenced;
    assert |fenced| > 0 && fenced[0] == '`';
  }
}
