/** The records the command-line blog pipeline passes between its services
    (src/types/index.ts). JSON numbers are `real`. */
module PipelineTypes {
  import opened Wrappers

  /** An article read from an RSS feed. */
  datatype Article = Article(
    title: string,
    link: string,
    description: string,
    content: Option<string>,
    pubDate: Option<string>,
    author: Option<string>,
    categories: Option<seq<string>>,
    tags: Option<seq<string>>,
    source: string)

  /** `SelectedArticle extends Article`: the article with the model's reason and score. */
  datatype SelectedArticle = SelectedArticle(article: Article, selectionReason: string, score: real)

  /** One source found by the deep research. */
  datatype Source = Source(title: string, url: string, content: string, score: real)

  /** The deep research's answer. */
  datatype ResearchData = ResearchData(query: string, responseTime: real, sources: seq<Source>)
}
