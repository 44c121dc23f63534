/** The article generator form (frontend/src/app/components/article-generator/article-generator.ts):
    its fields, their validation, the request it sends and where it navigates.
    The server's answer is an input. */
module ArticleGeneratorComponent {
  import opened Wrappers
  import opened Text
  import opened Api
  import opened FrontendModels

  const TopicRequiredMessage: string := "El tema es requerido"
  const GenerationFailed: string := "Error generando el artículo"
  const GenerationCrashed: string := "Error inesperado al generar el artículo"
  const DefaultSegment: string := "IA"
  const DefaultAuthor: string := "TOTS Team"

  /** Where the generator navigates once the server has answered. */
  datatype Route = EditRoute(id: string) | CreateRoute

  /** The request the form sends for its fields, or `None` when the topic is
      blank: `!topic.trim()`. */
  function RequestFor(topic: string, segment: string, author: string): Option<GenerateRequest> {
    if Trim(topic) == "" then None else Some(GenerateRequest(Trim(topic), segment, Trim(author)))
  }

  /** A request goes out exactly when the topic holds something besides white
      space; it carries the topic and author trimmed and the segment as chosen,
      and the topic it carries is never blank. */
  lemma RequestForIff(topic: string, segment: string, author: string)
    ensures RequestFor(topic, segment, author).None? <==> AllSpace(topic)
    ensures RequestFor(topic, segment, author).Some? ==>
      var r := RequestFor(topic, segment, author).value;
      r.topic == Trim(topic) && r.segment == segment && r.author == Trim(author)
      && r.topic != "" && Trimmed(r.topic) && Trimmed(r.author)
  {
    TrimEmptyIffAllSpace(topic);
  }

  class ArticleGenerator {
    var topic: string
    var segment: string
    var author: string
    var isGenerating: bool
    var error: Option<string>

    /** Every message the form shows is non-empty. */
    predicate Valid()
      reads this
    {
      error != Some("")
    }

    /** The form as it first appears, and as `resetForm` leaves it. */
    predicate Initial()
      reads this
    {
      topic == "" && segment == DefaultSegment && author == DefaultAuthor && error.None? && !isGenerating
    }

    constructor()
      ensures Initial() && Valid()
    {
      topic := "";
      segment := DefaultSegment;
      author := DefaultAuthor;
      isGenerating := false;
      error := None;
    }

    /** `generateArticle()` up to its `await`: a topic of only white space is
        refused with a message and nothing is sent; otherwise the request with
        the trimmed topic and author and the selected segment is sent (and
        handed to the editor through the navigation state). */
    method StartGeneration() returns (request: Option<GenerateRequest>)
      requires Valid()
      modifies this
      ensures Valid()
      ensures request == RequestFor(old(topic), old(segment), old(author))
      ensures topic == old(topic) && segment == old(segment) && author == old(author)
      ensures request.None? ==> error == Some(TopicRequiredMessage) && isGenerating == old(isGenerating)
      ensures request.Some? ==> isGenerating && error.None?
    {
      request := RequestFor(topic, segment, author);
      if request.None? {
        error := Some(TopicRequiredMessage);
        return;
      }
      isGenerating := true;
      error := None;
    }

    /** `generateArticle()` after its `await`: the editor of the new article on
        success, back to the form with a message otherwise; generating ends on
        every path. */
    method FinishGeneration(outcome: Outcome<Article>) returns (route: Route)
      requires Valid()
      modifies this
      ensures Valid()
      ensures topic == old(topic) && segment == old(segment) && author == old(author)
      ensures !isGenerating
      ensures Delivered(outcome) ==> route == EditRoute(outcome.response.data.value.id) && error == old(error)
      ensures outcome.Answered? && !Delivered(outcome) ==>
        route == CreateRoute && error == Some(OrElse(outcome.response.error, GenerationFailed))
      ensures outcome.ConnectionFailed? ==> route == CreateRoute && error == Some(GenerationCrashed)
    {
      isGenerating := false;
      match outcome
      case Answered(response) =>
        if response.success && response.data.Some? {
          route := EditRoute(response.data.value.id);
        } else {
          error := Some(OrElse(response.error, GenerationFailed));
          route := CreateRoute;
        }
      case ConnectionFailed =>
        error := Some(GenerationCrashed);
        route := CreateRoute;
    }

    /** `onTopicChange(value)`: the topic is set and any message cleared. */
    method OnTopicChange(value: string)
      requires Valid()
      modifies this
      ensures Valid()
      ensures topic == value && error.None?
      ensures segment == old(segment) && author == old(author) && isGenerating == old(isGenerating)
    {
      topic := value;
      if error.Some? && error.value != "" {
        error := None;
      }
    }

    /** `onSegmentChange(value)`. */
    method OnSegmentChange(value: string)
      modifies this
      ensures segment == value
      ensures topic == old(topic) && author == old(author) && error == old(error) && isGenerating == old(isGenerating)
    {
      segment := value;
    }

    /** `onAuthorChange(value)`. */
    method OnAuthorChange(value: string)
      modifies this
      ensures author == value
      ensures topic == old(topic) && segment == old(segment) && error == old(error) && isGenerating == old(isGenerating)
    {
      author := value;
    }

    /** `resetForm()`: back to the constructor's values. */
    method ResetForm()
      modifies this
      ensures Initial() && Valid()
    {
      topic := "";
      segment := DefaultSegment;
      author := DefaultAuthor;
      error := None;
      isGenerating := false;
    }
  }
}
