/** The article list page (frontend/src/app/components/article-list/article-list.ts):
    its statistics, its colour and label lookups, and the list it keeps while
    loading and deleting articles. Server answers and `confirm` answers are
    inputs. */
module ArticleListComponent {
  import opened Wrappers
  import opened Text
  import opened Api
  import opened FrontendModels

  // ---------------------------------------------------------------------------
  // Statistics

  /** `articles.filter(a => a.segment === segment).length`. */
  function SegmentCount(articles: seq<Article>, segment: string): (n: nat)
    ensures n <= |articles|
  {
    if articles == [] then 0
    else (if articles[0].segment == segment then 1 else 0) + SegmentCount(articles[1..], segment)
  }

  /** The `reduce` over the segment names: one entry per name, its count. */
  function CountsFor(names: seq<string>, articles: seq<Article>): (counts: map<string, nat>)
    ensures counts.Keys == set i | 0 <= i < |names| :: names[i]
    ensures forall k | k in counts :: counts[k] == SegmentCount(articles, k)
  {
    if names == [] then map[]
    else
      var last := names[|names| - 1];
      CountsFor(names[..|names| - 1], articles)[last := SegmentCount(articles, last)]
  }

  /** `articleStats()`. */
  datatype Stats = Stats(total: nat, bySegment: map<string, nat>)

  function ArticleStats(articles: seq<Article>): (s: Stats)
    ensures s.total == |articles|
  {
    Stats(|articles|, CountsFor(SegmentNames(), articles))
  }

  /** `bySegment` has an entry for each of the four segments, counting the
      articles in it, and no other entry. */
  lemma ArticleStatsCounts(articles: seq<Article>, seg: Segment, k: string)
    ensures SegmentName(seg) in ArticleStats(articles).bySegment
    ensures ArticleStats(articles).bySegment[SegmentName(seg)] == SegmentCount(articles, SegmentName(seg))
    ensures k in ArticleStats(articles).bySegment ==> ParseSegment(k).Some?
  {
    SegmentNamesDistinct();
    var names := SegmentNames();
    var i :| 0 <= i < |names| && names[i] == SegmentName(seg);
    if k in ArticleStats(articles).bySegment {
      var j :| 0 <= j < |names| && names[j] == k;
      SegmentNameRoundTrip(Segments[j], k);
    }
  }

  /** The counts of the names in `names`, added up. */
  function SumCounts(names: seq<string>, articles: seq<Article>): nat {
    if names == [] then 0 else SegmentCount(articles, names[0]) + SumCounts(names[1..], articles)
  }

  /** How many of `names` equal `segment`. */
  function Hits(names: seq<string>, segment: string): nat {
    if names == [] then 0 else (if names[0] == segment then 1 else 0) + Hits(names[1..], segment)
  }

  /** Distinct names match a segment at most once, and exactly once when it is one of them. */
  lemma {:induction false} HitsOfDistinct(names: seq<string>, segment: string)
    requires forall i, j | 0 <= i < j < |names| :: names[i] != names[j]
    ensures Hits(names, segment) == (if segment in names then 1 else 0)
    decreases |names|
  {
    if names != [] {
      HitsOfDistinct(names[1..], segment);
      if names[0] == segment {
        assert segment !in names[1..] by {
          forall j | 0 <= j < |names[1..]| ensures names[1..][j] != segment {
            assert names[j + 1] != names[0];
          }
        }
      }
      assert segment in names <==> names[0] == segment || segment in names[1..];
    }
  }

  /** Taking one article off the front removes its hits from the sum. */
  lemma {:induction false} SumCountsCons(names: seq<string>, articles: seq<Article>)
    requires articles != []
    ensures SumCounts(names, articles) == Hits(names, articles[0].segment) + SumCounts(names, articles[1..])
    decreases |names|
  {
    if names != [] {
      SumCountsCons(names[1..], articles);
    }
  }

  /** The articles whose segment is none of `names`. */
  function Outside(names: seq<string>, articles: seq<Article>): nat {
    if articles == [] then 0
    else (if articles[0].segment in names then 0 else 1) + Outside(names, articles[1..])
  }

  /** With distinct names, the per-name counts and the articles outside them
      account for every article exactly once. */
  lemma {:induction false} CountsPartition(names: seq<string>, articles: seq<Article>)
    requires forall i, j | 0 <= i < j < |names| :: names[i] != names[j]
    ensures SumCounts(names, articles) + Outside(names, articles) == |articles|
    decreases |articles|
  {
    if articles == [] {
      assert SumCounts(names, articles) == 0 by {
        ZeroCounts(names, articles);
      }
    } else {
      SumCountsCons(names, articles);
      HitsOfDistinct(names, articles[0].segment);
      CountsPartition(names, articles[1..]);
    }
  }

  lemma {:induction false} ZeroCounts(names: seq<string>, articles: seq<Article>)
    requires articles == []
    ensures SumCounts(names, articles) == 0
    decreases |names|
  {
    if names != [] {
      ZeroCounts(names[1..], articles);
    }
  }

  /** The four segment counts add up to at most the total, and to exactly the
      total when every article is in one of the four segments. */
  lemma SegmentCountsWithinTotal(articles: seq<Article>)
    ensures SumCounts(SegmentNames(), articles) <= ArticleStats(articles).total
    ensures Outside(SegmentNames(), articles) == 0 ==>
      SumCounts(SegmentNames(), articles) == ArticleStats(articles).total
  {
    SegmentNamesDistinct();
    CountsPartition(SegmentNames(), articles);
  }

  // ---------------------------------------------------------------------------
  // Colours and labels

  const UnknownSegmentColor: string := "bg-gray-100 text-gray-800"

  /** `getSegmentColor(segment)`. */
  function SegmentColor(segment: string): (color: string)
    ensures ParseSegment(segment).None? ==> color == UnknownSegmentColor
  {
    match ParseSegment(segment)
    case None => UnknownSegmentColor
    case Some(IA) => "bg-purple-100 text-purple-800"
    case Some(AppsMoviles) => "bg-green-100 text-green-800"
    case Some(Sportech) => "bg-blue-100 text-blue-800"
    case Some(Ciberseguridad) => "bg-red-100 text-red-800"
  }

  /** Each segment has its own colour, none of them the unknown segment's. */
  lemma SegmentColorsDistinct(s: Segment, t: Segment)
    ensures SegmentColor(SegmentName(s)) != UnknownSegmentColor
    ensures s != t ==> SegmentColor(SegmentName(s)) != SegmentColor(SegmentName(t))
  {
    SegmentNameRoundTrip(s, SegmentName(s));
    SegmentNameRoundTrip(t, SegmentName(t));
  }

  /** The colour of a known status. */
  function StatusColorOf(s: ArticleStatus): string {
    match s
    case Draft => "bg-gray-100 text-gray-800 border border-gray-300"
    case InProgress => "bg-yellow-100 text-yellow-800 border border-yellow-300"
    case ReadyToPublish => "bg-green-100 text-green-800 border border-green-300"
    case Published => "bg-blue-100 text-blue-800 border border-blue-300"
    case Paused => "bg-red-100 text-red-800 border border-red-300"
  }

  /** The label of a known status. */
  function StatusLabelOf(s: ArticleStatus): string {
    match s
    case Draft => "📝 Draft"
    case InProgress => "⚠️ In Progress"
    case ReadyToPublish => "✅ Ready to publish"
    case Published => "🌐 Published"
    case Paused => "⏸️ Paused"
  }

  /** `getStatusColor(status)`: an unrecognised status gets the draft colour. */
  function StatusColor(status: string): string {
    match ParseStatus(status)
    case None => StatusColorOf(Draft)
    case Some(s) => StatusColorOf(s)
  }

  /** `getStatusLabel(status)`: an unrecognised status gets the draft label. */
  function StatusLabel(status: string): string {
    match ParseStatus(status)
    case None => StatusLabelOf(Draft)
    case Some(s) => StatusLabelOf(s)
  }

  /** A status's own name gets its own label and colour. */
  lemma StatusLookups(s: ArticleStatus)
    ensures StatusLabel(StatusName(s)) == StatusLabelOf(s)
    ensures StatusColor(StatusName(s)) == StatusColorOf(s)
  {
    StatusNameRoundTrip(s, StatusName(s));
  }

  /** Different statuses get different labels: their first characters, the
      emoji, already differ. */
  lemma StatusLabelsDistinct(s: ArticleStatus, t: ArticleStatus)
    requires s != t
    ensures StatusLabelOf(s) != StatusLabelOf(t)
  {
    assert StatusLabelOf(s)[0] != StatusLabelOf(t)[0];
  }

  /** The status whose label is `shown`, if any. */
  function StatusOfLabel(shown: string): Option<ArticleStatus> {
    if shown == StatusLabelOf(Draft) then Some(Draft)
    else if shown == StatusLabelOf(InProgress) then Some(InProgress)
    else if shown == StatusLabelOf(ReadyToPublish) then Some(ReadyToPublish)
    else if shown == StatusLabelOf(Published) then Some(Published)
    else if shown == StatusLabelOf(Paused) then Some(Paused)
    else None
  }

  /** Each label gives its status back, so the label names the status. */
  lemma LabelDecode(s: ArticleStatus)
    ensures StatusOfLabel(StatusLabelOf(s)) == Some(s)
  {
    forall t: ArticleStatus | t != s
      ensures StatusLabelOf(s) != StatusLabelOf(t)
    {
      StatusLabelsDistinct(s, t);
    }
  }

  /** Any status string the backend returns is shown as draft unless it names a status. */
  lemma UnknownStatusIsDraft(status: string)
    requires forall s: ArticleStatus :: status != StatusName(s)
    ensures StatusLabel(status) == StatusLabel("draft") && StatusColor(status) == StatusColor("draft")
  {
    if ParseStatus(status).Some? {
      StatusNameRoundTrip(ParseStatus(status).value, status);
    }
    StatusNameRoundTrip(Draft, "draft");
  }

  // ---------------------------------------------------------------------------
  // The list

  /** `articles.filter(a => a.id !== id)`. */
  function RemoveById(articles: seq<Article>, id: string): (r: seq<Article>)
    ensures |r| <= |articles|
    ensures forall i | 0 <= i < |r| :: r[i].id != id
  {
    if articles == [] then []
    else (if articles[0].id == id then [] else [articles[0]]) + RemoveById(articles[1..], id)
  }

  /** Exactly the articles with another id stay. */
  lemma {:induction false} RemoveByIdMembers(articles: seq<Article>, id: string, a: Article)
    ensures a in RemoveById(articles, id) <==> a in articles && a.id != id
    decreases |articles|
  {
    if articles != [] {
      RemoveByIdMembers(articles[1..], id, a);
      assert a in articles <==> a == articles[0] || a in articles[1..];
    }
  }

  /** Without an article of that id, the list is unchanged. */
  lemma {:induction false} RemoveAbsentId(articles: seq<Article>, id: string)
    requires forall i | 0 <= i < |articles| :: articles[i].id != id
    ensures RemoveById(articles, id) == articles
    decreases |articles|
  {
    if articles != [] {
      RemoveAbsentId(articles[1..], id);
    }
  }

  /** Removing splits over a concatenation, so the kept articles keep their order. */
  lemma {:induction false} RemoveByIdAppend(a: seq<Article>, b: seq<Article>, id: string)
    ensures RemoveById(a + b, id) == RemoveById(a, id) + RemoveById(b, id)
    decreases |a|
  {
    if a == [] {
      assert a + b == b;
    } else {
      assert (a + b)[0] == a[0];
      assert (a + b)[1..] == a[1..] + b;
      RemoveByIdAppend(a[1..], b, id);
    }
  }

  const LoadFailed: string := "Error cargando artículos"
  const LoadConnectionFailed: string := "Error de conexión al cargar artículos"
  const DeleteFailedPrefix: string := "Error eliminando artículo: "
  const DeleteConnectionFailed: string := "Error de conexión al eliminar artículo"

  /** `${response.error}` in the delete alert: the text, or "undefined". */
  function ErrorText(error: Option<string>): string {
    if error.None? then "undefined" else error.value
  }

  /** Against a server whose `success` agrees with its status, as every
      handler here keeps it, the `next` branch that shows the answer's own
      error text is reached only by a 2xx success that carries no data; the
      server's failures all arrive as the connection message. */
  lemma ServerErrorTextUnreached(answer: Option<Reply<seq<Article>>>)
    requires answer.Some? ==> StatusAgrees(answer.value)
    ensures var o := ClientOutcome(answer);
      o.Answered? && !Delivered(o) ==> o.response.success && o.response.data.None?
    ensures answer.Some? && !answer.value.body.success ==> ClientOutcome(answer) == ConnectionFailed
  {
    AgreeingServerFailuresUnanswered(answer);
  }

  /** The page's state: the articles shown, the loading flag and the error text. */
  class ArticleList {
    var articles: seq<Article>
    var loading: bool
    var error: string

    /** The signals' initial values. The constructor's call to `loadArticles`
        is the caller's next step. */
    constructor()
      ensures articles == [] && loading && error == ""
    {
      articles := [];
      loading := true;
      error := "";
    }

    /** `loadArticles()`: `answer` is the server's answer to `getArticles()`,
        `None` when none arrived, and `HttpClient` turns it into the `next` or
        `error` callback. The list is replaced only by delivered data; a non-2xx
        answer shows the connection message, whatever its body says; loading
        ends on every path. */
    method LoadArticles(answer: Option<Reply<seq<Article>>>)
      modifies this
      ensures !loading
      ensures var o := ClientOutcome(answer);
        && (Delivered(o) ==> articles == o.response.data.value && error == "")
        && (!Delivered(o) ==> articles == old(articles))
        && (o.Answered? && !Delivered(o) ==> error == OrElse(o.response.error, LoadFailed))
        && (error == "" <==> Delivered(o))
      ensures answer.None? || !IsSuccessStatus(answer.value.status) ==> error == LoadConnectionFailed
    {
      loading := true;
      error := "";
      match ClientOutcome(answer)
      case Answered(response) =>
        if response.success && response.data.Some? {
          articles := response.data.value;
        } else {
          error := OrElse(response.error, LoadFailed);
        }
        loading := false;
      case ConnectionFailed =>
        error := LoadConnectionFailed;
        loading := false;
    }

    /** `deleteArticle(article)`: `confirmed` is the `confirm` answer and
        `answer` the server's, through `HttpClient` as for loading. Returns the
        alert shown, if any. */
    method DeleteArticle(article: Article, confirmed: bool, answer: Option<Reply<()>>) returns (alert: Option<string>)
      modifies this
      ensures loading == old(loading) && error == old(error)
      ensures var o := ClientOutcome(answer);
        && (confirmed && o.Answered? && o.response.success ==> articles == RemoveById(old(articles), article.id) && alert.None?)
        && (!(confirmed && o.Answered? && o.response.success) ==> articles == old(articles))
        && (confirmed && o.Answered? && !o.response.success ==> alert == Some(DeleteFailedPrefix + ErrorText(o.response.error)))
      ensures !confirmed ==> alert.None?
      ensures confirmed && (answer.None? || !IsSuccessStatus(answer.value.status)) ==> alert == Some(DeleteConnectionFailed)
    {
      alert := None;
      if !confirmed {
        return;
      }
      match ClientOutcome(answer)
      case Answered(response) =>
        if response.success {
          articles := RemoveById(articles, article.id);
        } else {
          alert := Some(DeleteFailedPrefix + ErrorText(response.error));
        }
      case ConnectionFailed =>
        alert := Some(DeleteConnectionFailed);
    }
  }
}
