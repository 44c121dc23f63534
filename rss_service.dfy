/** `RSSService` (src/services/rssService.ts): turning parsed feed items into
    pipeline articles, and collecting the articles of every feed. The parser's
    answer for each feed, and the host name the URL parser finds in the feed
    URL, are inputs. */
module RssService {
  import opened Wrappers
  import opened Text
  import opened PipelineTypes

  /** The limit `fetchAllArticles` applies (`maxArticlesForDeepResearch`). */
  const MaxArticlesForDeepResearch: nat := 20

  /** An item's `categories` or `category` field: absent, one value, or an array. */
  datatype CategoryField = Absent | One(value: string) | Many(values: seq<string>)

  /** An item as the RSS parser returns it; `None` is a missing field. */
  datatype FeedItem = FeedItem(
    title: Option<string>,
    link: Option<string>,
    contentSnippet: Option<string>,
    description: Option<string>,
    content: Option<string>,
    pubDate: Option<string>,
    creator: Option<string>,
    author: Option<string>,
    categories: CategoryField,
    category: CategoryField)

  // ---------------------------------------------------------------------------
  // Categories and tags

  /** What `extractCategories` pushes for one field: nothing when the field is
      falsy, the array's entries spread, or the single value. */
  function Entries(f: CategoryField): seq<string> {
    match f
    case Absent => []
    case One(v) => if v == "" then [] else [v]
    case Many(vs) => vs
  }

  /** `cat && cat.trim() !== ''` fails. */
  predicate Blank(c: string) {
    c == "" || Trim(c) == ""
  }

  lemma BlankIff(c: string)
    ensures Blank(c) <==> AllSpace(c)
  {
    TrimEmptyIffAllSpace(c);
  }

  /** `xs.filter(keep)`: the entries `keep` accepts, unchanged and in order. */
  function Filter<T>(keep: T -> bool, xs: seq<T>): (r: seq<T>)
    ensures |r| <= |xs|
  {
    if xs == [] then []
    else (if keep(xs[0]) then [xs[0]] else []) + Filter(keep, xs[1..])
  }

  /** An entry is kept exactly when it is one of the input's and accepted. */
  lemma {:induction false} FilterMembers<T>(keep: T -> bool, xs: seq<T>, c: T)
    ensures c in Filter(keep, xs) <==> c in xs && keep(c)
    decreases |xs|
  {
    if xs != [] {
      FilterMembers(keep, xs[1..], c);
      assert c in xs <==> c == xs[0] || c in xs[1..];
    }
  }

  /** Filtering a concatenation filters each part. */
  lemma {:induction false} FilterAppend<T>(keep: T -> bool, a: seq<T>, b: seq<T>)
    ensures Filter(keep, a + b) == Filter(keep, a) + Filter(keep, b)
    decreases |a|
  {
    if a == [] {
      assert a + b == b;
    } else {
      assert (a + b)[0] == a[0];
      assert (a + b)[1..] == a[1..] + b;
      FilterAppend(keep, a[1..], b);
      var head := if keep(a[0]) then [a[0]] else [];
      assert Filter(keep, a + b) == head + Filter(keep, a[1..] + b);
      assert Filter(keep, a) == head + Filter(keep, a[1..]);
    }
  }

  /** Filtering twice with the same test changes nothing. */
  lemma {:induction false} FilterIdempotent<T>(keep: T -> bool, xs: seq<T>)
    ensures Filter(keep, Filter(keep, xs)) == Filter(keep, xs)
    decreases |xs|
  {
    if xs != [] {
      FilterIdempotent(keep, xs[1..]);
      var head := if keep(xs[0]) then [xs[0]] else [];
      FilterAppend(keep, head, Filter(keep, xs[1..]));
    }
  }

  /** The test of `filter(cat => cat && cat.trim() !== '')`. */
  predicate NonBlank(c: string) {
    !Blank(c)
  }

  /** An entry is kept exactly when it is one of the input's and holds
      something besides white space. */
  lemma KeepNonBlankMembers(xs: seq<string>, c: string)
    ensures c in Filter(NonBlank, xs) <==> c in xs && !AllSpace(c)
  {
    FilterMembers(NonBlank, xs, c);
    BlankIff(c);
  }

  /** `extractCategories(item)`: the entries of `categories`, then those of
      `category`, without the blank ones. */
  function ExtractCategories(item: FeedItem): (cats: seq<string>) {
    Filter(NonBlank, Entries(item.categories) + Entries(item.category))
  }

  /** A string is a category exactly when it is an entry of either field and
      not blank. */
  lemma CategoriesMembers(item: FeedItem, c: string)
    ensures c in ExtractCategories(item) <==>
      (c in Entries(item.categories) || c in Entries(item.category)) && !AllSpace(c)
  {
    KeepNonBlankMembers(Entries(item.categories) + Entries(item.category), c);
  }

  /** The entries keep their order: those of `categories` come first. */
  lemma CategoriesInOrder(item: FeedItem)
    ensures ExtractCategories(item) == Filter(NonBlank, Entries(item.categories)) + Filter(NonBlank, Entries(item.category))
  {
    FilterAppend(NonBlank, Entries(item.categories), Entries(item.category));
  }

  /** `extractTags(item)`: the item's categories, again. */
  function ExtractTags(item: FeedItem): (tags: seq<string>)
    ensures tags == ExtractCategories(item)
  {
    ExtractCategories(item)
  }

  // ---------------------------------------------------------------------------
  // Source names

  /** `getSourceName(feedUrl)`: two known feeds by name, otherwise the host name
      without its first "www.", or "Unknown Source" when the URL does not parse
      (`hostname` is `None`). */
  function SourceName(feedUrl: string, hostname: Option<string>): (name: string)
    ensures Includes(feedUrl, "uxdesign.cc") ==> name == "UX Collective"
    ensures !Includes(feedUrl, "uxdesign.cc") && Includes(feedUrl, "smashingmagazine.com") ==> name == "Smashing Magazine"
    ensures !Includes(feedUrl, "uxdesign.cc") && !Includes(feedUrl, "smashingmagazine.com") && hostname.None? ==>
      name == "Unknown Source"
    ensures !Includes(feedUrl, "uxdesign.cc") && !Includes(feedUrl, "smashingmagazine.com") && hostname.Some? ==>
      |name| <= |hostname.value|
    ensures !Includes(feedUrl, "uxdesign.cc") && !Includes(feedUrl, "smashingmagazine.com") && hostname.Some? ==>
      match IndexOf(hostname.value, "www.")
      case None => name == hostname.value
      case Some(i) => name == hostname.value[..i] + hostname.value[i + 4..]
  {
    if Includes(feedUrl, "uxdesign.cc") then "UX Collective"
    else if Includes(feedUrl, "smashingmagazine.com") then "Smashing Magazine"
    else if hostname.None? then "Unknown Source"
    else ReplaceFirst(hostname.value, "www.", "")
  }

  /** A host name "www.h" of an unknown feed is named "h"; one without "www." keeps its name. */
  lemma SourceNameOfHost(feedUrl: string, host: string)
    requires !Includes(feedUrl, "uxdesign.cc") && !Includes(feedUrl, "smashingmagazine.com")
    ensures !Includes(host, "www.") ==> SourceName(feedUrl, Some(host)) == host
    ensures SourceName(feedUrl, Some("www." + host)) == host
  {
    var w := "www." + host;
    assert OccursAt(w, "www.", 0);
    ReplaceLeadingOccurrence(w, "www.");
    assert w[4..] == host;
  }

  // ---------------------------------------------------------------------------
  // Articles

  /** The article `fetchAllArticles` makes of one item of the feed at `feedUrl`. */
  function ItemToArticle(item: FeedItem, feedUrl: string, hostname: Option<string>): Article {
    Article(
      OrElse(item.title, "Sin título"),
      OrElse(item.link, ""),
      OrElse(item.contentSnippet, OrElse(item.description, "Sin descripción")),
      Some(OrElse(item.content, OrElse(item.description, ""))),
      Some(OrElse(item.pubDate, "")),
      Some(OrElse(item.creator, OrElse(item.author, "Desconocido"))),
      Some(ExtractCategories(item)),
      Some(ExtractTags(item)),
      SourceName(feedUrl, hostname))
  }

  /** Missing or empty fields get their defaults: a title, a description and an
      author are never empty; a present title is kept; categories and tags are
      the same list; the source is named after the feed. */
  lemma ItemDefaults(item: FeedItem, feedUrl: string, hostname: Option<string>)
    ensures var a := ItemToArticle(item, feedUrl, hostname);
      && a.title != "" && a.description != "" && a.author.Some? && a.author.value != ""
      && (item.title.Some? && item.title.value != "" ==> a.title == item.title.value)
      && (item.title.None? || item.title.value == "" ==> a.title == "Sin título")
      && (item.link.None? ==> a.link == "")
      && (item.contentSnippet.Some? && item.contentSnippet.value != "" ==> a.description == item.contentSnippet.value)
      && (OrElse(item.contentSnippet, "") == "" && OrElse(item.description, "") == "" ==> a.description == "Sin descripción")
      && (item.creator.Some? && item.creator.value != "" ==> a.author == item.creator)
      && (OrElse(item.creator, "") == "" && OrElse(item.author, "") == "" ==> a.author == Some("Desconocido"))
      && a.categories == Some(ExtractCategories(item)) && a.tags == a.categories
      && a.source == SourceName(feedUrl, hostname)
  {
  }

  /** `feed.items.map(...)`: article `i` is made of item `i`. */
  function ItemsToArticles(items: seq<FeedItem>, feedUrl: string, hostname: Option<string>): seq<Article> {
    seq(|items|, i requires 0 <= i < |items| => ItemToArticle(items[i], feedUrl, hostname))
  }

  /** One configured feed: its URL, the host name in it (`None` when the URL does
      not parse) and the parser's items (`None` when `parseURL` throws). */
  datatype Feed = Feed(url: string, hostname: Option<string>, parsed: Option<seq<FeedItem>>)

  /** The articles one feed contributes: none when it fails. */
  function FeedArticles(f: Feed): seq<Article> {
    if f.parsed.None? then [] else ItemsToArticles(f.parsed.value, f.url, f.hostname)
  }

  /** The lists `f` gives for the elements of `xs`, concatenated in order. */
  function ConcatMap<A, B>(f: A -> seq<B>, xs: seq<A>): seq<B> {
    if xs == [] then [] else ConcatMap(f, xs[..|xs| - 1]) + f(xs[|xs| - 1])
  }

  /** `allArticles` once every feed is processed: the feeds' articles in feed order. */
  function Collected(feeds: seq<Feed>): seq<Article> {
    ConcatMap(FeedArticles, feeds)
  }

  /** `xs.slice(0, n)`. */
  function Take<T>(xs: seq<T>, n: nat): (r: seq<T>)
    ensures |r| <= n && |r| <= |xs|
    ensures r == xs[..|r|]
    ensures |xs| <= n ==> r == xs
  {
    if |xs| <= n then xs else xs[..n]
  }

  /** `fetchAllArticles()`: every feed in turn, a failing one skipped, and at most
      `MaxArticlesForDeepResearch` articles kept from the front. */
  method FetchAllArticles(feeds: seq<Feed>) returns (articles: seq<Article>)
    ensures articles == Take(Collected(feeds), MaxArticlesForDeepResearch)
  {
    var all: seq<Article> := [];
    var i := 0;
    while i < |feeds|
      invariant 0 <= i <= |feeds|
      invariant all == Collected(feeds[..i])
    {
      var f := feeds[i];
      if f.parsed.Some? {
        all := all + ItemsToArticles(f.parsed.value, f.url, f.hostname);
      }
      assert feeds[..i + 1][..i] == feeds[..i];
      i := i + 1;
    }
    assert feeds[..i] == feeds;
    articles := Take(all, MaxArticlesForDeepResearch);
  }

  /** Concatenating over two runs of elements, one after the other. */
  lemma {:induction false} ConcatMapAppend<A, B>(f: A -> seq<B>, a: seq<A>, b: seq<A>)
    ensures ConcatMap(f, a + b) == ConcatMap(f, a) + ConcatMap(f, b)
    decreases |b|
  {
    if b == [] {
      assert a + b == a;
    } else {
      var ab := a + b;
      var b' := b[..|b| - 1];
      assert ab[..|ab| - 1] == a + b';
      assert ab[|ab| - 1] == b[|b| - 1];
      ConcatMapAppend(f, a, b');
    }
  }

  /** A failing feed contributes nothing, and the feeds after it still do. */
  lemma FailingFeedSkipped(before: seq<Feed>, f: Feed, after: seq<Feed>)
    requires f.parsed.None?
    ensures Collected(before + [f] + after) == Collected(before) + Collected(after)
  {
    ConcatMapAppend(FeedArticles, before + [f], after);
    var bf := before + [f];
    assert bf[..|bf| - 1] == before;
    assert FeedArticles(f) == [];
    assert ConcatMap(FeedArticles, bf) == ConcatMap(FeedArticles, before) + FeedArticles(f);
  }

  /** The result is a prefix of the feeds' articles, at most the limit long, and
      all of them when there are no more than the limit. */
  lemma FetchedPrefix(feeds: seq<Feed>)
    ensures var r := Take(Collected(feeds), MaxArticlesForDeepResearch);
      |r| <= MaxArticlesForDeepResearch && r == Collected(feeds)[..|r|]
      && (|Collected(feeds)| >= MaxArticlesForDeepResearch ==> |r| == MaxArticlesForDeepResearch)
  {
  }
}
