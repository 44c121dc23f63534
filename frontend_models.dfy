/** The frontend's shared types (frontend/src/app/models/interfaces.ts): the
    article statuses, the four segments, the article record and the generation
    request. */
module FrontendModels {
  import opened Wrappers

  /** `ArticleStatus`. */
  datatype ArticleStatus = Draft | InProgress | Published | Paused | ReadyToPublish

  /** The string each status is written as. */
  function StatusName(s: ArticleStatus): string {
    match s
    case Draft => "draft"
    case InProgress => "in-progress"
    case Published => "published"
    case Paused => "paused"
    case ReadyToPublish => "ready-to-publish"
  }

  /** The status a string names, if any. */
  function ParseStatus(name: string): Option<ArticleStatus> {
    if name == "draft" then Some(Draft)
    else if name == "in-progress" then Some(InProgress)
    else if name == "published" then Some(Published)
    else if name == "paused" then Some(Paused)
    else if name == "ready-to-publish" then Some(ReadyToPublish)
    else None
  }

  /** Every status is read back from its name, and only a status's name parses. */
  lemma StatusNameRoundTrip(s: ArticleStatus, name: string)
    ensures ParseStatus(StatusName(s)) == Some(s)
    ensures ParseStatus(name) == Some(s) ==> StatusName(s) == name
  {
  }

  /** The four segments of the blog. */
  datatype Segment = IA | AppsMoviles | Sportech | Ciberseguridad

  function SegmentName(s: Segment): string {
    match s
    case IA => "IA"
    case AppsMoviles => "Apps móviles"
    case Sportech => "Sportech"
    case Ciberseguridad => "Ciberseguridad"
  }

  function ParseSegment(name: string): Option<Segment> {
    if name == "IA" then Some(IA)
    else if name == "Apps móviles" then Some(AppsMoviles)
    else if name == "Sportech" then Some(Sportech)
    else if name == "Ciberseguridad" then Some(Ciberseguridad)
    else None
  }

  /** Every segment is read back from its name, and only a segment's name parses. */
  lemma SegmentNameRoundTrip(s: Segment, name: string)
    ensures ParseSegment(SegmentName(s)) == Some(s)
    ensures ParseSegment(name) == Some(s) ==> SegmentName(s) == name
  {
  }

  /** The segments in the order the components list them. */
  const Segments: seq<Segment> := [IA, AppsMoviles, Sportech, Ciberseguridad]

  /** The segment names in that order. */
  function SegmentNames(): (names: seq<string>)
    ensures |names| == |Segments|
    ensures forall i | 0 <= i < |names| :: names[i] == SegmentName(Segments[i])
  {
    seq(|Segments|, i requires 0 <= i < |Segments| => SegmentName(Segments[i]))
  }

  /** Each segment is listed once, so the names are distinct. */
  lemma SegmentNamesDistinct()
    ensures forall i, j | 0 <= i < j < |SegmentNames()| :: SegmentNames()[i] != SegmentNames()[j]
    ensures forall s: Segment :: SegmentName(s) in SegmentNames()
  {
    var names := SegmentNames();
    forall i, j | 0 <= i < j < |names| ensures names[i] != names[j] {
      SegmentNameRoundTrip(Segments[i], names[i]);
      SegmentNameRoundTrip(Segments[j], names[j]);
    }
    forall s: Segment ensures SegmentName(s) in names {
      match s
      case IA => assert names[0] == SegmentName(s);
      case AppsMoviles => assert names[1] == SegmentName(s);
      case Sportech => assert names[2] == SegmentName(s);
      case Ciberseguridad => assert names[3] == SegmentName(s);
    }
  }

  /** An article as the frontend holds it. `segment` and `status` are whatever
      strings the backend returned: the declared unions are not checked at run
      time. Dates are kept as the strings the JSON carries. */
  datatype Article = Article(
    id: string,
    title: string,
    metaTitle: string,
    metaDescription: string,
    content: string,
    segment: string,
    tags: seq<string>,
    category: string,
    author: string,
    sources: seq<string>,
    imageUrl: Option<string>,
    status: string,
    createdAt: string,
    updatedAt: string)

  /** `CreateArticleRequest` as the generator form sends it. */
  datatype GenerateRequest = GenerateRequest(topic: string, segment: string, author: string)
}
