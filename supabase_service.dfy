/** The parts of `SupabaseService` (backend/src/services/supabaseService.ts) that
    decide something without the database: the records it writes, how it reads
    the database's answers, and the storage paths of header images. */
module SupabaseService {
  import opened Wrappers
  import opened Text
  import opened BackendModels

  /** The storage bucket that holds header images. */
  const Bucket: string := "article-images"

  /** PostgREST's code for "`.single()` found no row". */
  const NotFoundCode: string := "PGRST116"

  /** The author every stored article gets. */
  const DefaultAuthor: string := "TOTS Team"

  // ---------------------------------------------------------------------------
  // Header images

  /** `uploadImage`: the object path `articles/<uuid>/<fileName>` inside the bucket. */
  function UploadPath(uuid: string, fileName: string): string {
    "articles/" + uuid + "/" + fileName
  }

  /** `getPublicUrl(path)` of the bucket: the public object prefix of the project's
      storage, then the bucket, then the path. */
  function PublicUrl(publicBase: string, path: string): string {
    publicBase + "/" + Bucket + "/" + path
  }

  /** `deleteImage`'s reading of an image URL: the '/'-separated segments after
      the first one equal to the bucket name, joined again with '/'; `None` when
      no segment is the bucket name. */
  function ImageStoragePath(url: string): (p: Option<string>)
    ensures p.None? <==> Bucket !in Split(url, '/')
    ensures p.Some? ==> exists i | 0 <= i < |Split(url, '/')| ::
      Split(url, '/')[i] == Bucket && Bucket !in Split(url, '/')[..i] && p.value == Join(Split(url, '/')[i + 1..], "/")
  {
    var parts := Split(url, '/');
    match FindIndex(parts, Bucket)
    case None => None
    case Some(i) => Some(Join(parts[i + 1..], "/"))
  }

  /** What `deleteImage(imageUrl)` asks storage to remove when `imageUrl` is a
      stored `image_url` value: nothing when the value is not a string (calling
      `split` on it throws, and the method answers false) or has no bucket segment. */
  function ImageRemovalTarget(imageUrl: Json): Option<string> {
    if imageUrl.JStr? then ImageStoragePath(imageUrl.s) else None
  }

  /** The boolean `deleteImage` resolves to: true only when a path was found and
      storage reported no error; it never throws. */
  function DeleteImageResult(imageUrl: Json, removeError: Option<string>): (ok: bool)
    ensures ok <==> ImageRemovalTarget(imageUrl).Some? && removeError.None?
  {
    match ImageRemovalTarget(imageUrl)
    case None => false
    case Some(_) => removeError.None?
  }

  /** The first occurrence of `x` in `a + b` is in `b` when `a` lacks it. */
  lemma FindIndexAfter<T>(a: seq<T>, b: seq<T>, x: T)
    requires x !in a && b != [] && b[0] == x
    ensures FindIndex(a + b, x) == Some(|a|)
  {
    assert (a + b)[|a|] == x;
  }

  /** The segments of `a`, a separator, a separator-free `b`, a separator and `c`. */
  lemma {:induction false} SplitAroundSegment(a: string, b: string, c: string, sep: char)
    requires sep !in b
    ensures Split(a + [sep] + b + [sep] + c, sep) == Split(a, sep) + [b] + Split(c, sep)
  {
    assert a + [sep] + b + [sep] + c == a + [sep] + (b + [sep] + c);
    SplitAround(a, b + [sep] + c, sep);
    SplitAround(b, c, sep);
    SplitFree(b, sep);
  }

  /** The segments of `prefix/bucket/path`. */
  lemma SplitBucketUrl(prefix: string, path: string)
    ensures Split(prefix + "/" + Bucket + "/" + path, '/') == Split(prefix, '/') + [Bucket] + Split(path, '/')
  {
    var b := Bucket;
    assert '/' !in b;
    SplitAroundSegment(prefix, b, path, '/');
  }

  /** A URL made of a prefix without a bucket segment, the bucket and a path
      leads `deleteImage` to exactly that path. */
  lemma StoragePathOfBucketUrl(prefix: string, path: string)
    requires Bucket !in Split(prefix, '/')
    ensures ImageStoragePath(prefix + "/" + Bucket + "/" + path) == Some(path)
  {
    var url := prefix + "/" + Bucket + "/" + path;
    var pre := Split(prefix, '/');
    var post := Split(path, '/');
    SplitBucketUrl(prefix, path);
    AfterFirstSegment(pre, Bucket, post);
    JoinSplit(path, '/');
  }

  /** In `pre + [b] + post` with `b` not in `pre`, the first `b` is at `|pre|` and
      `post` follows it. */
  lemma AfterFirstSegment(pre: seq<string>, b: string, post: seq<string>)
    requires b !in pre
    ensures FindIndex(pre + [b] + post, b) == Some(|pre|)
    ensures (pre + [b] + post)[|pre| + 1..] == post
  {
    assert pre + [b] + post == pre + ([b] + post);
    FindIndexAfter(pre, [b] + post, b);
  }

  /** The public URL of an upload, with a storage prefix that has no bucket
      segment, makes `deleteImage` remove that very upload. */
  lemma DeleteTargetsUpload(publicBase: string, uuid: string, fileName: string)
    requires Bucket !in Split(publicBase, '/')
    ensures ImageStoragePath(PublicUrl(publicBase, UploadPath(uuid, fileName))) == Some(UploadPath(uuid, fileName))
  {
    StoragePathOfBucketUrl(publicBase, UploadPath(uuid, fileName));
  }

  /** Without a bucket segment, `deleteImage` answers false and never calls storage. */
  lemma NoBucketNoRemoval(url: string, removeError: Option<string>)
    requires Bucket !in Split(url, '/')
    ensures ImageRemovalTarget(JStr(url)).None?
    ensures !DeleteImageResult(JStr(url), removeError)
  {
  }

  // ---------------------------------------------------------------------------
  // Records written to the articles table

  /** The keys `createArticle` always writes. */
  const ArticleKeys: set<string> :=
    {"title", "metaTitle", "metaDescription", "content", "segment", "tags", "category", "author", "sources"}

  /** `createArticle(generatedArticle, imageUrl)`: the object inserted into the
      table. An absent `imageUrl` is dropped when the object is serialised. */
  function NewArticleRow(g: GeneratedArticle, imageUrl: Option<string>): Row {
    var row := map[
      "title" := JStr(g.title),
      "metaTitle" := JStr(g.metaTitle),
      "metaDescription" := JStr(g.metaDescription),
      "content" := JStr(g.content),
      "segment" := JStr(g.segment),
      "tags" := JStrList(g.tags),
      "category" := JStr(g.category),
      "author" := JStr(DefaultAuthor),
      "sources" := JStrList(g.sources)];
    if imageUrl.Some? then row["imageUrl" := JStr(imageUrl.value)] else row
  }

  /** The inserted record copies the generated article's fields and the image URL,
      and always names the default author; it has no other keys. */
  lemma NewArticleRowFields(g: GeneratedArticle, imageUrl: Option<string>)
    ensures var row := NewArticleRow(g, imageUrl);
      && row.Keys == ArticleKeys + (if imageUrl.Some? then {"imageUrl"} else {})
      && row["author"] == JStr(DefaultAuthor)
      && row["title"] == JStr(g.title) && row["metaTitle"] == JStr(g.metaTitle)
      && row["metaDescription"] == JStr(g.metaDescription) && row["content"] == JStr(g.content)
      && row["segment"] == JStr(g.segment) && row["tags"] == JStrList(g.tags)
      && row["category"] == JStr(g.category) && row["sources"] == JStrList(g.sources)
      && (imageUrl.Some? ==> row["imageUrl"] == JStr(imageUrl.value))
  {
  }

  /** The author the request or the model suggested never reaches the record, and
      the record has no `image_url` key. */
  lemma AuthorAlwaysDefault(g: GeneratedArticle, imageUrl: Option<string>)
    ensures Field(NewArticleRow(g, imageUrl), "author") == Some(JStr(DefaultAuthor))
    ensures "image_url" !in NewArticleRow(g, imageUrl)
  {
    NewArticleRowFields(g, imageUrl);
  }

  /** `updateArticle(id, updates)`: the object sent to the table, every supplied
      key passed through and `updated_at` set to the current time. */
  function UpdateData(updates: Row, now: string): (data: Row)
    ensures data.Keys == updates.Keys + {"updated_at"}
    ensures data["updated_at"] == JStr(now)
    ensures forall k | k in updates && k != "updated_at" :: data[k] == updates[k]
  {
    updates["updated_at" := JStr(now)]
  }

  /** A caller-supplied `updated_at` never survives. */
  lemma UpdatedAtOverwritten(updates: Row, now: string, supplied: Json)
    ensures UpdateData(updates["updated_at" := supplied], now) == UpdateData(updates, now)
  {
  }

  // ---------------------------------------------------------------------------
  // Reading the database's answers

  /** The message `createArticle`, `getArticles`, `updateArticle`, `deleteArticle`
      and `uploadImage` throw on a database or storage error. */
  function FailureMessage(action: string, message: string): string {
    "Failed to " + action + ": " + message
  }

  /** `getArticleById`: a `.single()` answer. "No row" becomes `null`; any other
      error becomes a thrown failure. */
  function ArticleFromSingle(answer: Result<Row, PgError>): (r: Result<Option<Row>, string>)
    ensures answer.Ok? ==> r == Ok(Some(answer.value))
    ensures answer.Err? && answer.error.code == NotFoundCode ==> r == Ok(None)
    ensures answer.Err? && answer.error.code != NotFoundCode ==>
      r == Err(FailureMessage("fetch article", answer.error.message))
  {
    match answer
    case Ok(row) => Ok(Some(row))
    case Err(e) => if e.code == NotFoundCode then Ok(None) else Err(FailureMessage("fetch article", e.message))
  }

}
