/** The article editor page (frontend/src/app/components/article-editor/article-editor.ts):
    the article being edited, its tag and source lists, and the loading,
    saving and unsaved-changes flags. Each `async` handler is split at its
    `await` into the step before and the step after the server's answer, which
    is an input, as are the `prompt` and `confirm` answers. */
module ArticleEditorComponent {
  import opened Wrappers
  import opened Text
  import opened Api
  import opened FrontendModels

  const GeneratingId: string := "generating"
  const MissingId: string := "ID de artículo no proporcionado"
  const NotFound: string := "Artículo no encontrado"
  const LoadConnectionFailed: string := "Error de conexión al cargar artículo"
  const Saved: string := "✅ Artículo guardado exitosamente"
  const SaveFailed: string := "Error guardando el artículo"
  const SaveConnectionFailed: string := "Error de conexión al guardar artículo"
  const DeleteFailed: string := "Error eliminando el artículo"
  const DeleteConnectionFailed: string := "Error de conexión al eliminar artículo"

  // ---------------------------------------------------------------------------
  // Editing one field

  /** The fields holding a string. */
  datatype TextField = Id | Title | MetaTitle | MetaDescription | Content | Segment | Category | Author | Status | CreatedAt | UpdatedAt

  /** The fields holding a list of strings. */
  datatype ListField = Tags | Sources

  /** `updateField(field, value)`'s argument pair, by the type of the field. */
  datatype Edit = SetText(field: TextField, text: string) | SetList(list: ListField, items: seq<string>) | SetImageUrl(url: Option<string>)

  function GetText(a: Article, f: TextField): string {
    match f
    case Id => a.id
    case Title => a.title
    case MetaTitle => a.metaTitle
    case MetaDescription => a.metaDescription
    case Content => a.content
    case Segment => a.segment
    case Category => a.category
    case Author => a.author
    case Status => a.status
    case CreatedAt => a.createdAt
    case UpdatedAt => a.updatedAt
  }

  function GetList(a: Article, f: ListField): seq<string> {
    match f
    case Tags => a.tags
    case Sources => a.sources
  }

  /** `{ ...article, [field]: value }`. */
  function Apply(a: Article, e: Edit): Article {
    match e
    case SetImageUrl(url) => a.(imageUrl := url)
    case SetList(Tags, items) => a.(tags := items)
    case SetList(Sources, items) => a.(sources := items)
    case SetText(f, t) =>
      match f
      case Id => a.(id := t)
      case Title => a.(title := t)
      case MetaTitle => a.(metaTitle := t)
      case MetaDescription => a.(metaDescription := t)
      case Content => a.(content := t)
      case Segment => a.(segment := t)
      case Category => a.(category := t)
      case Author => a.(author := t)
      case Status => a.(status := t)
      case CreatedAt => a.(createdAt := t)
      case UpdatedAt => a.(updatedAt := t)
  }

  /** The named field takes the new value and every other field keeps its own. */
  lemma ApplyChangesOnlyThatField(a: Article, e: Edit, f: TextField, l: ListField)
    ensures GetText(Apply(a, e), f) == (if e.SetText? && e.field == f then e.text else GetText(a, f))
    ensures GetList(Apply(a, e), l) == (if e.SetList? && e.list == l then e.items else GetList(a, l))
    ensures Apply(a, e).imageUrl == (if e.SetImageUrl? then e.url else a.imageUrl)
  {
  }

  /** Setting a field to the value it already has changes nothing. */
  lemma ApplyOwnValue(a: Article, f: TextField, l: ListField)
    ensures Apply(a, SetText(f, GetText(a, f))) == a
    ensures Apply(a, SetList(l, GetList(a, l))) == a
    ensures Apply(a, SetImageUrl(a.imageUrl)) == a
  {
  }

  // ---------------------------------------------------------------------------
  // Tag and source lists

  /** The list `addTag`/`addSource` write for the `prompt` answer: the answer
      trimmed, appended when it is not blank and not yet listed; `None` when
      nothing is written (`answer` is `None` when the prompt is cancelled). */
  function AddEntry(list: seq<string>, answer: Option<string>): Option<seq<string>> {
    if answer.None? || answer.value == "" then None
    else
      var entry := Trim(answer.value);
      if entry == "" || entry in list then None else Some(list + [entry])
  }

  /** An entry is added exactly when the answer has something besides white
      space that the list does not hold yet once trimmed; it goes at the end. */
  lemma AddEntryIff(list: seq<string>, answer: Option<string>)
    ensures AddEntry(list, answer).Some? <==>
      answer.Some? && !AllSpace(answer.value) && Trim(answer.value) !in list
    ensures AddEntry(list, answer).Some? ==> AddEntry(list, answer).value == list + [Trim(answer.value)]
  {
    if answer.Some? {
      TrimEmptyIffAllSpace(answer.value);
    }
  }

  /** No entry is listed twice. */
  predicate NoDuplicates(list: seq<string>) {
    forall i, j | 0 <= i < j < |list| :: list[i] != list[j]
  }

  /** Adding keeps a list free of duplicates, and every entry it adds is trimmed
      and not blank. */
  lemma AddEntryKeepsNoDuplicates(list: seq<string>, answer: Option<string>)
    requires NoDuplicates(list)
    ensures AddEntry(list, answer).Some? ==> NoDuplicates(AddEntry(list, answer).value)
    ensures AddEntry(list, answer).Some? ==> var e := AddEntry(list, answer).value[|list|]; e != "" && Trimmed(e)
  {
    if AddEntry(list, answer).Some? {
      var r := AddEntry(list, answer).value;
      forall i, j | 0 <= i < j < |r| ensures r[i] != r[j] {
        if j == |list| {
          assert r[i] == list[i];
        }
      }
    }
  }

  /** Giving the same answer twice adds it once. */
  lemma AddEntryTwice(list: seq<string>, answer: Option<string>)
    requires AddEntry(list, answer).Some?
    ensures AddEntry(AddEntry(list, answer).value, answer).None?
  {
    var r := AddEntry(list, answer).value;
    assert r[|list|] == Trim(answer.value);
  }

  /** `[...list].splice(index, 1)` applied to a copy: the start counts from the
      end when negative and is clamped to the list, and one element at the start,
      if there is one, is removed. */
  function Splice1(list: seq<string>, index: int): seq<string> {
    var start := if index < 0 then (if |list| + index < 0 then 0 else |list| + index)
                 else (if index > |list| then |list| else index);
    if start < |list| then list[..start] + list[start + 1..] else list
  }

  /** An index inside the list removes exactly that element and keeps the order
      of the rest; an index past the end changes nothing. */
  lemma Splice1InRange(list: seq<string>, index: int)
    ensures 0 <= index < |list| ==> Splice1(list, index) == list[..index] + list[index + 1..]
    ensures 0 <= index < |list| ==> |Splice1(list, index)| == |list| - 1
    ensures 0 <= index < |list| ==> multiset(Splice1(list, index)) + multiset{list[index]} == multiset(list)
    ensures index >= |list| ==> Splice1(list, index) == list
  {
    if 0 <= index < |list| {
      assert list == list[..index] + [list[index]] + list[index + 1..];
    }
  }

  /** A negative index counts from the end, and one before the start removes the first element. */
  lemma Splice1Negative(list: seq<string>, index: int)
    requires index < 0 && |list| > 0
    ensures -|list| <= index ==> Splice1(list, index) == list[..|list| + index] + list[|list| + index + 1..]
    ensures index < -|list| ==> Splice1(list, index) == list[1..]
  {
  }

  // ---------------------------------------------------------------------------
  // The placeholder shown while an article is generated

  const GeneratingTitlePrefix: string := "Generando artículo sobre: "
  const GeneratingContentHead: string :=
    "# Generando contenido...\n\n⏳ El artículo se está generando usando IA. Por favor espera...\n\n**Tema:** "

  /** `handleGeneratingMode`'s temporary article for the request the generator
      form passed along; `now` stands for `new Date()`. */
  function Placeholder(request: GenerateRequest, now: string): Article {
    Article(
      GeneratingId,
      GeneratingTitlePrefix + request.topic,
      "", "",
      GeneratingContentHead + request.topic + "\n**Segmento:** " + request.segment + "\n**Autor:** " + request.author,
      request.segment, [], "", request.author, [], None, StatusName(Draft), now, now)
  }

  /** The placeholder is a draft with the request's segment and author, titled
      after the topic, without tags or sources. */
  lemma PlaceholderShape(request: GenerateRequest, now: string)
    ensures var a := Placeholder(request, now);
      && a.id == GeneratingId && a.status == "draft"
      && a.segment == request.segment && a.author == request.author
      && a.tags == [] && a.sources == [] && a.imageUrl.None?
      && a.title[..|GeneratingTitlePrefix|] == GeneratingTitlePrefix
      && a.title[|GeneratingTitlePrefix|..] == request.topic
  {
    var a := Placeholder(request, now);
    assert a.title == GeneratingTitlePrefix + request.topic;
  }

  // ---------------------------------------------------------------------------
  // The page

  class ArticleEditor {
    var article: Option<Article>
    var isLoading: bool
    var isSaving: bool
    var error: Option<string>
    var hasUnsavedChanges: bool

    /** The signals' initial values. */
    constructor()
      ensures article.None? && isLoading && !isSaving && error.None? && !hasUnsavedChanges
    {
      article := None;
      isLoading := true;
      isSaving := false;
      error := None;
      hasUnsavedChanges := false;
    }

    /** `currentStatus()`: the article's status, or "draft" when there is no
        article or its status is empty. */
    function CurrentStatus(): (status: string)
      reads this
      ensures status != ""
      ensures article.Some? && article.value.status != "" ==> status == article.value.status
      ensures article.None? || article.value.status == "" ==> status == StatusName(Draft)
    {
      if article.Some? && article.value.status != "" then article.value.status else StatusName(Draft)
    }

    /** The auto-save timer's guard: unsaved changes, an article, no save running. */
    predicate AutoSaveDue()
      reads this
    {
      hasUnsavedChanges && article.Some? && !isSaving
    }

    /** `ngOnInit()`: `id` is the route's `id` parameter and `request` the
        navigation state's request. Returns the id to load, if any. */
    method Init(id: Option<string>, request: Option<GenerateRequest>, now: string) returns (load: Option<string>)
      modifies this
      ensures isSaving == old(isSaving) && hasUnsavedChanges == old(hasUnsavedChanges)
      ensures id == Some(GeneratingId) ==> load.None? && isLoading && error.None?
      ensures id == Some(GeneratingId) && request.Some? ==> article == Some(Placeholder(request.value, now))
      ensures id == Some(GeneratingId) && request.None? ==> article == old(article)
      ensures id.Some? && id.value != "" && id.value != GeneratingId ==>
        load == id && isLoading && error.None? && article == old(article)
      ensures id.None? || id.value == "" ==>
        load.None? && !isLoading && error == Some(MissingId) && article == old(article)
    {
      load := None;
      if id == Some(GeneratingId) {
        isLoading := true;
        error := None;
        if request.Some? {
          article := Some(Placeholder(request.value, now));
        }
      } else if id.Some? && id.value != "" {
        isLoading := true;
        error := None;
        load := id;
      } else {
        isLoading := false;
        error := Some(MissingId);
      }
    }

    /** `loadArticle(id)` after its `await`: the article on success, a message
        otherwise; loading ends on every path. */
    method FinishLoad(outcome: Outcome<Article>)
      modifies this
      ensures !isLoading && isSaving == old(isSaving)
      ensures Delivered(outcome) ==>
        article == outcome.response.data && !hasUnsavedChanges && error == old(error)
      ensures !Delivered(outcome) ==> article == old(article) && hasUnsavedChanges == old(hasUnsavedChanges)
      ensures outcome.Answered? && !Delivered(outcome) ==> error == Some(OrElse(outcome.response.error, NotFound))
      ensures outcome.ConnectionFailed? ==> error == Some(LoadConnectionFailed)
    {
      isLoading := false;
      match outcome
      case Answered(response) =>
        if response.success && response.data.Some? {
          article := response.data;
          hasUnsavedChanges := false;
        } else {
          error := Some(OrElse(response.error, NotFound));
        }
      case ConnectionFailed =>
        error := Some(LoadConnectionFailed);
    }

    /** `saveArticle(isAutoSave)` up to its `await`. `editorContent` is the
        Markdown editor's text when the editor exists; it is written into the
        article object itself, which the page still holds. Returns the article
        sent, or `None` when there is no article. */
    method StartSave(editorContent: Option<string>) returns (sent: Option<Article>)
      modifies this
      ensures isLoading == old(isLoading) && hasUnsavedChanges == old(hasUnsavedChanges)
      ensures old(article).None? ==>
        sent.None? && article.None? && isSaving == old(isSaving) && error == old(error)
      ensures old(article).Some? ==>
        && sent == article && isSaving && error.None?
        && article == Some(if editorContent.Some? then old(article).value.(content := editorContent.value) else old(article).value)
    {
      sent := None;
      if article.None? {
        return;
      }
      isSaving := true;
      error := None;
      if editorContent.Some? {
        article := Some(article.value.(content := editorContent.value));
      }
      sent := article;
    }

    /** `saveArticle(isAutoSave)` after its `await`: the saved article replaces
        the local one and the changes count as saved; a failure keeps them
        unsaved with a message; saving ends on every path. */
    method FinishSave(outcome: Outcome<Article>, isAutoSave: bool)
      modifies this
      ensures !isSaving && isLoading == old(isLoading)
      ensures Delivered(outcome) ==> article == outcome.response.data && !hasUnsavedChanges
      ensures Delivered(outcome) ==> error == (if isAutoSave then old(error) else Some(Saved))
      ensures !Delivered(outcome) ==> article == old(article) && hasUnsavedChanges == old(hasUnsavedChanges)
      ensures outcome.Answered? && !Delivered(outcome) ==> error == Some(OrElse(outcome.response.error, SaveFailed))
      ensures outcome.ConnectionFailed? ==> error == Some(SaveConnectionFailed)
    {
      isSaving := false;
      match outcome
      case Answered(response) =>
        if response.success && response.data.Some? {
          article := response.data;
          hasUnsavedChanges := false;
          if !isAutoSave {
            error := Some(Saved);
          }
        } else {
          error := Some(OrElse(response.error, SaveFailed));
        }
      case ConnectionFailed =>
        error := Some(SaveConnectionFailed);
    }

    /** One tick of the auto-save timer: a save starts only when it is due, and
        then it is the save `saveArticle(true)` starts. */
    method AutoSaveTick(editorContent: Option<string>) returns (sent: Option<Article>)
      modifies this
      ensures sent.Some? <==> old(AutoSaveDue())
      ensures isLoading == old(isLoading) && hasUnsavedChanges == old(hasUnsavedChanges)
      ensures !old(AutoSaveDue()) ==>
        article == old(article) && isSaving == old(isSaving) && error == old(error)
      ensures old(AutoSaveDue()) ==>
        && sent == article && isSaving && hasUnsavedChanges && error.None?
        && article == Some(if editorContent.Some? then old(article).value.(content := editorContent.value) else old(article).value)
    {
      sent := None;
      if AutoSaveDue() {
        sent := StartSave(editorContent);
      }
    }

    /** `updateField(field, value)`: with an article, that field changes and the
        article is marked unsaved; without one, nothing changes. */
    method UpdateField(e: Edit)
      modifies this
      ensures isLoading == old(isLoading) && isSaving == old(isSaving) && error == old(error)
      ensures old(article).Some? ==> article == Some(Apply(old(article).value, e)) && hasUnsavedChanges
      ensures old(article).None? ==> article.None? && hasUnsavedChanges == old(hasUnsavedChanges)
    {
      if article.Some? {
        article := Some(Apply(article.value, e));
        hasUnsavedChanges := true;
      }
    }

    /** `addTag()` (`list` is `Tags`) or `addSource()` (`Sources`), with the
        `prompt` answer: a new entry is appended through `updateField`; otherwise
        nothing changes, not even the unsaved flag. */
    method AddEntryTo(list: ListField, answer: Option<string>)
      modifies this
      ensures isLoading == old(isLoading) && isSaving == old(isSaving) && error == old(error)
      ensures old(article).Some? && AddEntry(GetList(old(article).value, list), answer).Some? ==>
        && article == Some(Apply(old(article).value, SetList(list, AddEntry(GetList(old(article).value, list), answer).value)))
        && hasUnsavedChanges
      ensures old(article).None? || AddEntry(GetList(old(article).value, list), answer).None? ==>
        article == old(article) && hasUnsavedChanges == old(hasUnsavedChanges)
    {
      if article.Some? {
        var added := AddEntry(GetList(article.value, list), answer);
        if added.Some? {
          UpdateField(SetList(list, added.value));
        }
      }
    }

    /** `removeTag(index)` (`list` is `Tags`) or `removeSource(index)`
        (`Sources`): the spliced copy is written through `updateField`, so the
        article is marked unsaved even when the index removes nothing. */
    method RemoveEntryFrom(list: ListField, index: int)
      modifies this
      ensures isLoading == old(isLoading) && isSaving == old(isSaving) && error == old(error)
      ensures old(article).Some? ==>
        && article == Some(Apply(old(article).value, SetList(list, Splice1(GetList(old(article).value, list), index))))
        && hasUnsavedChanges
      ensures old(article).None? ==> article.None? && hasUnsavedChanges == old(hasUnsavedChanges)
    {
      if article.Some? {
        UpdateField(SetList(list, Splice1(GetList(article.value, list), index)));
      }
    }

    /** `goBack()` with the `confirm` answer: whether the page navigates to the
        list. Leaving is only asked about with unsaved changes. */
    method GoBack(confirmed: bool) returns (navigate: bool)
      ensures navigate <==> !hasUnsavedChanges || confirmed
    {
      navigate := true;
      if hasUnsavedChanges && !confirmed {
        navigate := false;
      }
    }

    /** `deleteArticle()` up to its `await`, with the `confirm` answer: returns
        the id to delete, or `None` when there is no article or the user declines. */
    method StartDelete(confirmed: bool) returns (id: Option<string>)
      modifies this
      ensures article == old(article) && error == old(error) && isLoading == old(isLoading)
      ensures hasUnsavedChanges == old(hasUnsavedChanges)
      ensures id.Some? <==> old(article).Some? && confirmed
      ensures id.Some? ==> id.value == article.value.id && isSaving
      ensures id.None? ==> isSaving == old(isSaving)
    {
      id := None;
      if article.None? || !confirmed {
        return;
      }
      isSaving := true;
      id := Some(article.value.id);
    }

    /** `deleteArticle()` after its `await`: whether the page navigates to the
        list, which it does only on success; saving ends on every path. */
    method FinishDelete(outcome: Outcome<()>) returns (navigate: bool)
      modifies this
      ensures !isSaving && article == old(article) && isLoading == old(isLoading)
      ensures hasUnsavedChanges == old(hasUnsavedChanges)
      ensures navigate <==> outcome.Answered? && outcome.response.success
      ensures navigate ==> error == old(error)
      ensures outcome.Answered? && !outcome.response.success ==> error == Some(OrElse(outcome.response.error, DeleteFailed))
      ensures outcome.ConnectionFailed? ==> error == Some(DeleteConnectionFailed)
    {
      navigate := false;
      isSaving := false;
      match outcome
      case Answered(response) =>
        if response.success {
          navigate := true;
        } else {
          error := Some(OrElse(response.error, DeleteFailed));
        }
      case ConnectionFailed =>
        error := Some(DeleteConnectionFailed);
    }
  }
}
