/**
 * `src/composables/useArticleEditor.ts`: the editing form, its validation, and the submit that
 * creates or updates a record of the browser store (`src/data/articles.ts`).  Today's date is
 * an input.
 */
module ArticleEditor {
  import opened Wrappers
  import opened Text
  import opened ArticleTypes
  import opened DataArticles

  /** The cover a fresh form starts with. */
  const FormCover: string := "linear-gradient(135deg, #0a0f26 0%, #0c1a4d 35%, #032c5f 65%, #0c1a4d 100%)"

  /** The field values of a fresh or reset form, with the id it keeps. */
  function DefaultForm(id: Option<int>, today: string): (f: Form)
    ensures f.id == id && f.date == today
  {
    Form(id, "", "", "", "dit", "", Some(""), today, "Wechat", FormCover)
  }

  /** `validateForm()`: the text fields must not be blank, the category and the date must not
      be empty; the badge is never looked at. */
  predicate ValidForm(f: Form) {
    && !IsBlank(f.title) && !IsBlank(f.description) && !IsBlank(f.content)
    && f.categoryKey != [] && !IsBlank(f.tag) && f.date != []
    && !IsBlank(f.platform) && !IsBlank(f.cover)
  }

  /** A fresh or reset form is not valid: its title is empty. */
  lemma DefaultFormInvalid(id: Option<int>, today: string)
    ensures !ValidForm(DefaultForm(id, today))
  {
    assert Trim("") == [];
  }

  /** The badge does not take part in validation. */
  lemma BadgeNeverChecked(f: Form, badge: Option<string>)
    ensures ValidForm(f.(badge := badge)) == ValidForm(f)
  {
  }

  /** A category or date of white space passes, where a title of white space does not: only
      emptiness is checked for those two. */
  lemma SpaceCategoryPasses(f: Form)
    requires ValidForm(f)
    ensures ValidForm(f.(categoryKey := " ", date := " "))
    ensures !ValidForm(f.(title := " "))
  {
    assert IsSpace(' ');
    assert TrimStart(" ") == [];
  }

  /** `loadArticle(article)`: every field, the id included, copied into the form. */
  function FormOf(a: DataArticle): (f: Form)
    ensures f.id == Some(IdOf(a))
  {
    Form(Some(IdOf(a)), a.title, a.description, a.content, a.categoryKey, a.tag, a.badge, a.date, a.platform, a.cover)
  }

  /** `form as Article` given to `updateArticle`: every field present. */
  function FormPatch(f: Form): Patch {
    Patch(Some(f.title), Some(f.description), Some(f.content), Some(f.categoryKey), Some(f.tag),
          Some(f.badge), Some(f.date), Some(f.platform), Some(f.cover))
  }

  /** Saving a form loaded from a record gives the record back. */
  lemma LoadThenPatchRestores(a: DataArticle)
    ensures ApplyPatch(a, FormPatch(FormOf(a))) == a
  {
  }

  /** Where `handleSubmit` sends a form. */
  datatype Route = Rejected | ToUpdate(id: int, patch: Patch) | ToCreate(data: Form)

  /** An invalid form goes nowhere; a truthy id is an update, anything else a create. */
  function RouteOf(f: Form): (r: Route)
    ensures r.Rejected? <==> !ValidForm(f)
    ensures r.ToUpdate? <==> ValidForm(f) && f.id.Some? && f.id.value != 0
    ensures r.ToUpdate? ==> r.id == f.id.value && forall a :: ApplyPatch(a, r.patch) == a.(
              title := f.title, description := f.description, content := f.content,
              categoryKey := f.categoryKey, tag := f.tag, badge := f.badge, date := f.date,
              platform := f.platform, cover := f.cover)
    ensures r.ToCreate? ==> r.data == f
  {
    if !ValidForm(f) then Rejected
    else if f.id.Some? && f.id.value != 0 then ToUpdate(f.id.value, FormPatch(f))
    else ToCreate(f)
  }

  /** The form of `useArticleEditor` and its `isSubmitting` flag. */
  class Editor {
    var form: Form
    var isSubmitting: bool

    constructor(today: string)
      ensures form == DefaultForm(None, today) && !isSubmitting
    {
      form := DefaultForm(None, today);
      isSubmitting := false;
    }

    /** `resetForm()`: the defaults again, but the id stays. */
    method ResetForm(today: string)
      modifies this
      ensures form == DefaultForm(old(form).id, today) && isSubmitting == old(isSubmitting)
    {
      form := form.(title := "", description := "", content := "", categoryKey := "dit", tag := "",
                    badge := Some(""), date := today, platform := "Wechat", cover := FormCover);
    }

    /** `loadArticle(article)` */
    method LoadArticle(a: DataArticle)
      modifies this
      ensures form == FormOf(a) && isSubmitting == old(isSubmitting)
    {
      form := form.(id := Some(IdOf(a)));
      form := form.(title := a.title, description := a.description, content := a.content);
      form := form.(categoryKey := a.categoryKey, tag := a.tag, badge := a.badge, date := a.date);
      form := form.(platform := a.platform, cover := a.cover);
    }

    /** `handleSubmit()`: `null` for an invalid form, otherwise the saved record, or the error
        `updateArticle` throws; `isSubmitting` is clear again however it ends. */
    method HandleSubmit(store: Store) returns (r: Result<Option<DataArticle>, UpdateError>)
      modifies this, store
      ensures form == old(form)
      ensures RouteOf(old(form)).Rejected? ==> r == Ok(None) && unchanged(this) && unchanged(store)
      ensures !RouteOf(old(form)).Rejected? ==> !isSubmitting
      ensures RouteOf(old(form)).ToCreate? ==>
                var created := NewArticle(old(store.articles), old(form));
                && r == Ok(Some(created))
                && store.articles == old(store.articles) + [created] && store.Persisted()
      ensures RouteOf(old(form)).ToUpdate? ==>
                var id := old(form).id.value;
                var k := FindIndex(old(store.articles), id);
                && (k < 0 ==> r == Err(NotFound(id)) && unchanged(store))
                && (k >= 0 ==> && r == Ok(Some(ApplyPatch(old(store.articles)[k], FormPatch(old(form)))))
                               && store.articles == old(store.articles)[k := r.value.value]
                               && store.Persisted())
    {
      if !ValidForm(form) {
        return Ok(None);
      }
      isSubmitting := true;
      if form.id.Some? && form.id.value != 0 {
        var updated := store.UpdateArticle(form.id.value, FormPatch(form));
        match updated {
          case Err(e) => r := Err(e);
          case Ok(a) => r := Ok(Some(a));
        }
      } else {
        var created := store.CreateArticle(form);
        r := Ok(Some(created));
      }
      isSubmitting := false;
    }
  }
}
