/** The entry form of src/RecipeForm.tsx, shared by "add" and "update": its
    state (`formData`, `loading`, `error`), the initial defaulting, the
    update-mode prefill, the one-field change handler and the submit dispatch.
    `handleSubmit` awaits nothing, so it runs start to finish in one step.
    Optional callbacks are modelled by whether they were passed and, in the
    result of a submit, whether they were invoked. */
module RecipeForm {
  import opened RecipeService

  datatype Mode = Add | Update

  /** The `name` attributes of the five inputs. */
  datatype Field = Title | Instructions | ImageUrl | Nutrients | CookingTime

  const SaveError: string := "An error occurred while saving the recipe."

  const EmptyForm: RecipeData := RecipeData("", "", "", "", "")

  function FieldOf(d: RecipeData, f: Field): string {
    match f
    case Title => d.title
    case Instructions => d.instructions
    case ImageUrl => d.imageUrl
    case Nutrients => d.nutrients
    case CookingTime => d.cookingTime
  }

  function PartialFieldOf(p: PartialData, f: Field): Option<string> {
    match f
    case Title => p.title
    case Instructions => p.instructions
    case ImageUrl => p.imageUrl
    case Nutrients => p.nutrients
    case CookingTime => p.cookingTime
  }

  /** `value || ''` on an optional string: a missing value and the (falsy)
      empty string both give the empty string, so the result is simply the
      value when there is one. */
  function OrEmpty(o: Option<string>): (s: string)
    ensures s == o.GetOr("")
  {
    if o.Some? && o.value != "" then o.value else ""
  }

  /** The initial `formData`: each field from `initialData` when it carries
      one, the empty string otherwise. An omitted `initialData` prop is the
      object with no keys. */
  function InitialFormData(initialData: PartialData): (d: RecipeData)
    ensures forall f :: FieldOf(d, f) == PartialFieldOf(initialData, f).GetOr("")
  {
    RecipeData(
      OrEmpty(initialData.title),
      OrEmpty(initialData.instructions),
      OrEmpty(initialData.imageUrl),
      OrEmpty(initialData.nutrients),
      OrEmpty(initialData.cookingTime))
  }

  /** `{...prev, [name]: value}`: the named field takes the new value, the other four keep theirs. */
  function WithField(d: RecipeData, f: Field, v: string): (r: RecipeData)
    ensures forall g :: FieldOf(r, g) == if g == f then v else FieldOf(d, g)
  {
    match f
    case Title => d.(title := v)
    case Instructions => d.(instructions := v)
    case ImageUrl => d.(imageUrl := v)
    case Nutrients => d.(nutrients := v)
    case CookingTime => d.(cookingTime := v)
  }

  /** Submitting an update-mode form right after the prefill, without editing
      it, writes the record's own five fields back: the stored record at the
      first match changes only in its update time and nothing else changes. */
  lemma ResubmitPrefilledForm(b: Blob, id: string, now: int, i: int)
    requires IsFirstMatch(AllRecipes(b), id, i)
    ensures var prefill := DataOf(GetRecipeById(b, id).value);
      var rs := AllRecipes(b);
      AllRecipes(UpdateSpec(b, id, Supplied(prefill), now, true).blob) == rs[i := rs[i].(updatedAt := now)]
  {
    var rs := AllRecipes(b);
    assert GetRecipeById(b, id) == Some(rs[i]);
    UpdateChangesFirstMatchOnly(b, id, Supplied(DataOf(rs[i])), now, i);
    var after := AllRecipes(UpdateSpec(b, id, Supplied(DataOf(rs[i])), now, true).blob);
    assert after[i] == rs[i].(updatedAt := now);
    assert after == rs[i := rs[i].(updatedAt := now)];
  }

  /** Which store operation a submit invoked, with its arguments. */
  datatype StoreCall = NoCall | CreateCall(data: RecipeData) | UpdateCall(id: string, data: RecipeData)

  /** What a submit did beyond the form's own state: the store call, and
      whether `onSubmit` and `onSuccess` were invoked. */
  datatype SubmitEffects = SubmitEffects(call: StoreCall, submitCalled: bool, successCalled: bool)

  /** One mounted `RecipeForm`: its props and its state. */
  class RecipeFormView {
    const store: RecipeStore
    const mode: Mode
    const recipeId: Option<string>
    const hasOnSubmit: bool
    const hasOnSuccess: bool
    var formData: RecipeData
    var loading: bool
    var error: Option<string>

    /** The initial `useState` values; a mode left out of the props is `Add`. */
    constructor (store: RecipeStore, initialData: PartialData, recipeId: Option<string>, mode: Mode,
                 hasOnSubmit: bool, hasOnSuccess: bool)
      ensures this.store == store && this.mode == mode && this.recipeId == recipeId
      ensures this.hasOnSubmit == hasOnSubmit && this.hasOnSuccess == hasOnSuccess
      ensures formData == InitialFormData(initialData) && !loading && error == None
    {
      this.store := store;
      this.mode := mode;
      this.recipeId := recipeId;
      this.hasOnSubmit := hasOnSubmit;
      this.hasOnSuccess := hasOnSuccess;
      formData := InitialFormData(initialData);
      loading := false;
      error := None;
    }

    /** `recipeId` is truthy: an omitted prop and the empty string are the
        two falsy values a `string | undefined` can take. */
    function HasRecipeId(): (b: bool)
      ensures b <==> recipeId.GetOr("") != ""
    {
      recipeId.Some? && recipeId.value != ""
    }

    /** The update-mode effect: replace the form data by the stored record's
        five fields when the store has the record, otherwise keep it. */
    method LoadForUpdate()
      modifies this
      ensures mode == Update && HasRecipeId() && GetRecipeById(store.blob, recipeId.value).Some? ==>
                formData == DataOf(GetRecipeById(store.blob, recipeId.value).value)
      ensures !(mode == Update && HasRecipeId() && GetRecipeById(store.blob, recipeId.value).Some?) ==>
                formData == old(formData)
      ensures loading == old(loading) && error == old(error)
    {
      if mode == Update && HasRecipeId() {
        var recipe := GetRecipeById(store.blob, recipeId.value);
        if recipe.Some? {
          formData := DataOf(recipe.value);
        }
      }
    }

    /** `handleChange`: the input named `field` now holds `value`. */
    method HandleChange(field: Field, value: string)
      modifies this
      ensures formData == WithField(old(formData), field, value)
      ensures FieldOf(formData, field) == value
      ensures forall g :: g != field ==> FieldOf(formData, g) == FieldOf(old(formData), g)
      ensures loading == old(loading) && error == old(error)
    {
      formData := WithField(formData, field, value);
    }

    /** `handleSubmit`. In add mode the store creates one record from the form
        data (with the fresh id and the two clock readings) and the form is
        cleared; in update mode with an id the store overlays all five fields
        onto that record (with the clock reading `now`) and the form is kept;
        in update mode without an id there is no store call. A store error
        becomes the inline message, skips the callbacks and the reset. `error`
        is cleared on entry and `loading` is false on exit. */
    method HandleSubmit(freshId: string, createdClock: int, updatedClock: int, now: int, writeOk: bool)
      returns (effects: SubmitEffects)
      modifies this, store
      ensures !loading
      ensures mode == Add ==>
        var s := CreateSpec(old(store.blob), old(formData), freshId, createdClock, updatedClock, writeOk);
        && effects.call == CreateCall(old(formData))
        && store.blob == s.blob
        && if s.out.Returned? then
             formData == EmptyForm && error == None
             && effects.submitCalled == hasOnSubmit && effects.successCalled == hasOnSuccess
           else
             formData == old(formData) && error == Some(SaveError)
             && !effects.submitCalled && !effects.successCalled
      ensures mode == Update && HasRecipeId() ==>
        var s := UpdateSpec(old(store.blob), recipeId.value, Supplied(old(formData)), now, writeOk);
        && effects.call == UpdateCall(recipeId.value, old(formData))
        && store.blob == s.blob
        && formData == old(formData)
        && if s.out.Returned? then
             error == None && effects.submitCalled == hasOnSubmit && effects.successCalled == hasOnSuccess
           else
             error == Some(SaveError) && !effects.submitCalled && !effects.successCalled
      ensures mode == Update && !HasRecipeId() ==>
        && effects.call == NoCall
        && store.blob == old(store.blob)
        && formData == old(formData) && error == None
        && !effects.submitCalled && effects.successCalled == hasOnSuccess
    {
      loading := true;
      error := None;
      var call := NoCall;
      var submitted := false;
      var threw := false;
      if mode == Add {
        call := CreateCall(formData);
        var created := store.Create(formData, freshId, createdClock, updatedClock, writeOk);
        if created.Threw? {
          threw := true;
        } else {
          submitted := hasOnSubmit;
          formData := EmptyForm;
        }
      } else if mode == Update && HasRecipeId() {
        call := UpdateCall(recipeId.value, formData);
        var updated := store.Update(recipeId.value, Supplied(formData), now, writeOk);
        if updated.Threw? {
          threw := true;
        } else {
          submitted := hasOnSubmit;
        }
      }
      var succeeded := false;
      if threw {
        error := Some(SaveError);
      } else {
        succeeded := hasOnSuccess;
      }
      loading := false;
      effects := SubmitEffects(call, submitted, succeeded);
    }
  }
}
