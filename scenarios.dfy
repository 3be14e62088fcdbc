/** Client code chaining the operations through typical sessions: the
    create/search, update/list and delete/get scenarios of the catalogue, and
    one pass through the list view and the edit form. The methods are used
    through their contracts; the pure functions are unfolded where a concrete
    fact needs their definitions. */
module Scenarios {
  import opened Text
  import opened Seqs
  import opened RecipeService
  import opened RecipeList
  import opened RecipeForm

  /** A query that is not blank finds a lone record exactly when its title
      contains the query. */
  lemma SearchOne(r: Recipe, q: string)
    requires !IsBlank(q)
    ensures SearchRecipes(Valid([r]), q) == if Includes(ToLower(r.title), ToLower(q)) then [r] else []
  {
    FilterKeepsAll([r], TitleContains(q));
  }

  /** "tomato soup" holds no slice equal to `q` when no position at which
      `q` could start holds the first character of `q`. */
  lemma NotInTomatoSoup(q: string)
    requires 1 <= |q| <= 11
    requires forall i :: 0 <= i <= 11 - |q| ==> "tomato soup"[i] != q[0]
    ensures !Includes("tomato soup", q)
  {
    var s := "tomato soup";
    forall i | 0 <= i <= |s| - |q| ensures !OccursAt(s, q, i) {
      assert s[i..i + |q|][0] == s[i];
    }
  }

  /** A query whose first character is not whitespace is not blank. */
  lemma NotBlank(q: string)
    requires |q| >= 1 && !IsWhitespace(q[0])
    ensures !IsBlank(q)
  {
  }

  lemma LowerTomatoSoup()
    ensures ToLower("Tomato Soup") == "tomato soup"
  {
    var s := ToLower("Tomato Soup");
    assert LowerChar('T') == 't' && LowerChar('S') == 's';
    assert |s| == 11 && forall i :: 0 <= i < 11 ==> s[i] == "tomato soup"[i];
  }

  lemma LowerTomato()
    ensures ToLower("tomato") == "tomato" && ToLower("pasta") == "pasta"
  {
    var t, p := ToLower("tomato"), ToLower("pasta");
    assert |t| == 6 && forall i :: 0 <= i < 6 ==> t[i] == "tomato"[i];
    assert |p| == 5 && forall i :: 0 <= i < 5 ==> p[i] == "pasta"[i];
  }

  lemma TomatoHit(r: Recipe)
    requires r.title == "Tomato Soup"
    ensures SearchRecipes(Valid([r]), "tomato") == [r]
  {
    NotBlank("tomato");
    LowerTomatoSoup();
    LowerTomato();
    assert OccursAt("tomato soup", "tomato", 0);
    SearchOne(r, "tomato");
  }

  lemma PastaMiss(r: Recipe)
    requires r.title == "Tomato Soup"
    ensures SearchRecipes(Valid([r]), "pasta") == []
  {
    NotBlank("pasta");
    LowerTomatoSoup();
    LowerTomato();
    NotInTomatoSoup("pasta");
    SearchOne(r, "pasta");
  }

  method CreateThenSearch() {
    var store := new RecipeStore(Absent);
    var soup := RecipeData("Tomato Soup", "Boil tomatoes", "", "", "20 min");
    var out := store.Create(soup, "a1", 1000, 1000, true);
    var r := out.value;
    assert store.blob == Valid([r]) && r.title == "Tomato Soup";
    TomatoHit(r);
    PastaMiss(r);
    assert SearchRecipes(store.blob, "tomato") == [r] && SearchRecipes(store.blob, "pasta") == [];
  }

  method UpdateThenList() {
    var store := new RecipeStore(Absent);
    var draft := RecipeData("Draft", "Mix", "", "", "");
    var created := store.Create(draft, "a1", 1000, 1000, true);
    var patch := PartialData(Some("Final"), None, None, None, None);
    var updated := store.Update("a1", patch, 2000, true);
    var all := AllRecipes(store.blob);
    assert |all| == 1 && all[0].title == "Final" && all[0].instructions == "Mix";
    assert all[0].createdAt == 1000 && all[0].updatedAt > 1000;
    assert updated == Returned(Some(all[0]));

    var missing := store.Update("zz", patch, 3000, true);
    assert missing == Returned(None) && AllRecipes(store.blob) == all;
  }

  method DeleteThenGet() {
    var store := new RecipeStore(Malformed);
    var created := store.Create(RecipeData("Bread", "Bake", "", "", ""), "b7", 5, 5, true);
    assert AllRecipes(store.blob)[0].id == "b7";
    var deleted := store.Delete("b7", true);
    assert deleted == Returned(true);
    DeleteLeavesNoMatch(Valid([created.value]), "b7", true);
    assert GetRecipeById(store.blob, "b7") == None;
    var again := store.Delete("b7", true);
    assert again == Returned(false);
  }

  method FailedWriteKeepsStore() {
    var store := new RecipeStore(Absent);
    var out := store.Create(RecipeData("Tea", "Steep", "", "", ""), "t1", 0, 0, false);
    assert out == Threw("Failed to create recipe") && store.blob == Absent;
  }

  method ViewLoadAndDelete() {
    var store := new RecipeStore(Absent);
    var created := store.Create(RecipeData("Soup", "Boil", "", "", ""), "a1", 0, 0, true);
    var r := created.value;
    var view := new RecipeListView(store);
    view.LoadRecipes();
    assert view.recipes == [r] && !view.loading;

    var out := view.HandleDelete("a1", false, true);
    assert out == None && view.recipes == [r];
    assert HasId(AllRecipes(store.blob), "a1") by { assert AllRecipes(store.blob)[0].id == "a1"; }
    out := view.HandleDelete("a1", true, true);
    assert out == Some(Returned(true)) && view.recipes == [] && store.blob == Valid([]);
  }

  method EditThroughForm() {
    var store := new RecipeStore(Absent);
    var created := store.Create(RecipeData("Soup", "Boil", "", "", ""), "a1", 0, 0, true);
    var r := created.value;
    var form := new RecipeFormView(store, PartialData(None, None, None, None, None), Some("a1"), Update, false, true);
    assert form.formData == EmptyForm;
    form.LoadForUpdate();
    assert form.formData == DataOf(r);
    form.HandleChange(Title, "Pea Soup");
    var edited := RecipeData("Pea Soup", "Boil", "", "", "");
    assert form.formData == edited;
    var effects := form.HandleSubmit("unused", 0, 0, 60000, true);
    assert effects == SubmitEffects(UpdateCall("a1", edited), false, true);
    var after := AllRecipes(store.blob);
    assert |after| == 1 && DataOf(after[0]) == edited;
    assert after[0].createdAt == 0 && after[0].updatedAt == 60000;
  }
}
