/** The data flow of the recipe list in src/RecipeList.tsx: the relative age
    shown on each card, and the view state (`recipes`, `loading`, `searchTerm`,
    `selectedRecipe`) that its handlers update from the store. React state
    setters are taken as immediate assignments in program order. */
module RecipeList {
  import opened Text
  import opened RecipeService

  // ---------------------------------------------------------------------------
  // Relative age

  datatype TimeUnit = Second | Minute | Hour | Day | Month | Year

  /** A count of whole units, as `getTimeAgo` picks it. */
  datatype Age = Age(count: int, unit: TimeUnit)

  /** `Math.floor((now - timestamp) / 1000)`: whole seconds elapsed, rounded
      down, so a timestamp in the future gives a negative count. */
  function ElapsedSeconds(timestamp: int, now: int): (s: int)
    ensures 1000 * s <= now - timestamp < 1000 * s + 1000
  {
    (now - timestamp) / 1000
  }

  /** How many seconds one unit stands for (a month is 30 days, a year 12 months). */
  function UnitSeconds(u: TimeUnit): nat {
    match u
    case Second => 1
    case Minute => 60
    case Hour => 3600
    case Day => 86400
    case Month => 2592000
    case Year => 31104000
  }

  /** The cascade of `getTimeAgo`: the first unit whose count is below its
      threshold (60 seconds, 60 minutes, 24 hours, 30 days, 12 months), else
      years. Stated on the elapsed seconds: each unit covers one range of them,
      the ranges meet without gap or overlap, years have no upper bound, and
      the count is the elapsed time in that unit, rounded down. */
  function AgeOf(timestamp: int, now: int): (a: Age)
    ensures var s := ElapsedSeconds(timestamp, now);
      && (a.unit == Second <==> s < 60)
      && (a.unit == Minute <==> 60 <= s < 3600)
      && (a.unit == Hour <==> 3600 <= s < 86400)
      && (a.unit == Day <==> 86400 <= s < 2592000)
      && (a.unit == Month <==> 2592000 <= s < 31104000)
      && (a.unit == Year <==> 31104000 <= s)
      && a.count == s / UnitSeconds(a.unit)
  {
    var seconds := ElapsedSeconds(timestamp, now);
    assert seconds >= 60 ==> seconds / 60 / 60 == seconds / 3600;
    assert seconds >= 60 ==> seconds / 60 / 60 / 24 == seconds / 86400;
    assert seconds >= 60 ==> seconds / 60 / 60 / 24 / 30 == seconds / 2592000;
    assert seconds >= 60 ==> seconds / 60 / 60 / 24 / 30 / 12 == seconds / 31104000;
    if seconds < 60 then Age(seconds, Second)
    else
      var minutes := seconds / 60;
      if minutes < 60 then Age(minutes, Minute)
      else
        var hours := minutes / 60;
        if hours < 24 then Age(hours, Hour)
        else
          var days := hours / 24;
          if days < 30 then Age(days, Day)
          else
            var months := days / 30;
            if months < 12 then Age(months, Month)
            else Age(months / 12, Year)
  }

  /** The unit word each branch of `getTimeAgo` writes after the count. */
  function UnitWord(u: TimeUnit): string {
    match u
    case Second => "second"
    case Minute => "minute"
    case Hour => "hour"
    case Day => "day"
    case Month => "month"
    case Year => "year"
  }

  /** Seconds are always plural; every other unit is singular for a count of 1. */
  predicate IsPlural(a: Age) {
    a.unit == Second || a.count != 1
  }

  /** No unit word ends in `s`, so a trailing `s` always marks the plural. */
  lemma UnitWordEnding(u: TimeUnit)
    ensures |UnitWord(u)| >= 3 && UnitWord(u)[|UnitWord(u)| - 1] != 's'
  {
    match u
    case Second => assert UnitWord(u)[5] == 'd';
    case Minute => assert UnitWord(u)[5] == 'e';
    case Hour => assert UnitWord(u)[3] == 'r';
    case Day => assert UnitWord(u)[2] == 'y';
    case Month => assert UnitWord(u)[4] == 'h';
    case Year => assert UnitWord(u)[3] == 'r';
  }

  /** The text of one age, as the template literals of `getTimeAgo` build it:
      the count, a space, the unit word, and " ago". It ends in "s ago"
      exactly when the age is plural: seconds always, the other units whenever
      the count is not 1 (0, negative and large counts included). */
  function Phrase(a: Age): (p: string)
    ensures |p| > |IntToString(a.count)| && p[..|IntToString(a.count)| + 1] == IntToString(a.count) + " "
    ensures EndsWith(p, " ago")
    ensures EndsWith(p, "s ago") <==> (a.unit == Second || a.count != 1)
  {
    var n, w := IntToString(a.count), UnitWord(a.unit);
    var x := n + " " + w + (if IsPlural(a) then "s" else "");
    var p := x + " ago";
    UnitWordEnding(a.unit);
    assert p[..|n| + 1] == n + " ";
    assert |p| - 5 == |x| - 1;
    assert p[|x| - 1..] == x[|x| - 1..] + " ago";
    assert x[|x| - 1..] == [x[|x| - 1]];
    assert p[|p| - 4..] == " ago";
    assert !IsPlural(a) ==> x[|x| - 1] == w[|w| - 1] && p[|p| - 5..][0] != "s ago"[0];
    p
  }

  /** The first two letters tell the unit words apart. */
  lemma UnitWordStart(u: TimeUnit, v: TimeUnit)
    requires UnitWord(u)[0] == UnitWord(v)[0] && UnitWord(u)[1] == UnitWord(v)[1]
    ensures u == v
  {
    assert UnitWord(Second)[..2] == "se" && UnitWord(Minute)[..2] == "mi" && UnitWord(Hour)[..2] == "ho";
    assert UnitWord(Day)[..2] == "da" && UnitWord(Month)[..2] == "mo" && UnitWord(Year)[..2] == "ye";
  }

  /** What follows the count and its space: the unit word, the plural mark and " ago". */
  function Tail(a: Age): string {
    UnitWord(a.unit) + (if IsPlural(a) then "s" else "") + " ago"
  }

  /** A phrase is the count, a space and the tail, which starts with the unit word's first two letters. */
  lemma PhraseSplits(a: Age)
    ensures Phrase(a) == IntToString(a.count) + " " + Tail(a)
    ensures |Tail(a)| >= 2 && Tail(a)[0] == UnitWord(a.unit)[0] && Tail(a)[1] == UnitWord(a.unit)[1]
  {
    UnitWordEnding(a.unit);
  }

  /** Two ages with the same phrase are the same age: the text shows the count
      and the unit unambiguously. */
  lemma PhraseDeterminesAge(a: Age, b: Age)
    requires Phrase(a) == Phrase(b)
    ensures a == b
  {
    PhraseSplits(a);
    PhraseSplits(b);
    SplitAtSpace(IntToString(a.count), Tail(a), IntToString(b.count), Tail(b));
    IntToStringInjective(a.count, b.count);
    UnitWordStart(a.unit, b.unit);
  }

  /** `getTimeAgo(timestamp)`, with the clock reading `now` as a parameter.
      "`n` seconds ago", with `n` the elapsed seconds, is shown exactly when
      fewer than 60 seconds have elapsed, negative counts included; every
      other text is singular exactly when its count is 1. */
  function GetTimeAgo(timestamp: int, now: int): (r: string)
    ensures var s := ElapsedSeconds(timestamp, now);
      r == IntToString(s) + " seconds ago" <==> s < 60
    ensures EndsWith(r, " ago")
    ensures EndsWith(r, "s ago") <==> ElapsedSeconds(timestamp, now) < 60 || AgeOf(timestamp, now).count != 1
    ensures var n := IntToString(AgeOf(timestamp, now).count); |r| > |n| && r[..|n| + 1] == n + " "
    ensures var a := AgeOf(timestamp, now);
      r == IntToString(a.count) + " " + UnitWord(a.unit) + (if IsPlural(a) then "s" else "") + " ago"
  {
    var s, a := ElapsedSeconds(timestamp, now), AgeOf(timestamp, now);
    SecondsPhraseOnly(a, s);
    PhraseSplits(a);
    Phrase(a)
  }

  /** The text "`s` seconds ago" is the phrase of the age `s` seconds and of no other age. */
  lemma SecondsPhraseOnly(a: Age, s: int)
    ensures Phrase(a) == IntToString(s) + " seconds ago" <==> a == Age(s, Second)
  {
    assert Phrase(Age(s, Second)) == IntToString(s) + " seconds ago";
    if Phrase(a) == Phrase(Age(s, Second)) {
      PhraseDeterminesAge(a, Age(s, Second));
    }
  }

  // ---------------------------------------------------------------------------
  // The view state

  /** The state of one mounted `RecipeList` and the store it reads. */
  class RecipeListView {
    const store: RecipeStore
    var recipes: seq<Recipe>
    var loading: bool
    var searchTerm: string
    var selectedRecipe: Option<Recipe>

    /** The initial `useState` values; mounting then runs `LoadRecipes`. */
    constructor (store: RecipeStore)
      ensures this.store == store
      ensures recipes == [] && loading && searchTerm == "" && selectedRecipe == None
    {
      this.store := store;
      recipes := [];
      loading := true;
      searchTerm := "";
      selectedRecipe := None;
    }

    /** The displayed list is what the store answers to `query` now. */
    ghost predicate Shows(query: string)
      reads this, store
    {
      recipes == SearchRecipes(store.blob, query)
    }

    /** `loadRecipes`: show the whole stored collection. */
    method LoadRecipes()
      modifies this
      ensures recipes == AllRecipes(store.blob) && !loading
      ensures Shows("")
      ensures searchTerm == old(searchTerm) && selectedRecipe == old(selectedRecipe)
    {
      loading := true;
      var allRecipes := AllRecipes(store.blob);
      recipes := allRecipes;
      loading := false;
    }

    /** The rule `handleSearch`, the Enter key and the search button share:
        reload everything for a blank term, otherwise show the search result. */
    method ShowSearch(term: string)
      modifies this
      ensures Shows(term)
      ensures recipes == if IsBlank(term) then AllRecipes(store.blob) else SearchRecipes(store.blob, term)
      ensures loading == if IsBlank(term) then false else old(loading)
      ensures searchTerm == old(searchTerm) && selectedRecipe == old(selectedRecipe)
    {
      if IsBlank(term) {
        LoadRecipes();
      } else {
        var results := SearchRecipes(store.blob, term);
        recipes := results;
      }
    }

    /** `handleSearch`: keep the raw input as the search term and show the
        store's answer to it. */
    method HandleSearch(term: string)
      modifies this
      ensures searchTerm == term && Shows(term)
      ensures loading == if IsBlank(term) then false else old(loading)
      ensures selectedRecipe == old(selectedRecipe)
    {
      searchTerm := term;
      ShowSearch(term);
    }

    /** `handleKeyDown`: Enter re-runs the stored search term; any other key
        changes nothing. */
    method HandleKeyDown(key: string)
      modifies this
      ensures key == "Enter" ==> Shows(searchTerm) && loading == if IsBlank(searchTerm) then false else old(loading)
      ensures key != "Enter" ==> recipes == old(recipes) && loading == old(loading)
      ensures searchTerm == old(searchTerm) && selectedRecipe == old(selectedRecipe)
    {
      if key == "Enter" {
        ShowSearch(searchTerm);
      }
    }

    /** The search button's click handler: re-run the stored search term. */
    method SearchButtonClick()
      modifies this
      ensures Shows(searchTerm) && loading == if IsBlank(searchTerm) then false else old(loading)
      ensures searchTerm == old(searchTerm) && selectedRecipe == old(selectedRecipe)
    {
      ShowSearch(searchTerm);
    }

    /** `handleDelete(id)`, with `confirmed` the answer to the confirmation
        dialog. Without confirmation nothing happens (`None`). With it the store
        deletes once; when that throws, the error leaves the handler before the
        reload, so the view keeps its list; otherwise the list is reloaded and no
        longer holds the id. */
    method HandleDelete(id: string, confirmed: bool, writeOk: bool) returns (out: Option<Outcome<bool>>)
      modifies this, store
      ensures !confirmed ==> out == None && store.blob == old(store.blob)
      ensures !confirmed ==> recipes == old(recipes) && loading == old(loading)
      ensures confirmed ==> out == Some(DeleteSpec(old(store.blob), id, writeOk).out)
      ensures confirmed ==> store.blob == DeleteSpec(old(store.blob), id, writeOk).blob
      ensures confirmed && out.value.Returned? ==> recipes == AllRecipes(store.blob) && !loading && !HasId(recipes, id)
      ensures confirmed && out.value.Threw? ==> recipes == old(recipes) && loading == old(loading)
      ensures searchTerm == old(searchTerm) && selectedRecipe == old(selectedRecipe)
    {
      if !confirmed {
        return None;
      }
      ghost var before := store.blob;
      var result := store.Delete(id, writeOk);
      out := Some(result);
      if result.Threw? {
        return;
      }
      DeleteLeavesNoMatch(before, id, writeOk);
      LoadRecipes();
    }

    /** `handleEditClick`: remember the record the edit form is opened for. */
    method HandleEditClick(recipe: Recipe)
      modifies this
      ensures selectedRecipe == Some(recipe)
      ensures recipes == old(recipes) && loading == old(loading) && searchTerm == old(searchTerm)
    {
      selectedRecipe := Some(recipe);
    }

    /** `handleEditSuccess`: reload the whole collection and forget the selection. */
    method HandleEditSuccess()
      modifies this
      ensures recipes == AllRecipes(store.blob) && !loading && Shows("")
      ensures selectedRecipe == None && searchTerm == old(searchTerm)
    {
      LoadRecipes();
      selectedRecipe := None;
    }
  }
}
