/** The recipe store of src/recipeService.ts: the whole collection lives in one
    browser storage entry, and every operation reads that entry, works on the
    sequence it holds and, for the writing operations, stores the sequence back.

    The entry is modelled abstractly as a `Blob`; JSON text is not modelled.
    The identifier generator and the clock are parameters of the operations
    that use them, and whether the storage accepts a write is a parameter too. */
module RecipeService {
  import opened Text
  import opened Seqs

  datatype Option<T> = None | Some(value: T) {
    function GetOr(default: T): T {
      if Some? then value else default
    }
  }

  /** One catalogue entry as persisted. `createdAt` and `updatedAt` are
      milliseconds since the epoch. */
  datatype Recipe = Recipe(
    id: string,
    title: string,
    instructions: string,
    imageUrl: string,
    nutrients: string,
    cookingTime: string,
    createdAt: int,
    updatedAt: int)

  /** The five user-editable fields: a recipe without its id and timestamps.
      The entry form's data has the same shape. */
  datatype RecipeData = RecipeData(
    title: string,
    instructions: string,
    imageUrl: string,
    nutrients: string,
    cookingTime: string)

  /** Some of the five fields: `None` is a key the object does not carry. */
  datatype PartialData = PartialData(
    title: Option<string>,
    instructions: Option<string>,
    imageUrl: Option<string>,
    nutrients: Option<string>,
    cookingTime: Option<string>)

  /** The storage entry behind the key `recipehub_recipes`: missing (or the
      empty string, which the code treats the same way), text that does not
      parse, or a parsed array of recipes. */
  datatype Blob = Absent | Malformed | Valid(recipes: seq<Recipe>)

  /** What an operation does for its caller: return a value or throw an Error
      carrying a message. */
  datatype Outcome<T> = Returned(value: T) | Threw(message: string)

  /** The outcome of a writing operation together with the storage entry it leaves. */
  datatype Step<T> = Step(out: Outcome<T>, blob: Blob)

  const CreateFailed: string := "Failed to create recipe"

  function UpdateFailed(id: string): string {
    "Failed to update recipe " + id
  }

  function DeleteFailed(id: string): string {
    "Failed to delete recipe " + id
  }

  /** The five editable fields of a recipe. */
  function DataOf(r: Recipe): RecipeData {
    RecipeData(r.title, r.instructions, r.imageUrl, r.nutrients, r.cookingTime)
  }

  /** A full `RecipeData` object passed where a partial one is expected: every key present. */
  function Supplied(d: RecipeData): PartialData {
    PartialData(Some(d.title), Some(d.instructions), Some(d.imageUrl), Some(d.nutrients), Some(d.cookingTime))
  }

  predicate HasId(rs: seq<Recipe>, id: string) {
    exists i :: 0 <= i < |rs| && rs[i].id == id
  }

  /** The collection invariant: no two records share an id. */
  predicate DistinctIds(rs: seq<Recipe>) {
    forall i, j :: 0 <= i < j < |rs| ==> rs[i].id != rs[j].id
  }

  /** No record was last updated before it was created. */
  predicate TimestampsOrdered(rs: seq<Recipe>) {
    forall i :: 0 <= i < |rs| ==> rs[i].createdAt <= rs[i].updatedAt
  }

  /** The clock reading `now` is not earlier than any stored update time. */
  predicate ClockNotBehind(rs: seq<Recipe>, now: int) {
    forall i :: 0 <= i < |rs| ==> rs[i].updatedAt <= now
  }

  /** `i` is the index `findIndex(r => r.id === id)` yields. */
  predicate IsFirstMatch(rs: seq<Recipe>, id: string, i: int) {
    0 <= i < |rs| && rs[i].id == id && forall j :: 0 <= j < i ==> rs[j].id != id
  }

  // ---------------------------------------------------------------------------
  // Reads

  /** `getAllRecipes`: the stored sequence, or the empty sequence when the entry
      is missing or does not parse; reading never fails. */
  function AllRecipes(b: Blob): (rs: seq<Recipe>)
    ensures rs == if b.Valid? then b.recipes else []
  {
    match b
    case Valid(recipes) => recipes
    case _ => []
  }

  /** `findIndex` on the id: the first index holding `id`, or `None` (the
      source's -1) when no record has it. */
  function FindIndex(rs: seq<Recipe>, id: string): (k: Option<nat>)
    ensures k.Some? ==> IsFirstMatch(rs, id, k.value)
    ensures k.None? ==> !HasId(rs, id)
  {
    if rs == [] then None
    else if rs[0].id == id then Some(0)
    else match FindIndex(rs[1..], id)
      case None => None
      case Some(k) => Some(k + 1)
  }

  /** Every record with the id sits at or after the first match. */
  lemma FirstMatchExists(rs: seq<Recipe>, id: string) returns (i: nat)
    requires HasId(rs, id)
    ensures IsFirstMatch(rs, id, i)
  {
    i := FindIndex(rs, id).value;
  }

  /** `getRecipeById`: the first record whose id equals `id`, or `None` (the
      source's null) when there is none. */
  function GetRecipeById(b: Blob, id: string): (r: Option<Recipe>)
    ensures r.Some? <==> HasId(AllRecipes(b), id)
    ensures forall i :: IsFirstMatch(AllRecipes(b), id, i) ==> r == Some(AllRecipes(b)[i])
  {
    var rs := AllRecipes(b);
    match FindIndex(rs, id)
    case None => None
    case Some(i) => Some(rs[i])
  }

  /** The search test: the lower-cased title contains the lower-cased query.
      It ignores the case of the title, every title passes the empty query,
      and no title shorter than the query passes. */
  function TitleContains(query: string): (f: Recipe -> bool)
    ensures forall r: Recipe :: f(r) == f(r.(title := ToLower(r.title)))
    ensures query == [] ==> forall r: Recipe :: f(r)
    ensures forall r: Recipe :: f(r) ==> |query| <= |r.title|
  {
    assert forall t: string :: ToLower(ToLower(t)) == ToLower(t) by {
      forall t: string ensures ToLower(ToLower(t)) == ToLower(t) {
        ToLowerIdempotent(t);
      }
    }
    (r: Recipe) => Includes(ToLower(r.title), ToLower(query))
  }

  /** `searchRecipes`: everything for a blank query, otherwise the records
      whose title contains the query, ignoring ASCII case. The query itself is
      not trimmed. */
  function SearchRecipes(b: Blob, query: string): (r: seq<Recipe>)
    ensures IsBlank(query) ==> r == AllRecipes(b)
    ensures forall i :: 0 <= i < |r| ==> r[i] in AllRecipes(b)
  {
    var recipes := AllRecipes(b);
    if IsBlank(query) then recipes else Filter(recipes, TitleContains(query))
  }

  /** For a query that is not blank, a record is found exactly when it is stored
      and its title contains the query; each is found as often as it is stored. */
  lemma SearchMembership(b: Blob, query: string, x: Recipe)
    requires !IsBlank(query)
    ensures x in SearchRecipes(b, query) <==> x in AllRecipes(b) && Includes(ToLower(x.title), ToLower(query))
    ensures multiset(SearchRecipes(b, query))[x] ==
            if Includes(ToLower(x.title), ToLower(query)) then multiset(AllRecipes(b))[x] else 0
  {
    FilterMultiplicity(AllRecipes(b), TitleContains(query), x);
  }

  /** Search keeps the stored order: the hits among `a + c` are the hits among
      `a` followed by the hits among `c`. */
  lemma SearchKeepsOrder(a: seq<Recipe>, c: seq<Recipe>, query: string)
    ensures SearchRecipes(Valid(a + c), query) == SearchRecipes(Valid(a), query) + SearchRecipes(Valid(c), query)
  {
    FilterConcat(a, c, TitleContains(query));
  }

  /** Searching the result of a search with the same query finds the same records. */
  lemma SearchIdempotent(b: Blob, query: string)
    ensures SearchRecipes(Valid(SearchRecipes(b, query)), query) == SearchRecipes(b, query)
  {
    FilterIdempotent(AllRecipes(b), TitleContains(query));
  }

  // ---------------------------------------------------------------------------
  // Create

  /** The record `createRecipe` builds: the input's fields, then the fresh id
      and the two clock readings. */
  function NewRecipe(data: RecipeData, id: string, createdAt: int, updatedAt: int): (r: Recipe)
    ensures DataOf(r) == data
    ensures r.id == id && r.createdAt == createdAt && r.updatedAt == updatedAt
  {
    Recipe(id, data.title, data.instructions, data.imageUrl, data.nutrients, data.cookingTime, createdAt, updatedAt)
  }

  /** What `createRecipe` does to the entry `b`: append the new record to what
      `getAllRecipes` read and store it, or throw with the entry untouched when
      the write fails. */
  function CreateSpec(b: Blob, data: RecipeData, id: string, createdAt: int, updatedAt: int, writeOk: bool): (s: Step<Recipe>)
    ensures s.out.Returned? <==> writeOk
    ensures s.out.Threw? ==> s.out.message == CreateFailed && s.blob == b
    ensures s.out.Returned? ==>
      var before, after := AllRecipes(b), AllRecipes(s.blob);
      && s.blob.Valid? && |after| == |before| + 1 && after[..|before|] == before
      && after[|before|] == s.out.value && DataOf(s.out.value) == data && s.out.value.id == id
    ensures s.out.Returned? ==> s.out.value == NewRecipe(data, id, createdAt, updatedAt)
  {
    var r := NewRecipe(data, id, createdAt, updatedAt);
    if writeOk then Step(Returned(r), Valid(AllRecipes(b) + [r])) else Step(Threw(CreateFailed), b)
  }

  /** After a create, the collection is the old one with the new record at the
      end, and looking up the fresh id finds exactly the record returned. */
  lemma CreateThenGet(b: Blob, data: RecipeData, id: string, createdAt: int, updatedAt: int)
    requires !HasId(AllRecipes(b), id)
    ensures var s := CreateSpec(b, data, id, createdAt, updatedAt, true);
      var before, after := AllRecipes(b), AllRecipes(s.blob);
      && |after| == |before| + 1
      && after[..|before|] == before
      && s.out == Returned(after[|before|])
      && GetRecipeById(s.blob, id) == Some(after[|before|])
      && DataOf(after[|before|]) == data
      && after[|before|].createdAt == createdAt && after[|before|].updatedAt == updatedAt
  {
    var s := CreateSpec(b, data, id, createdAt, updatedAt, true);
    var before, after := AllRecipes(b), AllRecipes(s.blob);
    assert IsFirstMatch(after, id, |before|);
  }

  /** Creating with an id not yet present keeps the ids pairwise distinct. */
  lemma CreateKeepsIdsDistinct(b: Blob, data: RecipeData, id: string, createdAt: int, updatedAt: int, writeOk: bool)
    requires DistinctIds(AllRecipes(b)) && !HasId(AllRecipes(b), id)
    ensures DistinctIds(AllRecipes(CreateSpec(b, data, id, createdAt, updatedAt, writeOk).blob))
  {
    var before := AllRecipes(b);
    if writeOk {
      var after := AllRecipes(CreateSpec(b, data, id, createdAt, updatedAt, writeOk).blob);
      forall i, j | 0 <= i < j < |after| ensures after[i].id != after[j].id {
        if j == |before| {
          assert after[i] == before[i];
        }
      }
    }
  }

  /** When the second clock reading is not earlier than the first, a create
      keeps every record's creation time at or before its update time. */
  lemma CreateKeepsTimestampsOrdered(b: Blob, data: RecipeData, id: string, createdAt: int, updatedAt: int, writeOk: bool)
    requires TimestampsOrdered(AllRecipes(b)) && createdAt <= updatedAt
    ensures TimestampsOrdered(AllRecipes(CreateSpec(b, data, id, createdAt, updatedAt, writeOk).blob))
  {
    if writeOk {
      var before := AllRecipes(b);
      var after := AllRecipes(CreateSpec(b, data, id, createdAt, updatedAt, writeOk).blob);
      forall i | 0 <= i < |after| ensures after[i].createdAt <= after[i].updatedAt {
        if i < |before| {
          assert after[i] == before[i];
        }
      }
    }
  }

  // ---------------------------------------------------------------------------
  // Update

  /** `{...old, ...patch, updatedAt: now}`: the supplied fields replace the
      stored ones, the others are kept, the id and creation time never change. */
  function Overlay(r: Recipe, patch: PartialData, now: int): (u: Recipe)
    ensures u.id == r.id && u.createdAt == r.createdAt && u.updatedAt == now
    ensures patch.title.None? ==> u.title == r.title
    ensures patch.instructions.None? ==> u.instructions == r.instructions
    ensures patch.imageUrl.None? ==> u.imageUrl == r.imageUrl
    ensures patch.nutrients.None? ==> u.nutrients == r.nutrients
    ensures patch.cookingTime.None? ==> u.cookingTime == r.cookingTime
    ensures patch.title.Some? ==> u.title == patch.title.value
    ensures patch.instructions.Some? ==> u.instructions == patch.instructions.value
    ensures patch.imageUrl.Some? ==> u.imageUrl == patch.imageUrl.value
    ensures patch.nutrients.Some? ==> u.nutrients == patch.nutrients.value
    ensures patch.cookingTime.Some? ==> u.cookingTime == patch.cookingTime.value
  {
    r.(title := patch.title.GetOr(r.title),
       instructions := patch.instructions.GetOr(r.instructions),
       imageUrl := patch.imageUrl.GetOr(r.imageUrl),
       nutrients := patch.nutrients.GetOr(r.nutrients),
       cookingTime := patch.cookingTime.GetOr(r.cookingTime),
       updatedAt := now)
  }

  /** What `updateRecipe` does to the entry `b`: nothing, returning null, when
      no record has the id; otherwise overlay the first match and store the
      collection, or throw with the entry untouched when the write fails. */
  function UpdateSpec(b: Blob, id: string, patch: PartialData, now: int, writeOk: bool): (s: Step<Option<Recipe>>)
    ensures s.out == Returned(None) <==> !HasId(AllRecipes(b), id)
    ensures s.out.Threw? <==> HasId(AllRecipes(b), id) && !writeOk
    ensures s.out.Threw? ==> s.out.message == UpdateFailed(id)
    ensures s.out != Returned(None) && s.out.Returned? ==> s.out.value.value.id == id && s.blob.Valid?
    ensures !(s.out.Returned? && s.out.value.Some?) ==> s.blob == b
    ensures |AllRecipes(s.blob)| == |AllRecipes(b)|
  {
    var rs := AllRecipes(b);
    match FindIndex(rs, id)
    case None => Step(Returned(None), b)
    case Some(i) =>
      var u := Overlay(rs[i], patch, now);
      if writeOk then Step(Returned(Some(u)), Valid(rs[i := u])) else Step(Threw(UpdateFailed(id)), b)
  }

  /** An update of an id nobody has returns null and writes nothing. */
  lemma UpdateMissingId(b: Blob, id: string, patch: PartialData, now: int, writeOk: bool)
    requires !HasId(AllRecipes(b), id)
    ensures UpdateSpec(b, id, patch, now, writeOk) == Step(Returned(None), b)
  {
  }

  /** A successful update changes the first matching index only, to the
      overlaid record, and returns what it stored there. */
  lemma UpdateChangesFirstMatchOnly(b: Blob, id: string, patch: PartialData, now: int, i: int)
    requires IsFirstMatch(AllRecipes(b), id, i)
    ensures var s := UpdateSpec(b, id, patch, now, true);
      var before, after := AllRecipes(b), AllRecipes(s.blob);
      && |after| == |before|
      && after[i] == Overlay(before[i], patch, now)
      && (forall j :: 0 <= j < |before| && j != i ==> after[j] == before[j])
      && s.out == Returned(Some(after[i]))
  {
    assert FindIndex(AllRecipes(b), id) == Some(i);
  }

  /** After a successful update, looking the id up finds the record the update returned. */
  lemma UpdateThenGet(b: Blob, id: string, patch: PartialData, now: int)
    requires HasId(AllRecipes(b), id)
    ensures var s := UpdateSpec(b, id, patch, now, true);
      s.out.Returned? && s.out.value.Some? && GetRecipeById(s.blob, id) == s.out.value
  {
    var i := FirstMatchExists(AllRecipes(b), id);
    UpdateChangesFirstMatchOnly(b, id, patch, now, i);
    var after := AllRecipes(UpdateSpec(b, id, patch, now, true).blob);
    assert IsFirstMatch(after, id, i);
  }

  /** Updates keep the ids pairwise distinct. */
  lemma UpdateKeepsIdsDistinct(b: Blob, id: string, patch: PartialData, now: int, writeOk: bool)
    requires DistinctIds(AllRecipes(b))
    ensures DistinctIds(AllRecipes(UpdateSpec(b, id, patch, now, writeOk).blob))
  {
    var k := FindIndex(AllRecipes(b), id);
    if k.Some? && writeOk {
      UpdateChangesFirstMatchOnly(b, id, patch, now, k.value);
    }
  }

  /** When the clock has not gone back past a stored update time, an update
      moves the changed record's update time forward and keeps every record's
      creation time at or before its update time. */
  lemma UpdateKeepsTimestampsOrdered(b: Blob, id: string, patch: PartialData, now: int, writeOk: bool)
    requires TimestampsOrdered(AllRecipes(b)) && ClockNotBehind(AllRecipes(b), now)
    ensures var after := AllRecipes(UpdateSpec(b, id, patch, now, writeOk).blob);
      && TimestampsOrdered(after)
      && ClockNotBehind(after, now)
      && |after| == |AllRecipes(b)|
      && forall i :: 0 <= i < |after| ==> AllRecipes(b)[i].updatedAt <= after[i].updatedAt
  {
    var k := FindIndex(AllRecipes(b), id);
    if k.Some? && writeOk {
      UpdateChangesFirstMatchOnly(b, id, patch, now, k.value);
    }
  }

  // ---------------------------------------------------------------------------
  // Delete

  /** The test `deleteRecipe` filters by. */
  function IdDiffers(id: string): Recipe -> bool {
    (r: Recipe) => r.id != id
  }

  /** What `deleteRecipe` does to the entry `b`: return false and write nothing
      when no record has the id; otherwise store the records with other ids and
      return true, or throw with the entry untouched when the write fails. */
  function DeleteSpec(b: Blob, id: string, writeOk: bool): (s: Step<bool>)
    ensures s.out == Returned(false) <==> !HasId(AllRecipes(b), id)
    ensures s.out.Threw? <==> HasId(AllRecipes(b), id) && !writeOk
    ensures s.out.Threw? ==> s.out.message == DeleteFailed(id)
    ensures s.out != Returned(true) ==> s.blob == b
    ensures s.out == Returned(true) ==> s.blob.Valid? && |AllRecipes(s.blob)| < |AllRecipes(b)|
  {
    var rs := AllRecipes(b);
    FilterKeepsAll(rs, IdDiffers(id));
    if !HasId(rs, id) then Step(Returned(false), b)
    else if writeOk then Step(Returned(true), Valid(Filter(rs, IdDiffers(id))))
    else Step(Threw(DeleteFailed(id)), b)
  }

  /** After a delete that did not throw, no record has the id, every record
      with another id is still there, and a lookup of the id finds nothing. */
  lemma DeleteLeavesNoMatch(b: Blob, id: string, writeOk: bool)
    requires DeleteSpec(b, id, writeOk).out.Returned?
    ensures var after := AllRecipes(DeleteSpec(b, id, writeOk).blob);
      && !HasId(after, id)
      && (forall i :: 0 <= i < |AllRecipes(b)| && AllRecipes(b)[i].id != id ==> AllRecipes(b)[i] in after)
      && GetRecipeById(DeleteSpec(b, id, writeOk).blob, id) == None
  {
  }

  /** Filtering a collection with distinct ids keeps them distinct. */
  lemma {:induction false} FilterKeepsIdsDistinct(rs: seq<Recipe>, p: Recipe -> bool)
    requires DistinctIds(rs)
    ensures DistinctIds(Filter(rs, p))
  {
    if rs != [] {
      var tail := rs[1..];
      FilterKeepsIdsDistinct(tail, p);
      var ft := Filter(tail, p);
      forall k | 0 <= k < |ft| ensures rs[0].id != ft[k].id {
        var j :| 0 <= j < |tail| && tail[j] == ft[k];
        assert rs[j + 1] == ft[k];
      }
    }
  }

  /** Deletes keep every record's creation time at or before its update time. */
  lemma DeleteKeepsTimestampsOrdered(b: Blob, id: string, writeOk: bool)
    requires TimestampsOrdered(AllRecipes(b))
    ensures TimestampsOrdered(AllRecipes(DeleteSpec(b, id, writeOk).blob))
  {
  }

  /** Deletes keep the ids pairwise distinct. */
  lemma DeleteKeepsIdsDistinct(b: Blob, id: string, writeOk: bool)
    requires DistinctIds(AllRecipes(b))
    ensures DistinctIds(AllRecipes(DeleteSpec(b, id, writeOk).blob))
  {
    FilterKeepsIdsDistinct(AllRecipes(b), IdDiffers(id));
  }

  /** With distinct ids, a delete of a present id removes exactly its first
      match `i` and keeps every other record in its old order. */
  lemma DeleteRemovesExactlyOne(b: Blob, id: string, i: int)
    requires DistinctIds(AllRecipes(b)) && IsFirstMatch(AllRecipes(b), id, i)
    ensures AllRecipes(DeleteSpec(b, id, true).blob) == AllRecipes(b)[..i] + AllRecipes(b)[i + 1..]
    ensures |AllRecipes(DeleteSpec(b, id, true).blob)| == |AllRecipes(b)| - 1
  {
    var rs := AllRecipes(b);
    FilterRemovesMatch(rs, id, i);
    assert DeleteSpec(b, id, true).blob == Valid(Filter(rs, IdDiffers(id)));
  }

  /** A delete whose write succeeds leaves the order-preserving filter of the
      records whose id differs from `id`, whether or not the id was present. */
  lemma DeleteIsFilter(b: Blob, id: string)
    ensures AllRecipes(DeleteSpec(b, id, true).blob) == Filter(AllRecipes(b), IdDiffers(id))
  {
    var rs := AllRecipes(b);
    if !HasId(rs, id) {
      FilterKeepsAll(rs, IdDiffers(id));
    }
  }

  /** Deleting from a concatenation deletes from each part, keeping their order. */
  lemma DeleteKeepsOrder(a: seq<Recipe>, c: seq<Recipe>, id: string)
    ensures AllRecipes(DeleteSpec(Valid(a + c), id, true).blob) ==
            AllRecipes(DeleteSpec(Valid(a), id, true).blob) + AllRecipes(DeleteSpec(Valid(c), id, true).blob)
  {
    DeleteIsFilter(Valid(a + c), id);
    DeleteIsFilter(Valid(a), id);
    DeleteIsFilter(Valid(c), id);
    FilterConcat(a, c, IdDiffers(id));
  }

  /** Dropping the records with id `id` from a sequence with distinct ids
      leaves everything except its one match at `i`. */
  lemma FilterRemovesMatch(rs: seq<Recipe>, id: string, i: int)
    requires DistinctIds(rs) && IsFirstMatch(rs, id, i)
    ensures Filter(rs, IdDiffers(id)) == rs[..i] + rs[i + 1..]
  {
    assert rs == rs[..i] + [rs[i]] + rs[i + 1..];
    KeptBeforeMatch(rs, id, i);
    KeptAfterMatch(rs, id, i);
    FilterDropsOne(rs[..i], rs[i], rs[i + 1..], IdDiffers(id));
  }

  /** No record before the first match has the id, so the filter keeps them all. */
  lemma KeptBeforeMatch(rs: seq<Recipe>, id: string, i: int)
    requires IsFirstMatch(rs, id, i)
    ensures Filter(rs[..i], IdDiffers(id)) == rs[..i]
  {
    var pre := rs[..i];
    forall j | 0 <= j < |pre| ensures IdDiffers(id)(pre[j]) {
      assert pre[j] == rs[j];
    }
    FilterKeepsAll(pre, IdDiffers(id));
  }

  /** With distinct ids, no record after the match has the id either. */
  lemma KeptAfterMatch(rs: seq<Recipe>, id: string, i: int)
    requires DistinctIds(rs) && IsFirstMatch(rs, id, i)
    ensures Filter(rs[i + 1..], IdDiffers(id)) == rs[i + 1..]
  {
    var post := rs[i + 1..];
    forall j | 0 <= j < |post| ensures IdDiffers(id)(post[j]) {
      assert post[j] == rs[i + 1 + j];
    }
    FilterKeepsAll(post, IdDiffers(id));
  }

  /** A failed write leaves the entry as it was for all three writing
      operations, and each throws exactly when it would have written. */
  lemma WriteFailureLeavesEntry(b: Blob, data: RecipeData, id: string, createdAt: int, updatedAt: int, patch: PartialData, now: int)
    ensures CreateSpec(b, data, id, createdAt, updatedAt, false) == Step(Threw(CreateFailed), b)
    ensures UpdateSpec(b, id, patch, now, false) ==
            Step(if HasId(AllRecipes(b), id) then Threw(UpdateFailed(id)) else Returned(None), b)
    ensures DeleteSpec(b, id, false) ==
            Step(if HasId(AllRecipes(b), id) then Threw(DeleteFailed(id)) else Returned(false), b)
  {
    if !HasId(AllRecipes(b), id) {
      UpdateMissingId(b, id, patch, now, false);
    }
  }

  // ---------------------------------------------------------------------------
  // The store

  /** The single storage entry and the three operations that rewrite it. */
  class RecipeStore {
    var blob: Blob

    constructor (initial: Blob)
      ensures blob == initial
    {
      blob := initial;
    }

    /** `createRecipe(data)`, with `freshId` the value `crypto.randomUUID()`
        produced, `createdClock` and `updatedClock` the two `Date.now()`
        readings and `writeOk` whether `localStorage.setItem` accepts the write. */
    method Create(data: RecipeData, freshId: string, createdClock: int, updatedClock: int, writeOk: bool)
      returns (out: Outcome<Recipe>)
      modifies this
      ensures Step(out, blob) == CreateSpec(old(blob), data, freshId, createdClock, updatedClock, writeOk)
    {
      var recipes := AllRecipes(blob);
      var newRecipe := NewRecipe(data, freshId, createdClock, updatedClock);
      recipes := recipes + [newRecipe];
      if !writeOk {
        return Threw(CreateFailed);
      }
      blob := Valid(recipes);
      return Returned(newRecipe);
    }

    /** `updateRecipe(id, patch)`, with `now` the `Date.now()` reading. */
    method Update(id: string, patch: PartialData, now: int, writeOk: bool)
      returns (out: Outcome<Option<Recipe>>)
      modifies this
      ensures Step(out, blob) == UpdateSpec(old(blob), id, patch, now, writeOk)
    {
      var recipes := AllRecipes(blob);
      var index := FindIndex(recipes, id);
      if index.None? {
        return Returned(None);
      }
      var updatedRecipe := Overlay(recipes[index.value], patch, now);
      recipes := recipes[index.value := updatedRecipe];
      if !writeOk {
        return Threw(UpdateFailed(id));
      }
      blob := Valid(recipes);
      return Returned(Some(updatedRecipe));
    }

    /** `deleteRecipe(id)`: a record was found exactly when filtering shortened
        the collection. */
    method Delete(id: string, writeOk: bool) returns (out: Outcome<bool>)
      modifies this
      ensures Step(out, blob) == DeleteSpec(old(blob), id, writeOk)
    {
      var recipes := AllRecipes(blob);
      var initialLength := |recipes|;
      var filteredRecipes := Filter(recipes, IdDiffers(id));
      FilterKeepsAll(recipes, IdDiffers(id));
      if |filteredRecipes| == initialLength {
        return Returned(false);
      }
      if !writeOk {
        return Threw(DeleteFailed(id));
      }
      blob := Valid(filteredRecipes);
      return Returned(true);
    }
  }
}
