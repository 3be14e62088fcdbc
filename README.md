# RecipeHub recipe catalogue, modelled in Dafny

RecipeHub is a single-page web application for keeping a personal catalogue of
recipes in the browser. This project models its core:

- **the recipe store** (`src/recipeService.ts`). The whole catalogue lives in
  one browser storage entry, under the key `recipehub_recipes`. Every
  operation reads that entry. A create always stores the whole collection
  back; an update or delete does so only when some record has the id, and
  otherwise writes nothing.
- **the recipe list** (`src/RecipeList.tsx`): the relative age shown on each
  card ("3 minutes ago"), and the view state that the search, delete and edit
  handlers update.
- **the entry form** (`src/RecipeForm.tsx`): the form data's defaults, the
  prefill in update mode, the one-field change handler, and the submit
  handler that creates or updates a record.

Modules:

| module | file | contents |
|---|---|---|
| `Text` | `text.dfy` | The JavaScript string operations the code uses: `trim`, `toLowerCase`, `includes`, and how a template literal renders an integer. |
| `Seqs` | `seqs.dfy` | `Array.prototype.filter` on sequences, and lemmas about order, multiplicity and idempotence. |
| `RecipeService` | `recipe_service.dfy` | Records and the storage entry, the read operations as functions, and the write operations. |
| `RecipeList` | `recipe_list.dfy` | `getTimeAgo`, and the list view as the class `RecipeListView`. |
| `RecipeForm` | `recipe_form.dfy` | The form as the class `RecipeFormView`. |
| `Scenarios` | `scenarios.dfy` | Client code that chains the operations through typical sessions: the methods through their contracts, with the pure functions unfolded where a concrete fact needs them. |

### How the store is modelled

The storage entry is a `Blob` with three forms:

- `Absent`: no entry, or the empty string, which the code treats the same way;
- `Malformed`: text that does not parse;
- `Valid(recipes)`: a parsed array of recipes.

`getAllRecipes`, `getRecipeById` and `searchRecipes` are total functions of
the entry. Each writing operation has two parts:

- A pure function (`CreateSpec`, `UpdateSpec`, `DeleteSpec`) gives its result
  and the entry it leaves, as a `Step`.
- A method of the class `RecipeStore` carries out the same steps the source
  does and is proved to match that function.

The lemmas about the functions state what the operations promise:

- round trips through `getRecipeById`;
- the first match is the only record an update changes;
- a delete removes every record with the id, and only those;
- ids stay distinct and timestamps stay ordered;
- a failed write leaves the entry untouched.

The environment's inputs are operation parameters:

- the identifier `crypto.randomUUID()` returns;
- the readings of `Date.now()`;
- whether `localStorage.setItem` accepts the write;
- the answer to the delete confirmation dialog.

A failed write is an explicit `Threw(message)` outcome. It carries the
source's own error message.

Behaviour of the code that is easy to overlook:

- An entry holding the empty string reads as an empty catalogue. The reason is
  that `recipes ? JSON.parse(recipes) : []` tests for truthiness.
- `handleDelete` has no `try`. A delete that throws therefore skips the
  reload, and the list keeps what it showed.
- A submit in update mode with no `recipeId` makes no store call, yet still
  calls `onSuccess`.
- The search query is lower-cased but not trimmed. Only the blank test trims.

## Model

| member | source | states |
|---|---|---|
| `Text.Trim` | src/recipeService.ts:145 | The result is the input with its leading and trailing ECMAScript whitespace removed and nothing else: a contiguous slice, everything before and after it is whitespace, and its own ends are not. |
| `Text.IsBlank` | src/RecipeList.tsx:29 | `s.trim() === ''` exactly when every character of `s` is whitespace, in both directions. |
| `Text.ToLower` | src/recipeService.ts:147-149 | Lower-casing keeps the length and maps each character on its own (A–Z to a–z, all else kept). |
| `Text.ToLowerIdempotent` | src/recipeService.ts:147-149 | Lower-casing twice is lower-casing once. |
| `Text.Includes` | src/recipeService.ts:149 | The empty query occurs in every title, nothing longer than the title occurs in it, and a query as long as the title occurs only when equal to it. |
| `Text.NatToString` | src/RecipeList.tsx:75-90 | A count renders as a nonempty run of decimal digits with no leading zero. |
| `Text.NatToStringRoundTrip` | src/RecipeList.tsx:75-90 | The rendered digits of `n` read back as `n`. |
| `Text.IntToString` | src/RecipeList.tsx:75 | A negative count renders as a minus sign followed by digits, any other as digits only; the digits have no leading zero and read back as the count's magnitude, and no rendering contains a space. |
| `Text.IntToStringInjective` | src/RecipeList.tsx:75-90 | Different counts render as different text. |
| `Text.NatToStringInjective` | src/RecipeList.tsx:75-90 | Different non-negative counts have different digit strings. |
| `Seqs.Filter` | src/recipeService.ts:121 | Filtering keeps only elements of the input that pass the test, and every element that passes is kept. |
| `Seqs.FilterConcat` | src/recipeService.ts:148-150 | Filtering distributes over concatenation, so surviving elements keep their relative order. |
| `Seqs.FilterKeepsAll` | src/recipeService.ts:121-125 | The filtered length equals the input length exactly when every element passes; the result is then the input itself. |
| `Seqs.FilterIdempotent` | src/recipeService.ts:148-150 | Filtering twice with the same test gives the result of filtering once. |
| `Seqs.FilterMultiplicity` | src/recipeService.ts:148-150 | Each value passing the test occurs as often as in the input; a value failing it does not occur. |
| `RecipeService.AllRecipes` | src/recipeService.ts:22-30 | A parsed entry yields its array; a missing, empty or unparsable entry yields `[]`; reading never fails. |
| `RecipeService.FindIndex` | src/recipeService.ts:86-90 | The result is the first index holding the id, or none exactly when no record has it. |
| `RecipeService.FirstMatchExists` | src/recipeService.ts:86 | Whenever some record has the id, a first matching index exists. |
| `RecipeService.GetRecipeById` | src/recipeService.ts:37-45 | A record is found exactly when some record has the id, and it is the first such record. |
| `RecipeService.TitleContains` | src/recipeService.ts:148-150 | The search test ignores the case of the title, passes every title for the empty query, and fails every title shorter than the query. |
| `RecipeService.SearchRecipes` | src/recipeService.ts:142-155 | A blank query returns the whole collection; every result is a stored record. |
| `RecipeService.SearchMembership` | src/recipeService.ts:147-150 | For a non-blank query, a record is in the result iff it is stored and its lower-cased title contains the lower-cased query; it occurs as often as stored. |
| `RecipeService.SearchKeepsOrder` | src/recipeService.ts:148-150 | Search results keep storage order: hits in `a + c` are the hits in `a`, then the hits in `c`. |
| `RecipeService.SearchIdempotent` | src/recipeService.ts:142-155 | Searching a search result again with the same query changes nothing. |
| `RecipeService.NewRecipe` | src/recipeService.ts:57-62 | The new record carries the input's five fields, the fresh id and the two clock readings. |
| `RecipeService.CreateSpec` | src/recipeService.ts:52-75 | Create returns exactly when the write succeeds. A failure throws "Failed to create recipe" and keeps the entry. A success stores the old records followed by the returned one, which is the record built from the input data, the fresh id and the two clock readings. |
| `RecipeService.CreateThenGet` | src/recipeService.ts:52-75 | A successful create with an unused id appends one record and leaves the old ones in place. The returned record has the input's data and clock readings, and looking its id up finds it. |
| `RecipeService.CreateKeepsIdsDistinct` | src/recipeService.ts:57-68 | With an unused fresh id, a create keeps all ids pairwise distinct. |
| `RecipeService.CreateKeepsTimestampsOrdered` | src/recipeService.ts:60-61 | If the second clock reading is not earlier than the first, every record still has `createdAt <= updatedAt`. |
| `RecipeService.Overlay` | src/recipeService.ts:93-97 | Each supplied field takes the supplied value and each absent one keeps the stored value. The id and `createdAt` are kept and `updatedAt` becomes the clock reading. |
| `RecipeService.UpdateSpec` | src/recipeService.ts:83-109 | Update returns null exactly when no record has the id, and throws "Failed to update recipe <id>" exactly when one does and the write fails. A returned record has the id. Unless a record is returned the entry is kept, and the record count never changes. |
| `RecipeService.UpdateMissingId` | src/recipeService.ts:88-90 | Updating an id no record has returns null and writes nothing. |
| `RecipeService.UpdateChangesFirstMatchOnly` | src/recipeService.ts:86-104 | A successful update replaces only the first match with the overlaid record, keeps the length, and returns that record. |
| `RecipeService.UpdateThenGet` | src/recipeService.ts:83-109 | After a successful update of a present id, looking it up finds exactly the returned record. |
| `RecipeService.UpdateKeepsIdsDistinct` | src/recipeService.ts:93-99 | Updates keep all ids pairwise distinct. |
| `RecipeService.UpdateKeepsTimestampsOrdered` | src/recipeService.ts:96 | If the clock is not behind any stored update time, update times only move forward and `createdAt <= updatedAt` still holds. |
| `RecipeService.IdDiffers` | src/recipeService.ts:121 | The filter callback `recipe => recipe.id !== id`: keeps a record exactly when its id differs. |
| `RecipeService.DeleteSpec` | src/recipeService.ts:116-135 | Delete returns false exactly when no record has the id, and throws "Failed to delete recipe <id>" exactly when one does and the write fails. Unless it returns true the entry is kept; when it does, the collection is shorter. |
| `RecipeService.DeleteLeavesNoMatch` | src/recipeService.ts:116-135 | After a delete that did not throw, no record has the id, every record with another id remains, and a lookup finds nothing. |
| `RecipeService.FilterKeepsIdsDistinct` | src/recipeService.ts:121 | Filtering a collection with distinct ids keeps them distinct. |
| `RecipeService.DeleteKeepsIdsDistinct` | src/recipeService.ts:121-128 | Deletes keep all ids pairwise distinct. |
| `RecipeService.DeleteKeepsTimestampsOrdered` | src/recipeService.ts:121-128 | Deletes keep `createdAt <= updatedAt` for every record. |
| `RecipeService.DeleteRemovesExactlyOne` | src/recipeService.ts:119-128 | With distinct ids, deleting a present id leaves the old collection with only its first match cut out, in the old order, one record shorter. |
| `RecipeService.DeleteIsFilter` | src/recipeService.ts:119-128 | A delete whose write succeeds leaves the order-preserving filter of records whose id differs, whether or not the id was present. |
| `RecipeService.DeleteKeepsOrder` | src/recipeService.ts:121 | Deleting from `a + c` gives what deleting from `a` gives, followed by what deleting from `c` gives. |
| `RecipeService.FilterRemovesMatch` | src/recipeService.ts:119-128 | With distinct ids, filtering out the id keeps every other record in order and drops only the match. |
| `RecipeService.WriteFailureLeavesEntry` | src/recipeService.ts:71-133 | The three catch blocks (lines 71-74, 102-107 and 128-133): when the write fails, each operation leaves the entry unchanged. Create throws its message; update and delete throw theirs exactly when the id is present, else return null or false. |
| `RecipeService.RecipeStore.constructor` | src/recipeService.ts:15-16 | The store starts from whatever the entry under the storage key holds. |
| `RecipeService.RecipeStore.Create` | src/recipeService.ts:52-75 | The returned outcome and the new entry are those of `CreateSpec` on the old entry. |
| `RecipeService.RecipeStore.Update` | src/recipeService.ts:83-109 | The returned outcome and the new entry are those of `UpdateSpec` on the old entry. |
| `RecipeService.RecipeStore.Delete` | src/recipeService.ts:116-135 | Deciding "found" by comparing lengths gives the outcome and entry of `DeleteSpec`, which decides on the presence of the id. |
| `RecipeList.ElapsedSeconds` | src/RecipeList.tsx:73 | The elapsed whole seconds are rounded down: `1000*s <= now - timestamp < 1000*s + 1000`, negative for future timestamps. |
| `RecipeList.AgeOf` | src/RecipeList.tsx:73-90 | Each unit covers one range of elapsed seconds: below 60, then up to an hour, a day, 30 days and 360 days, then years without upper bound. The ranges meet with no gap or overlap, and the count is the elapsed time in that unit, rounded down. |
| `RecipeList.UnitWord` | src/RecipeList.tsx:75-90 | The unit word each branch writes after the count: second, minute, hour, day, month, year. |
| `RecipeList.IsPlural` | src/RecipeList.tsx:75-90 | The seconds form always carries the plural `s`; every other unit carries it unless the count `=== 1`. |
| `RecipeList.UnitWordEnding` | src/RecipeList.tsx:78-90 | No unit word ends in `s`. |
| `RecipeList.Phrase` | src/RecipeList.tsx:75-90 | A phrase starts with the count and a space and ends in " ago". It ends in "s ago" exactly when the unit is seconds or the count is not 1. |
| `RecipeList.UnitWordStart` | src/RecipeList.tsx:78-90 | Two unit words with the same first two letters belong to the same unit. |
| `RecipeList.PhraseDeterminesAge` | src/RecipeList.tsx:71-91 | Two ages with the same phrase are the same age: the text determines count and unit. |
| `RecipeList.SecondsPhraseOnly` | src/RecipeList.tsx:75-90 | "`n` seconds ago" is the text of the age of `n` seconds and of no other age. |
| `RecipeList.GetTimeAgo` | src/RecipeList.tsx:71-91 | "`n` seconds ago", with `n` the elapsed seconds, is shown exactly when fewer than 60 seconds have elapsed, negative counts included. Every text starts with the rendered count of its age and a space, ends in " ago", and ends in "s ago" exactly when it shows seconds or a count other than 1. The whole text is the count of `AgeOf`, a space, that age's unit word, the plural `s` when `IsPlural`, and " ago". |
| `RecipeList.RecipeListView.constructor` | src/RecipeList.tsx:6-9 | The view starts with no recipes, loading on, an empty search term and no selection. |
| `RecipeList.RecipeListView.LoadRecipes` | src/RecipeList.tsx:12-22 | The view shows the whole stored collection, loading is off, and nothing else changes. |
| `RecipeList.RecipeListView.ShowSearch` | src/RecipeList.tsx:29-34 | A blank term reloads everything; any other term shows the store's search result. Either way the view shows the store's answer to the term. |
| `RecipeList.RecipeListView.HandleSearch` | src/RecipeList.tsx:25-35 | The raw input becomes the search term, and the view shows the store's answer to it. |
| `RecipeList.RecipeListView.HandleKeyDown` | src/RecipeList.tsx:38-47 | Enter shows the store's answer to the stored term; any other key changes nothing. |
| `RecipeList.RecipeListView.SearchButtonClick` | src/RecipeList.tsx:112-119 | The button shows the store's answer to the stored term. |
| `RecipeList.RecipeListView.HandleDelete` | src/RecipeList.tsx:50-55 | Without confirmation nothing changes. With it the store deletes once. If the delete throws, the list is kept; otherwise the view reloads and no longer shows the id. |
| `RecipeList.RecipeListView.HandleEditClick` | src/RecipeList.tsx:58-61 | The clicked recipe becomes the selection; the list is unchanged. |
| `RecipeList.RecipeListView.HandleEditSuccess` | src/RecipeList.tsx:64-68 | The view reloads the whole collection and clears the selection. |
| `RecipeForm.OrEmpty` | src/RecipeForm.tsx:31-35 | `value \|\| ''` on an optional string is the value when there is one, and the empty string otherwise. |
| `RecipeForm.InitialFormData` | src/RecipeForm.tsx:22-36 | Each field of the initial form data is the one `initialData` carries, or the empty string. |
| `RecipeForm.WithField` | src/RecipeForm.tsx:58-64 | The named field takes the new value and the other four keep theirs. |
| `RecipeForm.ResubmitPrefilledForm` | src/RecipeForm.tsx:42-93 | Submitting the prefilled update form without edits writes the record's own fields back: only its `updatedAt` changes, and no other record changes. |
| `RecipeForm.RecipeFormView.constructor` | src/RecipeForm.tsx:22-39 | The form starts with the defaulted data, not loading and without an error. |
| `RecipeForm.RecipeFormView.HasRecipeId` | src/RecipeForm.tsx:43 | The id prop is truthy exactly when it is given and not the empty string. |
| `RecipeForm.RecipeFormView.LoadForUpdate` | src/RecipeForm.tsx:42-55 | In update mode with a non-empty id that the store has, the form takes that record's five fields; otherwise it is unchanged. |
| `RecipeForm.RecipeFormView.HandleChange` | src/RecipeForm.tsx:58-64 | Only the named field changes, to the typed value. |
| `RecipeForm.RecipeFormView.HandleSubmit` | src/RecipeForm.tsx:67-112 | In add mode, creates from the form data; on success it calls the callbacks and clears the form. In update mode with an id, updates that record with all five fields; on success it calls the callbacks and keeps the form. In update mode without an id, only `onSuccess` runs. A store error sets the inline message and skips the callbacks. Loading is off at the end. |
| `Scenarios.SearchOne` | src/recipeService.ts:142-155 | For a non-blank query over one record, the result is that record when its title contains the query, and nothing otherwise. |
| `Scenarios.TomatoHit` | src/recipeService.ts:142-150 | A search for "tomato" finds the record titled "Tomato Soup". |
| `Scenarios.PastaMiss` | src/recipeService.ts:142-150 | A search for "pasta" does not find the record titled "Tomato Soup". |

## Left out

- JSON text: the entry is an abstract `Blob`. Serialisation, parsing, and records whose fields have the wrong type or are missing are not modelled. Neither is a parsed value that is not an array, on which `push` would throw.
- UTF-16: JavaScript strings are sequences of UTF-16 code units; the model's strings are sequences of Unicode scalar values. `trim`, `includes` and `toLowerCase` agree on well-formed strings, but a string holding an unpaired surrogate cannot be represented.
- Case mapping: `toLowerCase` is modelled for ASCII letters only; the rest of Unicode is left unchanged.
- Identifiers: `crypto.randomUUID()` is a parameter. Freshness of the id appears only as a hypothesis of the lemmas about distinct ids; nothing proves that the generator never repeats.
- Numbers: timestamps and counts are unbounded integers where the source has JavaScript numbers. `Date.now()` readings are whole milliseconds, and for integral values `Math.floor(x / 1000)` agrees with Dafny's `/`. Fractional timestamps, `NaN` and precision loss beyond 2^53 are not modelled.
- The clock: `Date.now()` readings are parameters, and the clock is not modelled. `createdAt <= updatedAt` and "update times only move forward" are proved under the hypothesis that the readings do not go back.
- `console.error`, `alert`, `showModal`/`close` on the edit dialog, and the modal markup: side effects with no bearing on the state; not modelled.
- `window.confirm`: its answer is a parameter of `HandleDelete`.
- Storage limits: a failed `localStorage.setItem` is the parameter `writeOk`; no quota is modelled.
- The browser's native `required` validation on the form inputs: it happens before `handleSubmit` runs and is not modelled.
- The JSX markup and styling of both components: rendering is not modelled.
- React scheduling: state setters are immediate assignments in program order. The batching of `setLoading(true)` and `setLoading(false)` within one handler is not modelled.
- Extra keys and explicit `undefined` values in a partial update object: `PartialData` has exactly the five fields; a key is present with a string or absent.
- `onSubmit` or `onSuccess` throwing: the callbacks are modelled only by whether they were passed and whether they were called.
- `Navbar.tsx`, `Hero.tsx`, `Layout/HomeLayout.tsx` and `main.tsx`: layout and bootstrapping only, not part of this model.
- `RecipeService.SearchRecipes`: its own contract states only the blank case and containment. Which records a non-blank query finds is stated by `RecipeService.SearchMembership`.
