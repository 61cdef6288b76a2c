# Dog-adoption client: favorites and search bookkeeping

This project models the client-side bookkeeping of a browser application for
searching adoptable dogs. It has a search page (`src/app/dashboard/page.tsx`)
and a favorites page (`src/app/favorites/page.tsx`). The React and
browser-storage plumbing is lifted into pure Dafny functions over small state
records. The remote service calls become abstract inputs:
`Option<…>` is `Some(response)` for a call that succeeded and `None` for one
that failed.

Modules:

- `Optional`: the `Option` type.
- `IdLists`: the list operations the pages use. `Filter` models
  `Array.prototype.filter` and `Without` drops one value. `Add`, `Delete` and
  `FromList` model a JavaScript `Set` as a duplicate-free sequence in
  insertion order, which is the order `Array.from` writes back.
- `Decimal`: the text of a whole number (`n + ""`) and a parser for it.
- `Dogs`: the `Dog` record (`src/app/types/index.ts:1-8`), id projection,
  removal by id, and first-match lookup (`find`).
- `Dashboard`: the search page. It covers mount and the initial favorite
  load, toggling a favorite with its write-back, the search query (offset,
  size, sort key), the page count, page reset on filter or sort change, and
  the outcome of a search.
- `FavoritesPage`: the favorites page. It covers loading, removing and
  generating a match.

The in-memory favorite set is a duplicate-free `seq<string>`, because a
JavaScript `Set` remembers insertion order. Set-level laws are stated through
`IdLists.Elems`. Storage is one `Option<seq<string>>`, where `None` means the
key is absent and reads as an empty list.

Behaviour of the code worth noting:

- The page count is not clamped to at least 1. An empty result gives 0 pages
  while the current page stays 1 (`Dashboard.EmptyResultLeavesNoPages`).
- Toggling an id twice restores the favorite set. It restores the written list
  exactly only if the id was absent at first. If the id was present, it comes
  back at the end of the list (`Dashboard.ToggleTwiceWrites`).
- The search page parses the stored list without a guard. Unreadable content
  is not turned into "no favorites" there. The model does not cover malformed
  content at all (see below).
- A removal reads the id list from storage. It filters the records already
  shown, which it holds separately. The two stay consistent only if they
  agreed beforehand (`FavoritesPage.RemoveKeepsStoreAndListInStep`).

## Model

| member | source | states |
|---|---|---|
| IdLists.Filter | src/app/favorites/page.tsx:35 | every kept element passes the test; each passing value keeps its multiplicity and failing values are gone; the result is a subsequence of the input (order kept); if every element passes, the list is unchanged |
| IdLists.Without | src/app/favorites/page.tsx:35 | the id no longer occurs; every other id occurs as often as before, in the original relative order; if the id was absent, the list is unchanged |
| IdLists.WithoutIdempotent | src/app/favorites/page.tsx:35 | dropping an id twice gives the same list as dropping it once |
| IdLists.Add | src/app/dashboard/page.tsx:66 | a set add keeps the list duplicate-free and adds exactly the new id to the members; an id already present changes nothing; a new id goes last, after the unchanged old list |
| IdLists.Delete | src/app/dashboard/page.tsx:64 | a set delete keeps the list duplicate-free, removes exactly that id from the members and keeps the others in order |
| IdLists.FromList | src/app/dashboard/page.tsx:25 | building a set from the stored list gives a duplicate-free list with exactly the stored ids, no longer than the stored list, ordered by each id's first occurrence in the stored list |
| IdLists.FromListOfNoDup | src/app/dashboard/page.tsx:22-25 | reading a duplicate-free stored list into a set gives back the same list in the same order |
| Decimal.NatToString | src/app/dashboard/page.tsx:48 | the offset is written as at least one decimal digit, with a leading zero only for 0 |
| Decimal.IntToString | src/app/dashboard/page.tsx:48 | the text of a number is non-empty and starts with a minus sign exactly when the number is negative |
| Decimal.IntToStringRoundTrip | src/app/dashboard/page.tsx:48 | the printed `from` parameter parses back to the number it was made from, negative values included |
| Dogs.WithoutId | src/app/favorites/page.tsx:37 | no remaining record has the removed id; every other record keeps its multiplicity and relative order; if no record had the id, the list is unchanged |
| Dogs.WithoutIdIdempotent | src/app/favorites/page.tsx:37 | removing records by the same id twice equals removing them once |
| Dogs.IdsWithoutId | src/app/favorites/page.tsx:35-37 | removing records by id and then taking their ids gives the same list as taking the ids and then dropping the id |
| Dogs.FirstIndex | src/app/favorites/page.tsx:44-46 | the result is the first position whose record has the id; it is none exactly when no record has the id |
| Dogs.Find | src/app/favorites/page.tsx:44-46 | the result is the first shown record with the requested id; it is none exactly when that id is not among the shown records' ids |
| Dogs.Ids | src/app/favorites/page.tsx:42 | the id list has one entry per record, and entry i is the id of record i |
| Dashboard.SortKey | src/app/dashboard/page.tsx:46 | the sort parameter is `breed:` followed by `asc` or `desc` |
| Dashboard.SortKeyRoundTrip | src/app/dashboard/page.tsx:46 | each sort order is read back from its sort parameter, so the two orders give different parameters |
| Dashboard.Offset | src/app/dashboard/page.tsx:48 | the offset of page p is a multiple of 20 whose quotient by 20 is p-1, and it is non-negative for p at least 1 |
| Dashboard.TotalPages | src/app/dashboard/page.tsx:53 | the page count is the least number of 20-result pages that hold the total: the pages cover the total, one page fewer would not, and the count is 0 exactly when the total is 0 |
| Dashboard.PageStartsInsideResults | src/app/dashboard/page.tsx:48-53 | for a page p of at least 1, its first result exists exactly when p is at most the page count |
| Dashboard.SearchQuery | src/app/dashboard/page.tsx:44-49 | the query sends the selected breeds and size 20; its sort parameter reads back as the chosen order and its `from` text reads back as (page-1)*20 |
| Dashboard.SearchFor | src/app/dashboard/page.tsx:28-30 | the search run for the current state sends the selected breeds and size 20; its sort parameter reads back as the current order and its `from` text as (currentPage-1)*20 |
| Dashboard.SearchQueryExamples | src/app/dashboard/page.tsx:44-49 | page 1 of a Boxer search sorted ascending sends breeds ["Boxer"], sort "breed:asc", size 20 and from "0"; page 3 sends from "40" |
| Dashboard.Mount | src/app/dashboard/page.tsx:11-25 | the favorites after mount are a duplicate-free list of exactly the stored ids, empty when nothing is stored, and equal to the stored list in order when it has no duplicates; the breed and dog lists start empty; the page starts at 1 with page count 1, ascending order, no breed filter, and loading |
| Dashboard.BreedsLoaded | src/app/dashboard/page.tsx:32-39 | a successful breed request replaces the breed list; a failed one changes nothing; no other field changes |
| Dashboard.ToggleFavorite | src/app/dashboard/page.tsx:61-70 | a present id is removed and an absent id is added; every other id keeps its membership; nothing else in the page state changes; the written list is duplicate-free and holds exactly the new set |
| Dashboard.ToggleTwiceRestoresSet | src/app/dashboard/page.tsx:61-67 | toggling the same id twice restores the favorite set, and nothing else in the state changed |
| Dashboard.ToggleTwiceWrites | src/app/dashboard/page.tsx:61-69 | the second write of a double toggle equals the list before the first toggle when the id was absent; when it was present, the id comes back at the end |
| Dashboard.ToggleThenRemount | src/app/dashboard/page.tsx:69 | the list a toggle writes is read back on the next mount as exactly the in-memory favorites, in the same order |
| Dashboard.SelectBreeds | src/app/dashboard/page.tsx:89-96 | a new breed selection is stored and the current page becomes 1; nothing else changes |
| Dashboard.ChangeSort | src/app/dashboard/page.tsx:108-111 | a new sort order is stored and the current page becomes 1; nothing else changes |
| Dashboard.ChangePage | src/app/dashboard/page.tsx:150-154 | the pagination control sets the current page to the chosen value and changes nothing else |
| Dashboard.ResetQueriesFirstPage | src/app/dashboard/page.tsx:94-110 | whatever the previous page, the search after a breed or sort change asks from "0" with the new filter or order and keeps the other setting |
| Dashboard.RunSearch | src/app/dashboard/page.tsx:41-59 | the search sends the current query; the record lookup asks for exactly the returned ids, and only if the search call succeeded; when both calls succeed the dogs and the page count are replaced, otherwise both stay as they were; loading is cleared and nothing else changes |
| Dashboard.EmptyResultLeavesNoPages | src/app/dashboard/page.tsx:53 | a search with total 0 sets the page count to 0 while the current page stays 1 |
| FavoritesPage.Initial | src/app/favorites/page.tsx:10-11 | before loading completes, no favorite records are shown and the page is loading |
| FavoritesPage.StoredIds | src/app/favorites/page.tsx:19-20 | an absent storage key reads as the empty id list; a present one reads as the stored list |
| FavoritesPage.LoadFavorites | src/app/favorites/page.tsx:17-31 | an empty stored list makes no record lookup and keeps the shown list; otherwise the lookup asks for exactly the stored ids, and a successful reply replaces the shown list; a failed lookup keeps the shown list; loading is cleared in every case |
| FavoritesPage.EmptyStoreLoadsEmpty | src/app/favorites/page.tsx:19-29 | on first load with nothing stored, no lookup is made, the shown list is empty and loading is cleared |
| FavoritesPage.LoadPutsShownInStepWithStore | src/app/favorites/page.tsx:17-31 | on first load, if the lookup returns one record per requested id in order, the shown records' ids equal the stored list, also when that list is empty; a failed lookup leaves nothing shown |
| FavoritesPage.RemoveFavorite | src/app/favorites/page.tsx:33-38 | the written list is the stored list without any occurrence of the id, and other ids keep their count and order; the shown records lose every record with the id, and the others keep their count and order; a missing id leaves both lists unchanged |
| FavoritesPage.RemoveKeepsStoreAndListInStep | src/app/favorites/page.tsx:33-38 | if the shown records' ids equal the stored list before a removal, they equal the written list after it |
| FavoritesPage.RemoveTwiceIsRemoveOnce | src/app/favorites/page.tsx:35-37 | removing the same id again, starting from what the first removal left, changes neither the stored nor the shown list |
| FavoritesPage.RemoveScenario | src/app/favorites/page.tsx:33-38 | with "d1" and "d2" stored and shown, removing "d1" writes ["d2"] and leaves only the d2 record shown |
| FavoritesPage.DisplayName | src/app/favorites/page.tsx:48 | the name shown for a found record is that record's name, and a missing record shows as "undefined" |
| FavoritesPage.MatchMessage | src/app/favorites/page.tsx:48 | the alert text is the greeting "You've been matched with ", then the display name, then "!" |
| FavoritesPage.GenerateMatch | src/app/favorites/page.tsx:40-52 | the match request is exactly the shown records' ids, in order; a failed call shows nothing; a returned id that is among them is shown as a record with that id, and the alert names that record; a returned id that is not among them shows no record and the alert reads "undefined" |
| FavoritesPage.MatchShowsFirstRecord | src/app/favorites/page.tsx:44-48 | when several shown records have the match id, the first one is shown, and the alert carries its name |

## Left out

- `src/app/services/api.ts` (the HTTP client) is not modelled. Its responses are `Option` inputs, and the login and logout calls are not used by these pages.
- `localStorage`, `JSON.parse` and `JSON.stringify` are not modelled. Storage is an `Option<seq<string>>` of ids. Stored content other than a JSON array of strings is not modelled. On the search page, invalid JSON text, or parsed JSON that is not iterable (a number, a plain object), throws at mount, because that code has no guard. Some other content does not throw: stored `null` gives an empty set, a JSON string gives a set of its characters, and an array of numbers gives a set of numbers.
- Rendering, routing, `console.error` and the loading markup are not modelled; they are UI. The `alert` text of a match is modelled as `MatchShown.message`.
- When React re-runs the search effect is not modelled. The model gives `Dashboard.SearchFor` as the query of the next run.
- The race between overlapping searches, where a stale reply can overwrite a newer one, is not modelled. It is event-loop concurrency.
- The `Pagination` component is not part of this model. `Dashboard.ChangePage` accepts any page number, and nothing enforces the current page to stay within the page count.
- `Location`, `Coordinates` and the `next`/`prev` fields of `SearchResponse` are not modelled; the pages never read them.
- The favorite count in the "View Favorites" button is not modelled; it only displays the set's size.
- Decimal.IntToString: prints every whole number in plain digits. JavaScript switches to exponent notation from 10^21, which a page offset never reaches in practice.
- Dashboard.SortKey: the sort order comes from a `<select>` with two options, cast without a check. The model's two-value `SortOrder` leaves out any other string.
