/** The favorites page: loading the stored favorite ids as records, removing a
    favorite from storage and from the shown list, and resolving a match id
    against the records already shown. */
module FavoritesPage {

  import opened Optional
  import opened IdLists
  import opened Dogs

  /** Component state: the favorite records shown and the loading flag. */
  datatype FavoritesState = FavoritesState(favorites: seq<Dog>, loading: bool)

  /** What loading asks of the record lookup (None: no request made) and the
      state it leaves. */
  datatype LoadStep = LoadStep(bulkRequest: Option<seq<string>>, state: FavoritesState)

  /** The new state and the id list written back to storage by a removal. */
  datatype Removed = Removed(state: FavoritesState, written: seq<string>)

  /** What the match alert shows: the record found for the match id, if any,
      and the alert text. */
  datatype MatchShown = MatchShown(dog: Option<Dog>, message: string)

  /** The ids submitted for matching and, when the match call succeeded, what
      was shown. */
  datatype MatchStep = MatchStep(request: seq<string>, shown: Option<MatchShown>)

  /** The state before mounting completes: nothing shown, still loading. */
  function Initial(): (st: FavoritesState)
    ensures st.favorites == [] && st.loading
  {
    FavoritesState([], true)
  }

  /** The stored favorite id list; an absent storage key reads as empty. */
  function StoredIds(saved: Option<seq<string>>): (ids: seq<string>)
    ensures saved.None? ==> ids == []
    ensures saved.Some? ==> ids == saved.value
  {
    saved.ValueOr([])
  }

  /** Loads the stored ids. An empty list makes no record lookup; otherwise
      the records returned replace the shown list, and a failed lookup leaves
      it as it was. Loading is cleared in every case. */
  function LoadFavorites(st: FavoritesState, saved: Option<seq<string>>, response: Option<seq<Dog>>): (r: LoadStep)
    ensures StoredIds(saved) == [] ==> r.bulkRequest.None? && r.state.favorites == st.favorites
    ensures StoredIds(saved) != [] ==> r.bulkRequest == Some(StoredIds(saved))
    ensures StoredIds(saved) != [] && response.Some? ==> r.state.favorites == response.value
    ensures response.None? ==> r.state.favorites == st.favorites
    ensures !r.state.loading
  {
    var ids := StoredIds(saved);
    if |ids| > 0 then
      match response
      case Some(records) => LoadStep(Some(ids), FavoritesState(records, false))
      case None => LoadStep(Some(ids), st.(loading := false))
    else
      LoadStep(None, st.(loading := false))
  }

  /** On first load with nothing stored, the page shows an empty list, is no
      longer loading, and made no record lookup, whatever the lookup would
      have returned. */
  lemma EmptyStoreLoadsEmpty(saved: Option<seq<string>>, response: Option<seq<Dog>>)
    requires saved.None? || saved == Some([])
    ensures LoadFavorites(Initial(), saved, response) == LoadStep(None, FavoritesState([], false))
  {
  }

  /** On first load, when the lookup returns one record per requested id in
      request order, the shown records' ids equal the stored list. A failed
      lookup of a non-empty list leaves nothing shown. */
  lemma LoadPutsShownInStepWithStore(saved: Option<seq<string>>, response: Option<seq<Dog>>)
    requires response.Some? ==> Ids(response.value) == StoredIds(saved)
    ensures response.Some? || StoredIds(saved) == [] ==>
      Ids(LoadFavorites(Initial(), saved, response).state.favorites) == StoredIds(saved)
    ensures response.None? ==> LoadFavorites(Initial(), saved, response).state.favorites == []
  {
  }

  /** Removes `id` from the stored id list (every occurrence) and from the
      shown records; everything else keeps its order. */
  function RemoveFavorite(st: FavoritesState, saved: Option<seq<string>>, id: string): (r: Removed)
    ensures id !in r.written
    ensures forall y :: y != id ==> multiset(r.written)[y] == multiset(StoredIds(saved))[y]
    ensures IsSubsequence(r.written, StoredIds(saved))
    ensures id !in StoredIds(saved) ==> r.written == StoredIds(saved)
    ensures forall i :: 0 <= i < |r.state.favorites| ==> r.state.favorites[i].id != id
    ensures forall d: Dog :: d.id != id ==> multiset(r.state.favorites)[d] == multiset(st.favorites)[d]
    ensures IsSubsequence(r.state.favorites, st.favorites)
    ensures id !in Ids(st.favorites) ==> r.state.favorites == st.favorites
    ensures r.state.loading == st.loading
  {
    Removed(st.(favorites := WithoutId(st.favorites, id)), Without(StoredIds(saved), id))
  }

  /** When the shown records match the stored ids, they still match after a
      removal: storage and screen never disagree about what was removed. */
  lemma RemoveKeepsStoreAndListInStep(st: FavoritesState, saved: seq<string>, id: string)
    requires Ids(st.favorites) == saved
    ensures Ids(RemoveFavorite(st, Some(saved), id).state.favorites) == RemoveFavorite(st, Some(saved), id).written
  {
    IdsWithoutId(st.favorites, id);
  }

  /** Removing the same id a second time, reading the list the first removal
      wrote, changes neither storage nor the shown records. */
  lemma RemoveTwiceIsRemoveOnce(st: FavoritesState, saved: Option<seq<string>>, id: string)
    ensures var once := RemoveFavorite(st, saved, id);
      RemoveFavorite(once.state, Some(once.written), id) == once
  {
  }

  /** Two stored favorites, both shown; removing the first leaves one of each. */
  lemma RemoveScenario(d1: Dog, d2: Dog)
    requires d1.id == "d1" && d2.id == "d2"
    ensures var r := RemoveFavorite(FavoritesState([d1, d2], false), Some(["d1", "d2"]), "d1");
      r.written == ["d2"] && r.state.favorites == [d2]
  {
  }

  const MatchGreeting: string := "You've been matched with "

  /** Text shown for the matched dog's name; a missing record prints as
      `undefined`. */
  function DisplayName(dog: Option<Dog>): (name: string)
    ensures dog.Some? ==> name == dog.value.name
    ensures dog.None? ==> name == "undefined"
  {
    match dog
    case Some(d) => d.name
    case None => "undefined"
  }

  /** The alert text: a fixed greeting, the display name, and `!`. */
  function MatchMessage(dog: Option<Dog>): (m: string)
    ensures |m| == |MatchGreeting| + |DisplayName(dog)| + 1
    ensures m[..|MatchGreeting|] == MatchGreeting
    ensures m[|MatchGreeting|..|m| - 1] == DisplayName(dog)
    ensures m[|m| - 1] == '!'
  {
    MatchGreeting + DisplayName(dog) + "!"
  }

  /** Submits the ids of the shown records, in order, and looks the returned
      id up among those same records. A failed call shows nothing. */
  function GenerateMatch(st: FavoritesState, response: Option<string>): (r: MatchStep)
    ensures r.request == Ids(st.favorites)
    ensures response.None? ==> r.shown.None?
    ensures response.Some? && response.value in r.request ==>
      && r.shown.Some?
      && r.shown.value.dog.Some?
      && r.shown.value.dog.value in st.favorites
      && r.shown.value.dog.value.id == response.value
      && r.shown.value.message == MatchMessage(r.shown.value.dog)
    ensures response.Some? && response.value !in r.request ==>
      r.shown == Some(MatchShown(None, "You've been matched with undefined!"))
  {
    var request := Ids(st.favorites);
    match response
    case None => MatchStep(request, None)
    case Some(m) =>
      var dog := Find(st.favorites, m);
      assert MatchMessage(None) == "You've been matched with undefined!";
      MatchStep(request, Some(MatchShown(dog, MatchMessage(dog))))
  }

  /** The record shown for a match is the first shown record with the match
      id, and the alert names that record. */
  lemma MatchShowsFirstRecord(st: FavoritesState, m: string, k: nat)
    requires k < |st.favorites| && st.favorites[k].id == m
    requires forall j :: 0 <= j < k ==> st.favorites[j].id != m
    ensures GenerateMatch(st, Some(m)).shown ==
      Some(MatchShown(Some(st.favorites[k]), "You've been matched with " + st.favorites[k].name + "!"))
  {
  }
}
