/** The favourite-stocks list: membership, append and remove-all, each
    write mirrored to browser storage. A failed storage write is caught and
    logged, so the in-memory list changes either way. */
module Favorites {
  import opened Wrappers
  import SeqUtil
  import opened BrowserStorage

  /** The list in memory and the last list written to storage (None when no
      write has reached storage yet). */
  datatype FavoritesState = FavoritesState(favorites: seq<string>, persisted: Option<seq<string>>)

  /** The initial load: a stored list replaces the empty one; a missing
      entry or one that does not decode leaves it empty. */
  function LoadFavorites(stored: Stored<seq<string>>): (st: FavoritesState)
    ensures stored.Present? ==> st.favorites == stored.value
    ensures !stored.Present? ==> st.favorites == []
    ensures st.persisted == None
  {
    FavoritesState(if stored.Present? then stored.value else [], None)
  }

  /** `updateLocalStorage`: record the write when storage accepts it. */
  function Persist(st: FavoritesState, updated: seq<string>, storageOk: bool): FavoritesState {
    FavoritesState(updated, if storageOk then Some(updated) else st.persisted)
  }

  predicate IsFavorite(st: FavoritesState, symbol: string) {
    symbol in st.favorites
  }

  /** Appends the symbol, without checking for a duplicate. */
  function AddFavorite(st: FavoritesState, symbol: string, storageOk: bool): (r: FavoritesState)
    ensures |r.favorites| == |st.favorites| + 1
    ensures r.favorites[..|st.favorites|] == st.favorites && r.favorites[|st.favorites|] == symbol
    ensures storageOk ==> r.persisted == Some(r.favorites)
    ensures !storageOk ==> r.persisted == st.persisted
  {
    Persist(st, st.favorites + [symbol], storageOk)
  }

  /** Removes every occurrence of the symbol, keeping the rest in order. */
  function RemoveFavorite(st: FavoritesState, symbol: string, storageOk: bool): (r: FavoritesState)
    ensures symbol !in r.favorites
    ensures forall t :: t != symbol ==> (t in r.favorites <==> t in st.favorites)
    ensures |r.favorites| <= |st.favorites|
    ensures storageOk ==> r.persisted == Some(r.favorites)
    ensures !storageOk ==> r.persisted == st.persisted
  {
    Persist(st, SeqUtil.RemoveAll(st.favorites, symbol), storageOk)
  }

  /** After adding a symbol it is a favourite; after removing it it is not;
      no other symbol's membership changes. */
  lemma MembershipAfterUpdate(st: FavoritesState, s: string, t: string, storageOk: bool)
    requires t != s
    ensures IsFavorite(AddFavorite(st, s, storageOk), s)
    ensures !IsFavorite(RemoveFavorite(st, s, storageOk), s)
    ensures IsFavorite(AddFavorite(st, s, storageOk), t) <==> IsFavorite(st, t)
    ensures IsFavorite(RemoveFavorite(st, s, storageOk), t) <==> IsFavorite(st, t)
  {
    var added := AddFavorite(st, s, storageOk).favorites;
    assert added[|st.favorites|] == s;
    assert forall i | 0 <= i < |st.favorites| :: added[i] == st.favorites[i];
  }

  /** Adding a symbol that was not a favourite and removing it again gives
      back the original list. */
  lemma AddThenRemoveRoundTrip(st: FavoritesState, s: string, storageOk: bool)
    requires !IsFavorite(st, s)
    ensures RemoveFavorite(AddFavorite(st, s, storageOk), s, storageOk).favorites == st.favorites
  {
    SeqUtil.RemoveAllAppend(st.favorites, [s], s);
    SeqUtil.RemoveAllAbsent(st.favorites, s);
    assert SeqUtil.RemoveAll([s], s) == [];
  }

  /** Removal keeps the relative order of the remaining symbols. */
  lemma RemovePreservesOrder(a: seq<string>, b: seq<string>, s: string, storageOk: bool)
    ensures RemoveFavorite(FavoritesState(a + b, None), s, storageOk).favorites ==
      RemoveFavorite(FavoritesState(a, None), s, storageOk).favorites + RemoveFavorite(FavoritesState(b, None), s, storageOk).favorites
  {
    SeqUtil.RemoveAllAppend(a, b, s);
  }
}
