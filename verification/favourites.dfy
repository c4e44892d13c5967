/** FavouriteContext: the favourite list and its single toggle. */
module Favourites {
  import opened Songs

  /** `toggleFavourite(song)`: drops every entry with the song's id when one
      is present, otherwise appends the song at the end. */
  function ToggleFavourite(favourites: seq<Song>, song: Song): (r: seq<Song>)
    ensures !HasId(favourites, song.id) ==> r == favourites + [song]
    ensures HasId(favourites, song.id) ==> r == RemoveId(favourites, song.id)
    ensures HasId(r, song.id) <==> !HasId(favourites, song.id)
  {
    if HasId(favourites, song.id) then RemoveId(favourites, song.id)
    else
      var r := favourites + [song];
      assert r[|favourites|] == song;
      r
  }

  /** Toggling a song that is not a favourite twice gives back the list. */
  lemma ToggleAbsentTwiceRestores(favourites: seq<Song>, song: Song)
    requires !HasId(favourites, song.id)
    ensures ToggleFavourite(ToggleFavourite(favourites, song), song) == favourites
  {
    RemoveIdAppend(favourites, [song], song.id);
    RemoveAbsentId(favourites, song.id);
    assert RemoveId([song], song.id) == [];
  }

  /** Entries with another id are untouched: with the toggled id filtered
      out, the list is the same before and after. */
  lemma ToggleLeavesOthersAlone(favourites: seq<Song>, song: Song)
    ensures RemoveId(ToggleFavourite(favourites, song), song.id) == RemoveId(favourites, song.id)
  {
    if HasId(favourites, song.id) {
      RemoveAbsentId(RemoveId(favourites, song.id), song.id);
    } else {
      RemoveIdAppend(favourites, [song], song.id);
      assert RemoveId([song], song.id) == [];
    }
  }

  /** A list without duplicate ids keeps that property through a toggle. */
  lemma ToggleKeepsIdsUnique(favourites: seq<Song>, song: Song)
    requires NoDuplicateIds(favourites)
    ensures NoDuplicateIds(ToggleFavourite(favourites, song))
  {
    if HasId(favourites, song.id) {
      RemoveIdPreservesNoDuplicates(favourites, song.id);
    } else {
      var r := favourites + [song];
      forall i, j | 0 <= i < j < |r|
        ensures r[i].id != r[j].id
      {
        if j == |favourites| {
          assert r[i] == favourites[i];
        }
      }
    }
  }
}
