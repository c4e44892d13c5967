/** Playlist bookkeeping, as written twice in the source: once in
    PlayListContext (whose removal is broken) and once in PlayerContext
    (whose removal works). The two copies agree on everything else. */
module Playlists {
  import opened Wrappers
  import opened Songs

  /** A playlist. `createdAt` is a timestamp in milliseconds; `straySongs`
      stands for the misspelt `song` property the broken removal attaches,
      which nothing else reads. */
  datatype Playlist = Playlist(
    id: string,
    name: string,
    songs: seq<Song>,
    createdAt: int,
    straySongs: Option<seq<Song>>)

  /** `new Date("2024-01-01")` in milliseconds since the epoch. */
  const DefaultCreatedAt: int := 1704067200000

  const DefaultPlaylists: seq<Playlist> := [
    Playlist("1", "My Favorites", [], DefaultCreatedAt, None),
    Playlist("2", "Recently Added", [], DefaultCreatedAt, None)
  ]

  lemma DefaultPlaylistsShape()
    ensures |DefaultPlaylists| == 2
    ensures DefaultPlaylists[0].id == "1" && DefaultPlaylists[1].id == "2"
    ensures forall k :: 0 <= k < |DefaultPlaylists| ==> DefaultPlaylists[k].songs == []
  {
  }

  /** Some playlist has this id. */
  predicate HasPlaylist(ps: seq<Playlist>, id: string) {
    exists k :: 0 <= k < |ps| && ps[k].id == id
  }

  /** Same number of playlists, with the same ids at the same positions. */
  predicate SameIds(a: seq<Playlist>, b: seq<Playlist>) {
    |a| == |b| && forall k :: 0 <= k < |a| ==> a[k].id == b[k].id
  }

  /** `createPlaylist(name)`, with the `Date.now()` id and the `new Date()`
      timestamp as inputs: returns the new list and the created playlist. */
  function CreatePlaylist(ps: seq<Playlist>, name: string, id: string, now: int): (r: (seq<Playlist>, Playlist))
    ensures |r.0| == |ps| + 1 && r.0[..|ps|] == ps
    ensures r.0[|ps|] == r.1
    ensures r.1.id == id && r.1.name == name && r.1.songs == [] && r.1.createdAt == now
  {
    var created := Playlist(id, name, [], now, None);
    (ps + [created], created)
  }

  /** Apply `f` to every playlist whose id is `id`: the source's
      `prev.map(p => p.id === id ? f(p) : p)`. */
  function UpdateWhere(ps: seq<Playlist>, id: string, f: Playlist -> Playlist): (r: seq<Playlist>)
    ensures |r| == |ps|
    ensures forall k :: 0 <= k < |ps| ==> r[k] == (if ps[k].id == id then f(ps[k]) else ps[k])
  {
    if |ps| == 0 then []
    else [if ps[0].id == id then f(ps[0]) else ps[0]] + UpdateWhere(ps[1..], id, f)
  }

  /** One playlist gets the song unless a song with its id is already there. */
  function AddSong(p: Playlist, song: Song): (r: Playlist)
    ensures HasId(r.songs, song.id)
    ensures HasId(p.songs, song.id) ==> r == p
    ensures !HasId(p.songs, song.id) ==> r == p.(songs := p.songs + [song])
  {
    if HasId(p.songs, song.id) then p
    else
      var r := p.(songs := p.songs + [song]);
      assert r.songs[|p.songs|] == song;
      r
  }

  /** `addToPlaylist(playlistId, song)`; the reported result is always true. */
  function AddToPlaylist(ps: seq<Playlist>, playlistId: string, song: Song): (r: (seq<Playlist>, bool))
    ensures r.1
    ensures SameIds(ps, r.0)
    ensures forall k :: 0 <= k < |ps| && ps[k].id != playlistId ==> r.0[k] == ps[k]
    ensures forall k :: 0 <= k < |ps| && ps[k].id == playlistId && HasId(ps[k].songs, song.id) ==> r.0[k] == ps[k]
    ensures forall k :: 0 <= k < |ps| && ps[k].id == playlistId && !HasId(ps[k].songs, song.id) ==>
      r.0[k] == ps[k].(songs := ps[k].songs + [song])
  {
    (UpdateWhere(ps, playlistId, (p: Playlist) => AddSong(p, song)), true)
  }

  /** Adding the same song twice is the same as adding it once. */
  lemma AddToPlaylistIdempotent(ps: seq<Playlist>, playlistId: string, song: Song)
    ensures AddToPlaylist(AddToPlaylist(ps, playlistId, song).0, playlistId, song) == AddToPlaylist(ps, playlistId, song)
  {
    var once := AddToPlaylist(ps, playlistId, song).0;
    var twice := AddToPlaylist(once, playlistId, song).0;
    assert forall k :: 0 <= k < |ps| && ps[k].id == playlistId ==> HasId(once[k].songs, song.id);
    assert twice == once;
  }

  /** PlayListContext's `removeFromPlaylist` as written: the matching
      playlist gains a stray property holding the songs WITH that id, its
      `songs` stay as they were; the result is true. */
  function RemoveFromPlaylistAsWritten(ps: seq<Playlist>, playlistId: string, songId: string): (r: (seq<Playlist>, bool))
    ensures r.1
    ensures SameIds(ps, r.0)
    ensures forall k :: 0 <= k < |ps| ==> r.0[k].songs == ps[k].songs
    ensures forall k :: 0 <= k < |ps| && ps[k].id != playlistId ==> r.0[k] == ps[k]
    ensures forall k :: 0 <= k < |ps| && ps[k].id == playlistId ==>
      r.0[k] == ps[k].(straySongs := Some(KeepId(ps[k].songs, songId)))
  {
    (UpdateWhere(ps, playlistId, (p: Playlist) => p.(straySongs := Some(KeepId(p.songs, songId)))), true)
  }

  /** The broken removal removes nothing: a playlist holding the song still
      holds it afterwards. */
  lemma RemoveAsWrittenKeepsSong(ps: seq<Playlist>, playlistId: string, songId: string, k: nat)
    requires k < |ps| && ps[k].id == playlistId && HasId(ps[k].songs, songId)
    ensures HasId(RemoveFromPlaylistAsWritten(ps, playlistId, songId).0[k].songs, songId)
  {
  }

  /** A concrete witness: the default "My Favorites" playlist holding one
      song still holds it after that song is "removed". */
  lemma RemoveAsWrittenCounterexample()
    ensures var song := Song("s", "", "", "", "");
      var ps := AddToPlaylist(DefaultPlaylists, "1", song).0;
      RemoveFromPlaylistAsWritten(ps, "1", "s").0[0].songs == [song]
  {
  }

  /** PlayerContext's `removeFromPlaylist`: the matching playlists lose every
      song with that id; the result is true. */
  function RemoveFromPlaylist(ps: seq<Playlist>, playlistId: string, songId: string): (r: (seq<Playlist>, bool))
    ensures r.1
    ensures SameIds(ps, r.0)
    ensures forall k :: 0 <= k < |ps| && ps[k].id != playlistId ==> r.0[k] == ps[k]
    ensures forall k :: 0 <= k < |ps| && ps[k].id == playlistId ==>
      && !HasId(r.0[k].songs, songId)
      && r.0[k] == ps[k].(songs := r.0[k].songs)
      && (forall x :: x in r.0[k].songs <==> x in ps[k].songs && x.id != songId)
  {
    (UpdateWhere(ps, playlistId, (p: Playlist) => p.(songs := RemoveId(p.songs, songId))), true)
  }

  /** Adding a song that was not there and then removing it restores the playlists. */
  lemma AddThenRemoveRestores(ps: seq<Playlist>, playlistId: string, song: Song)
    requires forall k :: 0 <= k < |ps| && ps[k].id == playlistId ==> !HasId(ps[k].songs, song.id)
    ensures RemoveFromPlaylist(AddToPlaylist(ps, playlistId, song).0, playlistId, song.id).0 == ps
  {
    var added := AddToPlaylist(ps, playlistId, song).0;
    var removed := RemoveFromPlaylist(added, playlistId, song.id).0;
    forall k | 0 <= k < |ps| && ps[k].id == playlistId
      ensures removed[k] == ps[k]
    {
      RemoveIdAppend(ps[k].songs, [song], song.id);
      RemoveAbsentId(ps[k].songs, song.id);
      assert RemoveId([song], song.id) == [];
    }
  }

  /** `deletePlaylist(playlistId)`: every playlist with that id goes, the rest
      keep their order; the result is true. */
  function DeletePlaylist(ps: seq<Playlist>, playlistId: string): (r: (seq<Playlist>, bool))
    ensures r.1
    ensures |r.0| <= |ps|
    ensures !HasPlaylist(r.0, playlistId)
    ensures forall p :: p in r.0 <==> p in ps && p.id != playlistId
  {
    (Without(ps, playlistId), true)
  }

  function Without(ps: seq<Playlist>, playlistId: string): (r: seq<Playlist>)
    ensures |r| <= |ps|
    ensures !HasPlaylist(r, playlistId)
    ensures forall p :: p in r <==> p in ps && p.id != playlistId
  {
    if |ps| == 0 then []
    else if ps[0].id == playlistId then Without(ps[1..], playlistId)
    else [ps[0]] + Without(ps[1..], playlistId)
  }

  /** Deletion keeps the relative order of the survivors: it distributes over
      concatenation. */
  lemma {:induction false} DeletePlaylistKeepsOrder(a: seq<Playlist>, b: seq<Playlist>, playlistId: string)
    ensures DeletePlaylist(a + b, playlistId).0 == DeletePlaylist(a, playlistId).0 + DeletePlaylist(b, playlistId).0
  {
    if |a| == 0 {
      assert a + b == b;
    } else {
      assert (a + b)[1..] == a[1..] + b;
      DeletePlaylistKeepsOrder(a[1..], b, playlistId);
    }
  }

  /** Deleting an id no playlist has leaves the list untouched. */
  lemma {:induction false} DeleteAbsentPlaylist(ps: seq<Playlist>, playlistId: string)
    requires !HasPlaylist(ps, playlistId)
    ensures DeletePlaylist(ps, playlistId).0 == ps
  {
    if |ps| > 0 {
      assert !HasPlaylist(ps[1..], playlistId) by {
        forall k | 0 <= k < |ps[1..]| ensures ps[1..][k].id != playlistId {
          assert ps[1..][k] == ps[k + 1];
        }
      }
      DeleteAbsentPlaylist(ps[1..], playlistId);
    }
  }

  /** `getPlaylistById(playlistId)`: the first playlist with that id, or null. */
  function GetPlaylistById(ps: seq<Playlist>, playlistId: string): (r: Option<Playlist>)
    ensures r.None? <==> !HasPlaylist(ps, playlistId)
    ensures r.Some? ==> r.value in ps && r.value.id == playlistId
    ensures forall k :: 0 <= k < |ps| && ps[k].id == playlistId && (forall j :: 0 <= j < k ==> ps[j].id != playlistId) ==>
      r == Some(ps[k])
  {
    if |ps| == 0 then None
    else if ps[0].id == playlistId then Some(ps[0])
    else
      assert forall k :: 1 <= k < |ps| ==> ps[k] == ps[1..][k - 1];
      GetPlaylistById(ps[1..], playlistId)
  }

  /** A created playlist can be found again under its id when the id was fresh. */
  lemma CreatedPlaylistIsFound(ps: seq<Playlist>, name: string, id: string, now: int)
    requires !HasPlaylist(ps, id)
    ensures GetPlaylistById(CreatePlaylist(ps, name, id, now).0, id) == Some(CreatePlaylist(ps, name, id, now).1)
  {
  }
}
