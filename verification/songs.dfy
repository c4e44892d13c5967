/** Tracks and the id-keyed sequence operations every context shares. */
module Songs {

  /** A track. Its identity is `id`; the other fields are display data and the
      URI handed to the audio device. */
  datatype Song = Song(id: string, title: string, artist: string, thumbnail: string, uri: string)

  /** Some entry of `songs` carries `id` (the source's `some(s => s.id === id)`). */
  predicate HasId(songs: seq<Song>, id: string) {
    exists k :: 0 <= k < |songs| && songs[k].id == id
  }

  /** No two entries share an id. */
  predicate NoDuplicateIds(songs: seq<Song>) {
    forall i, j :: 0 <= i < j < |songs| ==> songs[i].id != songs[j].id
  }

  /** `findIndex(s => s.id === id)`: the first position carrying `id`, or -1. */
  function IndexOfId(songs: seq<Song>, id: string): (r: int)
    ensures -1 <= r < |songs|
    ensures r == -1 <==> !HasId(songs, id)
    ensures r >= 0 ==> songs[r].id == id
    ensures r >= 0 ==> forall k :: 0 <= k < r ==> songs[k].id != id
  {
    if |songs| == 0 then -1
    else if songs[0].id == id then 0
    else
      var r := IndexOfId(songs[1..], id);
      assert forall k :: 1 <= k < |songs| ==> songs[k] == songs[1..][k - 1];
      if r == -1 then -1 else r + 1
  }

  /** `filter(s => s.id !== id)`: every entry carrying `id` is dropped, the
      others keep their order. */
  function RemoveId(songs: seq<Song>, id: string): (r: seq<Song>)
    ensures |r| <= |songs|
    ensures !HasId(r, id)
    ensures forall x :: x in r <==> x in songs && x.id != id
  {
    if |songs| == 0 then []
    else if songs[0].id == id then RemoveId(songs[1..], id)
    else [songs[0]] + RemoveId(songs[1..], id)
  }

  /** `filter(s => s.id === id)`: only the entries carrying `id`, in order. */
  function KeepId(songs: seq<Song>, id: string): (r: seq<Song>)
    ensures |r| <= |songs|
    ensures forall x :: x in r <==> x in songs && x.id == id
  {
    if |songs| == 0 then []
    else if songs[0].id == id then [songs[0]] + KeepId(songs[1..], id)
    else KeepId(songs[1..], id)
  }

  /** Filtering distributes over concatenation, so it keeps the relative order
      of what it keeps. */
  lemma {:induction false} RemoveIdAppend(a: seq<Song>, b: seq<Song>, id: string)
    ensures RemoveId(a + b, id) == RemoveId(a, id) + RemoveId(b, id)
  {
    if |a| == 0 {
      assert a + b == b;
    } else {
      assert (a + b)[1..] == a[1..] + b;
      RemoveIdAppend(a[1..], b, id);
    }
  }

  /** The inverted filter also distributes over concatenation: it keeps the
      matching entries in order and with their multiplicity. */
  lemma {:induction false} KeepIdAppend(a: seq<Song>, b: seq<Song>, id: string)
    ensures KeepId(a + b, id) == KeepId(a, id) + KeepId(b, id)
  {
    if |a| == 0 {
      assert a + b == b;
    } else {
      assert (a + b)[1..] == a[1..] + b;
      KeepIdAppend(a[1..], b, id);
    }
  }

  /** A list without `id` is left exactly as it was. */
  lemma {:induction false} RemoveAbsentId(songs: seq<Song>, id: string)
    requires !HasId(songs, id)
    ensures RemoveId(songs, id) == songs
  {
    if |songs| > 0 {
      assert !HasId(songs[1..], id) by {
        forall k | 0 <= k < |songs[1..]|
          ensures songs[1..][k].id != id
        {
          assert songs[1..][k] == songs[k + 1];
        }
      }
      RemoveAbsentId(songs[1..], id);
    }
  }

  /** Dropping entries cannot create a duplicate id. */
  lemma {:induction false} RemoveIdPreservesNoDuplicates(songs: seq<Song>, id: string)
    requires NoDuplicateIds(songs)
    ensures NoDuplicateIds(RemoveId(songs, id))
  {
    if |songs| > 0 {
      var tail := songs[1..];
      TailNoDuplicates(songs);
      RemoveIdPreservesNoDuplicates(tail, id);
      if songs[0].id != id {
        HeadIdNotInTail(songs);
        ConsNoDuplicates(songs[0], RemoveId(tail, id));
      }
    }
  }

  lemma TailNoDuplicates(songs: seq<Song>)
    requires |songs| > 0 && NoDuplicateIds(songs)
    ensures NoDuplicateIds(songs[1..])
  {
    var tail := songs[1..];
    forall i, j | 0 <= i < j < |tail|
      ensures tail[i].id != tail[j].id
    {
      assert tail[i] == songs[i + 1] && tail[j] == songs[j + 1];
    }
  }

  lemma HeadIdNotInTail(songs: seq<Song>)
    requires |songs| > 0 && NoDuplicateIds(songs)
    ensures forall x :: x in songs[1..] ==> x.id != songs[0].id
  {
    forall x | x in songs[1..]
      ensures x.id != songs[0].id
    {
      var k :| 0 <= k < |songs[1..]| && songs[1..][k] == x;
      assert songs[1..][k] == songs[k + 1];
    }
  }

  lemma ConsNoDuplicates(head: Song, rest: seq<Song>)
    requires NoDuplicateIds(rest)
    requires forall x :: x in rest ==> x.id != head.id
    ensures NoDuplicateIds([head] + rest)
  {
    var r := [head] + rest;
    forall i, j | 0 <= i < j < |r|
      ensures r[i].id != r[j].id
    {
      assert r[j] == rest[j - 1];
      if i == 0 {
        assert rest[j - 1] in rest;
      } else {
        assert r[i] == rest[i - 1];
      }
    }
  }
}
