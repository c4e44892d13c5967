/** The pure helpers of the full-screen player: the `m:ss` clock, the loop
    button's icon and colour, and the name check before a playlist is made. */
module PlayerView {
  import opened Wrappers
  import opened Songs
  import opened Loop
  import opened Decimal
  import opened Playlists

  /** JavaScript's `Math.trunc`: toward zero. */
  function Trunc(x: real): int {
    if x >= 0.0 then x.Floor else -((-x).Floor)
  }

  /** Seconds field: `"0"` before a value below 10, then the value. */
  function PadSeconds(s: int): string {
    (if s < 10 then "0" else "") + IntToString(s)
  }

  /** `formatTime(secs)`: `0` prints as "0:00"; otherwise whole minutes,
      a colon and the seconds left over (`secs % 60`, which truncates). */
  function FormatTime(secs: real): (r: string)
    ensures secs == 0.0 ==> r == "0:00"
  {
    if secs == 0.0 then "0:00"
    else
      var m := (secs / 60.0).Floor;
      var s := (secs - 60.0 * (Trunc(secs / 60.0) as real)).Floor;
      IntToString(m) + ":" + PadSeconds(s)
  }

  /** For a non-negative time, the minutes and seconds fields add up to the
      whole seconds and the seconds field is below a minute. */
  lemma ClockShape(secs: real)
    requires secs >= 0.0
    ensures var m := (secs / 60.0).Floor;
      var s := (secs - 60.0 * (Trunc(secs / 60.0) as real)).Floor;
      && m >= 0 && 0 <= s <= 59
      && m * 60 + s == secs.Floor
      && |PadSeconds(s)| == 2 && AllDigits(PadSeconds(s)) && ValueOf(PadSeconds(s)) == s
  {
    var m := (secs / 60.0).Floor;
    assert Trunc(secs / 60.0) == m;
    var rest := secs - 60.0 * (m as real);
    assert 0.0 <= rest < 60.0;
    var s := rest.Floor;
    FloorShift(secs, 60 * m);
    PadSecondsDigits(s);
  }

  /** Shifting by a whole number shifts the floor by it. */
  lemma FloorShift(x: real, k: int)
    ensures (x - k as real).Floor == x.Floor - k
  {
  }

  lemma PadSecondsDigits(s: int)
    requires 0 <= s <= 59
    ensures |PadSeconds(s)| == 2 && AllDigits(PadSeconds(s)) && ValueOf(PadSeconds(s)) == s
  {
    var p := PadSeconds(s);
    ValueOfNatToString(s);
    if s < 10 {
      assert p == "0" + NatToString(s);
      assert p[..1] == "0";
    }
  }

  /** Reads an `m:ss` clock back into whole seconds. */
  function ClockSeconds(t: string): Option<int> {
    if |t| < 4 || t[|t| - 3] != ':' then None
    else
      var minutes := t[..|t| - 3];
      var seconds := t[|t| - 2..];
      if AllDigits(minutes) && AllDigits(seconds) && ValueOf(seconds) < 60
      then Some(60 * ValueOf(minutes) + ValueOf(seconds))
      else None
  }

  /** Splitting a clock at its colon recovers both fields. */
  lemma ClockSplit(minutes: string, seconds: string, m: nat, sec: nat)
    requires |minutes| > 0 && AllDigits(minutes) && ValueOf(minutes) == m
    requires |seconds| == 2 && AllDigits(seconds) && ValueOf(seconds) == sec && sec < 60
    ensures ClockSeconds(minutes + ":" + seconds) == Some(60 * m + sec)
  {
    var t := minutes + ":" + seconds;
    var n := |t|;
    assert n == |minutes| + 3 && n >= 4;
    assert t[n - 3] == ':';
    var front, back := t[..n - 3], t[n - 2..];
    assert front == minutes;
    assert back == seconds;
    assert ClockSeconds(t) == Some(60 * ValueOf(front) + ValueOf(back));
  }

  /** A clock built from a minutes count and a seconds field reads back as
      their total. */
  lemma ClockOfParts(m: nat, sec: int)
    requires 0 <= sec <= 59
    ensures ClockSeconds(NatToString(m) + ":" + PadSeconds(sec)) == Some(60 * m + sec)
  {
    PadSecondsDigits(sec);
    ValueOfNatToString(m);
    ClockSplit(NatToString(m), PadSeconds(sec), m, sec);
  }

  /** The clock shows the whole seconds elapsed: reading a formatted
      non-negative time gives back its floor. */
  lemma FormatTimeRoundTrip(secs: real)
    requires secs >= 0.0
    ensures ClockSeconds(FormatTime(secs)) == Some(secs.Floor)
  {
    var m := (secs / 60.0).Floor;
    var sec := (secs - 60.0 * (Trunc(secs / 60.0) as real)).Floor;
    ClockShape(secs);
    if secs == 0.0 {
      assert m == 0 && sec == 0;
      assert NatToString(0) == "0" && PadSeconds(0) == "00";
      assert FormatTime(secs) == "0" + ":" + "00";
    }
    assert FormatTime(secs) == NatToString(m) + ":" + PadSeconds(sec);
    ClockOfParts(m, sec);
  }

  /** `getLoopIcon()`: only repeat-all shows the solid icon. */
  function LoopIcon(mode: LoopMode): (r: string)
    ensures r == "repeat" <==> mode == All
    ensures r == "repeat-outline" <==> mode != All
  {
    match mode
    case One => "repeat-outline"
    case All => "repeat"
    case Off => "repeat-outline"
  }

  /** `getLoopIconColor()`: grey exactly when looping is off, accent otherwise. */
  function LoopIconColor(mode: LoopMode): (r: string)
    ensures r == "#666" <==> mode == Off
    ensures r == "#FF4C29" <==> mode != Off
  {
    if mode == Off then "#666" else "#FF4C29"
  }

  /** Icon and colour together tell the three modes apart. */
  lemma LoopIndicatorDistinguishesModes(a: LoopMode, b: LoopMode)
    requires LoopIcon(a) == LoopIcon(b) && LoopIconColor(a) == LoopIconColor(b)
    ensures a == b
  {
  }

  /** What `String.prototype.trim` strips: the ECMAScript WhiteSpace and
      LineTerminator code points. */
  predicate IsJsWhitespace(c: char) {
    || c == '\t' || c == '\n' || c == '\U{000B}' || c == '\U{000C}' || c == '\r'
    || c == ' ' || c == '\U{00A0}' || c == '\U{1680}'
    || ('\U{2000}' <= c <= '\U{200A}')
    || c == '\U{2028}' || c == '\U{2029}' || c == '\U{202F}' || c == '\U{205F}'
    || c == '\U{3000}' || c == '\U{FEFF}'
  }

  predicate AllWhitespace(s: string) {
    forall k :: 0 <= k < |s| ==> IsJsWhitespace(s[k])
  }

  /** Drops leading whitespace. */
  function TrimStart(s: string): (r: string)
    ensures |r| <= |s| && r == s[|s| - |r|..]
    ensures AllWhitespace(s[..|s| - |r|])
    ensures |r| > 0 ==> !IsJsWhitespace(r[0])
  {
    if |s| == 0 || !IsJsWhitespace(s[0]) then s
    else
      var r := TrimStart(s[1..]);
      assert s[..|s| - |r|] == [s[0]] + s[1..][..|s| - 1 - |r|];
      r
  }

  /** Drops trailing whitespace. */
  function TrimEnd(s: string): (r: string)
    ensures |r| <= |s| && r == s[..|r|]
    ensures AllWhitespace(s[|r|..])
    ensures |r| > 0 ==> !IsJsWhitespace(r[|r| - 1])
  {
    if |s| == 0 || !IsJsWhitespace(s[|s| - 1]) then s
    else
      var r := TrimEnd(s[..|s| - 1]);
      assert s[|r|..] == s[..|s| - 1][|r|..] + [s[|s| - 1]];
      r
  }

  /** `trim()`: the input with leading and trailing whitespace removed. */
  function Trim(s: string): (r: string)
    ensures |r| <= |s|
    ensures r == "" <==> AllWhitespace(s)
    ensures |r| > 0 ==> !IsJsWhitespace(r[0]) && !IsJsWhitespace(r[|r| - 1])
    ensures r <= s[|s| - |TrimStart(s)|..]
    ensures AllWhitespace(s[..|s| - |TrimStart(s)|])
    ensures AllWhitespace(s[|s| - |TrimStart(s)| + |r|..])
  {
    TrimShape(s);
    TrimEnd(TrimStart(s))
  }

  /** Where the trimmed text sits in the input. */
  lemma TrimShape(s: string)
    ensures var front := TrimStart(s);
      var r := TrimEnd(front);
      && (r == "" <==> AllWhitespace(s))
      && (|r| > 0 ==> !IsJsWhitespace(r[0]) && !IsJsWhitespace(r[|r| - 1]))
      && r <= s[|s| - |front|..]
      && AllWhitespace(s[|s| - |front| + |r|..])
  {
    TrimEmptyOnlyForWhitespace(s);
    TrimTailIsWhitespace(s);
    var front := TrimStart(s);
    PrefixOfSuffix(s, front, TrimEnd(front));
  }

  /** A prefix `r` of a suffix `front` of `s` starts where `front` does. */
  lemma PrefixOfSuffix(s: string, front: string, r: string)
    requires |front| <= |s| && front == s[|s| - |front|..]
    requires |r| <= |front| && r == front[..|r|]
    requires |front| > 0 ==> !IsJsWhitespace(front[0])
    ensures r <= s[|s| - |front|..]
    ensures |r| > 0 ==> !IsJsWhitespace(r[0])
  {
    if |r| > 0 {
      assert r[0] == front[0];
    }
  }

  /** What follows the trimmed text in the input is whitespace. */
  lemma TrimTailIsWhitespace(s: string)
    ensures var front := TrimStart(s);
      AllWhitespace(s[|s| - |front| + |TrimEnd(front)|..])
  {
    var front := TrimStart(s);
    SuffixOfSuffix(s, front, |TrimEnd(front)|);
  }

  /** Whitespace after position `n` of a suffix of `s` is whitespace in `s`. */
  lemma SuffixOfSuffix(s: string, front: string, n: nat)
    requires n <= |front| <= |s| && front == s[|s| - |front|..]
    requires AllWhitespace(front[n..])
    ensures AllWhitespace(s[|s| - |front| + n..])
  {
    assert s[|s| - |front| + n..] == front[n..];
  }

  lemma TrimEmptyOnlyForWhitespace(s: string)
    ensures TrimEnd(TrimStart(s)) == "" <==> AllWhitespace(s)
  {
    var front := TrimStart(s);
    var cut := |s| - |front|;
    if |front| == 0 {
      assert s[..cut] == s;
    } else {
      assert front[0] == s[cut];
      TrimEndEmptyOnlyAfterSpace(front);
    }
  }

  /** Trimming the end leaves nothing only when the string starts with whitespace. */
  lemma TrimEndEmptyOnlyAfterSpace(s: string)
    requires |s| > 0
    ensures TrimEnd(s) == "" ==> IsJsWhitespace(s[0])
  {
    if TrimEnd(s) == "" {
      assert s[0..] == s;
    }
  }

  /** `handleCreatePlaylist()` with the current song: a name that trims to
      nothing is refused; otherwise a playlist with the trimmed name is
      created and the current song added to it. */
  function CreatePlaylistFromInput(ps: seq<Playlist>, input: string, id: string, now: int, currentSong: Song): (r: Option<seq<Playlist>>)
    ensures r.None? <==> AllWhitespace(input)
    ensures r.Some? && !HasPlaylist(ps, id) ==>
      r.value == ps + [Playlist(id, Trim(input), [currentSong], now, None)]
  {
    var name := Trim(input);
    if name == "" then None
    else
      var r := AddToPlaylist(CreatePlaylist(ps, name, id, now).0, id, currentSong).0;
      assert !HasPlaylist(ps, id) ==> r == ps + [Playlist(id, name, [currentSong], now, None)] by {
        if !HasPlaylist(ps, id) {
          CreateThenAdd(ps, name, id, now, currentSong);
        }
      }
      Some(r)
  }

  /** With a fresh id, adding to the playlist just created fills only it. */
  lemma CreateThenAdd(ps: seq<Playlist>, name: string, id: string, now: int, song: Song)
    requires !HasPlaylist(ps, id)
    ensures AddToPlaylist(CreatePlaylist(ps, name, id, now).0, id, song).0 == ps + [Playlist(id, name, [song], now, None)]
  {
    var created := CreatePlaylist(ps, name, id, now).0;
    assert forall k :: 0 <= k < |ps| ==> created[k] == ps[k];
    assert !HasId([], song.id);
    assert [] + [song] == [song];
  }
}
