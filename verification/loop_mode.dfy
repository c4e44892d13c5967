/** The global repeat policy and the decision it makes when a track ends. */
module Loop {
  import opened Wrappers

  /** The source's `"none" | "one" | "all"`; `Off` is its `"none"`. */
  datatype LoopMode = Off | One | All

  /** The rotation order `["none", "one", "all"]` that toggling walks. */
  const Modes: seq<LoopMode> := [Off, One, All]

  /** `modes.indexOf(mode)`. */
  function ModeIndex(m: LoopMode): (r: nat)
    ensures r < |Modes| && Modes[r] == m
  {
    match m
    case Off => 0
    case One => 1
    case All => 2
  }

  /** `modes[(indexOf(mode) + 1) % modes.length]`. */
  function Toggle(m: LoopMode): (r: LoopMode)
    ensures r != m
    ensures m == Off ==> r == One
    ensures m == One ==> r == All
    ensures m == All ==> r == Off
  {
    Modes[(ModeIndex(m) + 1) % |Modes|]
  }

  /** Three presses bring the button back to where it started. */
  lemma ToggleThriceIsIdentity(m: LoopMode)
    ensures Toggle(Toggle(Toggle(m))) == m
    ensures Toggle(Toggle(m)) != m
  {
  }

  /** The end-of-track policy stated on its own, independently of how
      the controller reaches it: `One` replays, `All` and `Off` step forward
      and wrap from the last track to the first. Under `Off` a position that
      is neither inside the queue nor its last slot yields no transition;
      under `All` any position that is not before the last one wraps. */
  function NextOnFinish(length: int, index: int, mode: LoopMode): (r: Option<int>)
    ensures mode == One ==> r == Some(index)
    ensures mode != One && index < length - 1 ==> r == Some(index + 1)
    ensures mode != One && index == length - 1 ==> r == Some(0)
    ensures r == None <==> mode == Off && index > length - 1
  {
    match mode
    case One => Some(index)
    case All => if index < length - 1 then Some(index + 1) else Some(0)
    case Off =>
      if index < length - 1 then Some(index + 1)
      else if index == length - 1 then Some(0)
      else None
  }
}
