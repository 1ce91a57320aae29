/**
 The power-arm state machine of the battery test application, as values.

 The coordinator's only state is the "VBAT armed" flag. Everything it does to
 the outside world (power rails, the e-paper panel, the settle delay) is an
 `Action` appended to an ordered log. One wait result of the button event
 group is a 32-bit event mask; `Next` is what one pass of the button task's
 loop body does with it, and `Run` is what a finite prefix of that endless
 loop does with a sequence of wait results.
 */
module PowerSpec {

  datatype Option<T> = None | Some(value: T)

  /** A command the coordinator issues to a rail, the panel or the scheduler. */
  datatype Action =
    | VbatOn        // battery rail on
    | EpdOn         // e-paper supply on
    | AudioOn       // auxiliary (audio) supply on
    | EpdInit       // SPI set-up, panel init and one full clear
    | ButtonInit    // button driver start
    | ShowOn        // full redraw of the "ON" screen
    | ShowOff       // full redraw of the "OFF" screen
    | Hibernate     // panel into deep sleep, image retained
    | Delay(ms: nat)
    | VbatOff       // battery rail off; power may vanish from here on

  /** Bit index of "long press" in the event mask. */
  const LongPressBit: nat := 2
  /** Bit index of "release" in the event mask. */
  const ReleaseBit: nat := 3
  /** Wait between the OFF redraw and the rail cut, in milliseconds. */
  const SettleDelayMs: nat := 600

  /** What the OFF path issues, in order: redraw, panel sleep, settle delay, rail cut. */
  const DisarmSequence: seq<Action> := [ShowOff, Hibernate, Delay(SettleDelayMs), VbatOff]

  /** The fixed boot log: three rails, panel init, button init, then the ON screen. */
  const BootSequence: seq<Action> := [VbatOn, EpdOn, AudioOn, EpdInit, ButtonInit, ShowOn, Hibernate]

  /** The button driver's bit test, assumed to be a plain test of bit `n`. */
  function GetBit(even: bv32, n: nat): bool
    requires n < 32
  {
    (even >> n) & 1 == 1
  }

  /** The event a wait result stands for, once the bit positions are decoded. */
  datatype WaitResult = LongPress | Release | Idle

  /** Decodes a wait result; the long-press bit is tested first and wins. */
  function Classify(even: bv32): (w: WaitResult)
    ensures w == LongPress <==> even & 4 != 0
    ensures w == Release <==> even & 4 == 0 && even & 8 != 0
    ensures w == Idle <==> even & 12 == 0
  {
    if GetBit(even, LongPressBit) then LongPress
    else if GetBit(even, ReleaseBit) then Release
    else Idle
  }

  /** The new flag and the actions issued by one step. */
  datatype Outcome = Outcome(armed: bool, emitted: seq<Action>)

  /** The transition table over decoded events. */
  function React(armed: bool, w: WaitResult): Outcome
  {
    match w
    case LongPress => if armed then Outcome(false, DisarmSequence) else Outcome(armed, [])
    case Release => if !armed then Outcome(true, []) else Outcome(armed, [])
    case Idle => Outcome(armed, [])
  }

  /** One pass of the button task's loop body on the wait result `even`. */
  function Next(armed: bool, even: bv32): Outcome
  {
    React(armed, Classify(even))
  }

  /** A finite prefix of the button task's loop, one wait result after another. */
  function Run(armed: bool, evs: seq<bv32>): Outcome
    decreases |evs|
  {
    if evs == [] then Outcome(armed, [])
    else
      var first := Next(armed, evs[0]);
      var rest := Run(first.armed, evs[1..]);
      Outcome(rest.armed, first.emitted + rest.emitted)
  }

  /** The boot-time pin scan: a high pin arms, nothing disarms. */
  function Scan(armed: bool, pinHigh: bool): (r: bool)
    ensures r <==> armed || pinHigh
  {
    if pinHigh && !armed then true else armed
  }

  /** The headline of the most recent full redraw in `log`, if any. */
  function LastShown(log: seq<Action>): (r: Option<Action>)
    ensures r.Some? ==> (r.value == ShowOn || r.value == ShowOff) && r.value in log
    ensures r.None? ==> ShowOn !in log && ShowOff !in log
    decreases |log|
  {
    if log == [] then None
    else if log[|log| - 1] == ShowOn || log[|log| - 1] == ShowOff then Some(log[|log| - 1])
    else
      assert log == log[..|log| - 1] + [log[|log| - 1]];
      LastShown(log[..|log| - 1])
  }

  // ---- one step ----

  /** Long press while armed: flag cleared, then OFF, sleep, 600 ms, rail cut, in that order. */
  lemma DisarmFromArmed(even: bv32)
    requires GetBit(even, LongPressBit)
    ensures Next(true, even) == Outcome(false, [ShowOff, Hibernate, Delay(600), VbatOff])
  {
  }

  /** Long press while disarmed: no change, nothing issued. */
  lemma LongPressWhileDisarmed(even: bv32)
    requires GetBit(even, LongPressBit)
    ensures Next(false, even) == Outcome(false, [])
  {
  }

  /** With the long-press bit set the release bit is never looked at, even when disarmed. */
  lemma LongPressHasPriority(armed: bool, even: bv32)
    requires GetBit(even, LongPressBit) && GetBit(even, ReleaseBit)
    ensures Next(armed, even) == Next(armed, even & !8)
    ensures !Next(armed, even).armed
  {
  }

  /** Release while disarmed re-arms silently. */
  lemma RearmFromDisarmed(even: bv32)
    requires !GetBit(even, LongPressBit) && GetBit(even, ReleaseBit)
    ensures Next(false, even) == Outcome(true, [])
  {
  }

  /** Release while armed, and a wait result with neither bit (a timeout), change nothing. */
  lemma ReleaseWhileArmedAndTimeout(armed: bool, even: bv32)
    requires !GetBit(even, LongPressBit)
    ensures Next(true, even) == Outcome(true, [])
    ensures !GetBit(even, ReleaseBit) ==> Next(armed, even) == Outcome(armed, [])
    ensures Next(armed, 0) == Outcome(armed, [])
  {
  }

  /** A step cuts the rail exactly when it takes the flag from armed to disarmed, and then once. */
  lemma CutIffDisarm(armed: bool, even: bv32)
    ensures VbatOff in Next(armed, even).emitted <==> armed && !Next(armed, even).armed
    ensures multiset(Next(armed, even).emitted)[VbatOff] == if armed && !Next(armed, even).armed then 1 else 0
  {
  }

  /** Any redraw a step issues shows the state the step has just entered: always OFF, and disarmed. */
  lemma RedrawMatchesNewState(armed: bool, even: bv32)
    requires Next(armed, even).emitted != []
    ensures LastShown(Next(armed, even).emitted) == Some(ShowOff)
    ensures !Next(armed, even).armed
  {
  }

  // ---- the pin scan ----

  /** The scan never clears the flag and is idempotent. */
  lemma ScanOnlyArms(armed: bool, pinHigh: bool)
    ensures armed ==> Scan(armed, pinHigh)
    ensures Scan(Scan(armed, pinHigh), pinHigh) == Scan(armed, pinHigh)
    ensures Scan(false, pinHigh) == pinHigh
  {
  }
}
