/**
 Properties of whole runs of the button task: what a sequence of wait results
 makes the coordinator issue, how many times it cuts the battery rail, and the
 ordering guarantees of the boot log followed by any run.
 */
module PowerProps {
  import opened PowerSpec

  /** `n` copies of `s`, one after another. */
  function Repeat(s: seq<Action>, n: nat): seq<Action>
    decreases n
  {
    if n == 0 then [] else s + Repeat(s, n - 1)
  }

  /** How many steps of the run take the flag from armed to disarmed. */
  function Disarms(armed: bool, evs: seq<bv32>): nat
    decreases |evs|
  {
    if evs == [] then 0
    else (if armed && !Next(armed, evs[0]).armed then 1 else 0) + Disarms(Next(armed, evs[0]).armed, evs[1..])
  }

  /** How many steps of the run take the flag from disarmed to armed. */
  function Rearms(armed: bool, evs: seq<bv32>): nat
    decreases |evs|
  {
    if evs == [] then 0
    else (if !armed && Next(armed, evs[0]).armed then 1 else 0) + Rearms(Next(armed, evs[0]).armed, evs[1..])
  }

  /** 1 for an armed flag, 0 for a cleared one. */
  function AsNat(b: bool): nat { if b then 1 else 0 }

  /** Every rail cut in `log` comes right after the OFF redraw, the panel sleep and the settle delay. */
  predicate CutsGuarded(log: seq<Action>)
  {
    forall i :: 0 <= i < |log| && log[i] == VbatOff ==>
      3 <= i && log[i - 3] == ShowOff && log[i - 2] == Hibernate && log[i - 1] == Delay(SettleDelayMs)
  }

  predicate IsPanelCommand(a: Action)
  {
    a == ShowOn || a == ShowOff || a == Hibernate
  }

  /** Panel init only after all three rails are on, and every panel command only after panel init. */
  predicate DisplayPowered(log: seq<Action>)
  {
    RailsBeforeInit(log) && InitBeforeDraw(log)
  }

  // ---- the run as a loop, one wait result at a time ----

  /** Running one more wait result extends the run by one step. */
  lemma {:induction false} RunSnoc(armed: bool, evs: seq<bv32>, e: bv32)
    ensures Run(armed, evs + [e]).armed == Next(Run(armed, evs).armed, e).armed
    ensures Run(armed, evs + [e]).emitted == Run(armed, evs).emitted + Next(Run(armed, evs).armed, e).emitted
    decreases |evs|
  {
    if evs == [] {
      assert evs + [e] == [e];
    } else {
      assert (evs + [e])[1..] == evs[1..] + [e];
      RunSnoc(Next(armed, evs[0]).armed, evs[1..], e);
    }
  }

  // ---- what a run issues ----

  /** A run issues nothing but whole disarm sequences, one per disarm and never interleaved. */
  lemma {:induction false} RunEmitsDisarmBlocks(armed: bool, evs: seq<bv32>)
    ensures Run(armed, evs).emitted == Repeat(DisarmSequence, Disarms(armed, evs))
    decreases |evs|
  {
    if evs != [] {
      RunEmitsDisarmBlocks(Next(armed, evs[0]).armed, evs[1..]);
    }
  }

  lemma {:induction false} RepeatCutCount(n: nat)
    ensures multiset(Repeat(DisarmSequence, n))[VbatOff] == n
    decreases n
  {
    if n > 0 {
      RepeatCutCount(n - 1);
      assert multiset(DisarmSequence)[VbatOff] == 1;
      assert multiset(DisarmSequence + Repeat(DisarmSequence, n - 1))
        == multiset(DisarmSequence) + multiset(Repeat(DisarmSequence, n - 1));
    }
  }

  lemma {:induction false} RepeatMembers(s: seq<Action>, n: nat, x: Action)
    requires x in Repeat(s, n)
    ensures x in s
    decreases n
  {
    if x !in s {
      RepeatMembers(s, n - 1, x);
    }
  }

  /** The rail is cut exactly once per armed-to-disarmed transition of the run. */
  lemma CutsCountDisarms(armed: bool, evs: seq<bv32>)
    ensures multiset(Run(armed, evs).emitted)[VbatOff] == Disarms(armed, evs)
  {
    RunEmitsDisarmBlocks(armed, evs);
    RepeatCutCount(Disarms(armed, evs));
  }

  /** Flag balance: the final flag is the initial one plus re-arms minus disarms, so the two
      counts differ by at most one. */
  lemma {:induction false} ArmedBalance(armed: bool, evs: seq<bv32>)
    ensures AsNat(armed) + Rearms(armed, evs) == AsNat(Run(armed, evs).armed) + Disarms(armed, evs)
    ensures Disarms(armed, evs) <= Rearms(armed, evs) + 1 && Rearms(armed, evs) <= Disarms(armed, evs) + 1
    decreases |evs|
  {
    if evs != [] {
      ArmedBalance(Next(armed, evs[0]).armed, evs[1..]);
    }
  }

  /** Without a re-arm in between, any number of long presses cut the rail at most once. */
  lemma AtMostOneCutWithoutRearm(armed: bool, evs: seq<bv32>)
    requires Rearms(armed, evs) == 0
    ensures multiset(Run(armed, evs).emitted)[VbatOff] <= 1
    ensures !armed ==> Run(armed, evs).emitted == []
  {
    CutsCountDisarms(armed, evs);
    ArmedBalance(armed, evs);
    RunEmitsDisarmBlocks(armed, evs);
  }

  /** Two long presses in a row give one disarm sequence when armed, nothing when disarmed. */
  lemma TwoLongPresses(armed: bool, e1: bv32, e2: bv32)
    requires GetBit(e1, LongPressBit) && GetBit(e2, LongPressBit)
    ensures Run(armed, [e1, e2]).emitted == if armed then DisarmSequence else []
    ensures !Run(armed, [e1, e2]).armed
  {
    assert [e1, e2][1..] == [e2];
    assert [e2][1..] == [];
    assert Run(false, [e2]) == Outcome(false, []);
  }

  // ---- ordering of the whole log ----

  lemma CutsGuardedAppend(a: seq<Action>, b: seq<Action>)
    requires CutsGuarded(a) && CutsGuarded(b)
    ensures CutsGuarded(a + b)
  {
    forall i | 0 <= i < |a + b| && (a + b)[i] == VbatOff
      ensures 3 <= i && (a + b)[i - 3] == ShowOff && (a + b)[i - 2] == Hibernate
      ensures (a + b)[i - 1] == Delay(SettleDelayMs)
    {
      if i < |a| {
        assert a[i] == VbatOff;
      } else {
        assert b[i - |a|] == VbatOff;
      }
    }
  }

  lemma {:induction false} RepeatDisarmGuarded(n: nat)
    ensures CutsGuarded(Repeat(DisarmSequence, n))
    decreases n
  {
    if n > 0 {
      RepeatDisarmGuarded(n - 1);
      CutsGuardedAppend(DisarmSequence, Repeat(DisarmSequence, n - 1));
    }
  }

  lemma BootLogWellOrdered()
    ensures CutsGuarded(BootSequence) && DisplayPowered(BootSequence)
    ensures EpdInit in BootSequence
  {
    assert BootSequence[3] == EpdInit;
    assert BootSequence[..3] == [VbatOn, EpdOn, AudioOn];
    forall j | 0 <= j < |BootSequence| && IsPanelCommand(BootSequence[j])
      ensures EpdInit in BootSequence[..j]
    {
      assert BootSequence[..j][3] == EpdInit;
    }
  }

  /** Panel init only after all three rails are on. */
  predicate RailsBeforeInit(log: seq<Action>)
  {
    forall j :: 0 <= j < |log| && log[j] == EpdInit ==>
      VbatOn in log[..j] && EpdOn in log[..j] && AudioOn in log[..j]
  }

  /** Every panel command only after panel init. */
  predicate InitBeforeDraw(log: seq<Action>)
  {
    forall j :: 0 <= j < |log| && IsPanelCommand(log[j]) ==> EpdInit in log[..j]
  }

  lemma RailsBeforeInitAppend(a: seq<Action>, b: seq<Action>)
    requires RailsBeforeInit(a)
    requires forall x :: x in b ==> x != EpdInit
    ensures RailsBeforeInit(a + b)
  {
    forall j | |a| <= j < |a + b| ensures (a + b)[j] != EpdInit {
      assert (a + b)[j] in b;
    }
    forall j | 0 <= j < |a + b| && (a + b)[j] == EpdInit
      ensures VbatOn in (a + b)[..j] && EpdOn in (a + b)[..j] && AudioOn in (a + b)[..j]
    {
      assert (a + b)[..j] == a[..j];
    }
  }

  lemma InitBeforeDrawAppend(a: seq<Action>, b: seq<Action>)
    requires InitBeforeDraw(a) && EpdInit in a
    ensures InitBeforeDraw(a + b)
  {
    var k :| 0 <= k < |a| && a[k] == EpdInit;
    forall j | 0 <= j < |a + b| && IsPanelCommand((a + b)[j])
      ensures EpdInit in (a + b)[..j]
    {
      if j < |a| {
        assert (a + b)[..j] == a[..j];
      } else {
        assert (a + b)[..j][k] == EpdInit;
      }
    }
  }

  /** After boot and any run of the button task: the three rails precede panel init, every panel
      command follows panel init, and every rail cut follows the OFF redraw and the settle delay. */
  lemma SessionWellOrdered(pinHigh: bool, evs: seq<bv32>)
    ensures CutsGuarded(BootSequence + Run(Scan(false, pinHigh), evs).emitted)
    ensures DisplayPowered(BootSequence + Run(Scan(false, pinHigh), evs).emitted)
  {
    var a := Scan(false, pinHigh);
    var n := Disarms(a, evs);
    RunEmitsDisarmBlocks(a, evs);
    BootLogWellOrdered();
    RepeatDisarmGuarded(n);
    CutsGuardedAppend(BootSequence, Run(a, evs).emitted);
    forall x | x in Run(a, evs).emitted ensures x != EpdInit {
      RepeatMembers(DisarmSequence, n, x);
    }
    RailsBeforeInitAppend(BootSequence, Run(a, evs).emitted);
    InitBeforeDrawAppend(BootSequence, Run(a, evs).emitted);
  }

  // ---- what the panel shows ----

  lemma {:induction false} LastShownAppend(a: seq<Action>, b: seq<Action>)
    ensures LastShown(a + b) == if LastShown(b).Some? then LastShown(b) else LastShown(a)
    decreases |b|
  {
    if b == [] {
      assert a + b == a;
    } else {
      var c := a + b;
      assert c[|c| - 1] == b[|b| - 1];
      assert c[..|c| - 1] == a + b[..|b| - 1];
      LastShownAppend(a, b[..|b| - 1]);
    }
  }

  /** After a run that disarmed at least once, the panel shows OFF, whatever the flag is now. */
  lemma {:induction false} ShowsOffAfterAnyDisarm(log: seq<Action>, armed: bool, evs: seq<bv32>)
    requires Disarms(armed, evs) > 0
    ensures LastShown(log + Run(armed, evs).emitted) == Some(ShowOff)
  {
    var n := Disarms(armed, evs);
    RunEmitsDisarmBlocks(armed, evs);
    LastShownAppend(log, Repeat(DisarmSequence, n));
    RepeatLastShown(n);
  }

  lemma {:induction false} RepeatLastShown(n: nat)
    requires n > 0
    ensures LastShown(Repeat(DisarmSequence, n)) == Some(ShowOff)
    decreases n
  {
    var r := Repeat(DisarmSequence, n - 1);
    LastShownAppend(DisarmSequence, r);
    if n > 1 {
      RepeatLastShown(n - 1);
    } else {
      assert DisarmSequence == [ShowOff] + [Hibernate, Delay(SettleDelayMs), VbatOff];
      LastShownAppend([ShowOff], [Hibernate, Delay(SettleDelayMs), VbatOff]);
    }
  }

  /** The flag and the panel can disagree: a long press then a release leaves the device armed
      with OFF on the panel, because the re-arm does not redraw. */
  lemma ArmedWhileShowingOff()
    ensures Run(Scan(false, true), [4, 8]).armed
    ensures LastShown(BootSequence + Run(Scan(false, true), [4, 8]).emitted) == Some(ShowOff)
  {
    ShowsOffAfterAnyDisarm(BootSequence, true, [4, 8]);
  }

  /** Booting with the pin low leaves the device disarmed with ON on the panel. */
  lemma DisarmedWhileShowingOn()
    ensures !Scan(false, false)
    ensures LastShown(BootSequence) == Some(ShowOn)
  {
    assert BootSequence == BootSequence[..6] + [Hibernate];
    assert BootSequence[..6][5] == ShowOn;
  }
}
