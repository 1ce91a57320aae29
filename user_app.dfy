/**
 The application layer in its imperative form: the "VBAT armed" flag as a
 mutable field, every command to the rails, the panel and the scheduler
 appended to an ordered log, and the boot entry points and the button task's
 loop body as methods that update both in the order the application does.
 */
module UserApp {
  import opened PowerSpec
  import PowerProps

  class PowerCoordinator {
    /** Whether the battery domain is armed (the application's one global flag). */
    var vbatArmed: bool
    /** Every command issued so far, oldest first. */
    var log: seq<Action>

    /** Static initialisation: the flag starts cleared and nothing has been issued. */
    constructor ()
      ensures !vbatArmed && log == []
    {
      vbatArmed := false;
      log := [];
    }

    /** A fire-and-forget command to a rail, the panel or the scheduler. */
    method Issue(a: Action)
      modifies this
      ensures vbatArmed == old(vbatArmed)
      ensures log == old(log) + [a]
    {
      log := log + [a];
    }

    /** Full redraw of the ON screen, then panel deep sleep. */
    method EpdShowOn()
      modifies this
      ensures vbatArmed == old(vbatArmed)
      ensures log == old(log) + [ShowOn, Hibernate]
    {
      Issue(ShowOn);
      Issue(Hibernate);
    }

    /** Full redraw of the OFF screen, then panel deep sleep. */
    method EpdShowOff()
      modifies this
      ensures vbatArmed == old(vbatArmed)
      ensures log == old(log) + [ShowOff, Hibernate]
    {
      Issue(ShowOff);
      Issue(Hibernate);
    }

    /** The pin scan: arms when the button pin reads high, never disarms, issues nothing. */
    method ScanStatus(pinHigh: bool)
      modifies this
      ensures vbatArmed == Scan(old(vbatArmed), pinHigh)
      ensures old(vbatArmed) ==> vbatArmed
      ensures log == old(log)
    {
      if pinHigh && !vbatArmed {
        vbatArmed := true;
      }
    }

    /** One pass of the button task's loop body on the wait result `even`. */
    method Step(even: bv32)
      modifies this
      ensures vbatArmed == Next(old(vbatArmed), even).armed
      ensures log == old(log) + Next(old(vbatArmed), even).emitted
    {
      if GetBit(even, LongPressBit) {
        if vbatArmed {
          vbatArmed := false;
          EpdShowOff();
          Issue(Delay(SettleDelayMs));
          Issue(VbatOff);
        }
      } else if GetBit(even, ReleaseBit) {
        if !vbatArmed {
          vbatArmed := true;
        }
      }
    }

    /** The button task's endless loop, over the first |evs| wait results. */
    method Serve(evs: seq<bv32>)
      modifies this
      ensures vbatArmed == Run(old(vbatArmed), evs).armed
      ensures log == old(log) + Run(old(vbatArmed), evs).emitted
    {
      var i := 0;
      while i < |evs|
        invariant 0 <= i <= |evs|
        invariant vbatArmed == Run(old(vbatArmed), evs[..i]).armed
        invariant log == old(log) + Run(old(vbatArmed), evs[..i]).emitted
      {
        PowerProps.RunSnoc(old(vbatArmed), evs[..i], evs[i]);
        assert evs[..i + 1] == evs[..i] + [evs[i]];
        Step(evs[i]);
        i := i + 1;
      }
      assert evs[..i] == evs;
    }

    /** First boot entry point: rails on in a fixed order, then panel init, then button init. */
    method UserAppInit()
      modifies this
      ensures vbatArmed == old(vbatArmed)
      ensures log == old(log) + [VbatOn, EpdOn, AudioOn, EpdInit, ButtonInit]
    {
      Issue(VbatOn);
      Issue(EpdOn);
      Issue(AudioOn);
      Issue(EpdInit);
      Issue(ButtonInit);
    }

    /** Second boot entry point: scan the pin, then show the ON screen. */
    method UserUiInit(pinHigh: bool)
      modifies this
      ensures vbatArmed == Scan(old(vbatArmed), pinHigh)
      ensures log == old(log) + [ShowOn, Hibernate]
    {
      ScanStatus(pinHigh);
      EpdShowOn();
    }

    /** Both boot entry points, in order. */
    method Boot(pinHigh: bool)
      modifies this
      ensures vbatArmed == Scan(old(vbatArmed), pinHigh)
      ensures log == old(log) + BootSequence
    {
      UserAppInit();
      UserUiInit(pinHigh);
    }
  }

  /** Power-up: static initialisation, boot, then the button task over `evs`. The flag after boot
      equals the pin level, and the whole log obeys the rail, panel and settle-delay ordering. */
  method PowerUp(pinHigh: bool, evs: seq<bv32>) returns (c: PowerCoordinator)
    ensures fresh(c)
    ensures c.vbatArmed == Run(pinHigh, evs).armed
    ensures c.log == BootSequence + Run(pinHigh, evs).emitted
    ensures PowerProps.CutsGuarded(c.log) && PowerProps.DisplayPowered(c.log)
  {
    c := new PowerCoordinator();
    c.Boot(pinHigh);
    assert c.vbatArmed == pinHigh && c.log == BootSequence;
    c.Serve(evs);
    PowerProps.SessionWellOrdered(pinHigh, evs);
  }
}
