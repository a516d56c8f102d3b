/**
 * The code that shares the radio: ble_enable and ble_disable of app/src/ble.c, the boot and
 * the loop of app/src/main.c, stretch by stretch between the points where other threads
 * can run, on the state they share.
 */
module RadioDevice {
  import opened Machine
  import opened Runs
  import opened RadioModes

  class Radio {
    var offByUser: bool
    var bluetooth: bool
    var power: bool
    var stack: Stack
    var mark: uint32
    var owner: Owner
    var main: MainPc
    var users: seq<UserPc>
    ghost var boots: seq<Boot>

    ghost function View(): State
      reads this
    {
      State(offByUser, bluetooth, power, stack, mark, owner, main, users, boots)
    }

    constructor (users: nat, word: uint32)
      ensures View() == Init(users, word) && RadioInv(View())
    {
      offByUser, bluetooth, power, stack, mark := false, false, false, NoStack, word;
      owner, main := Nobody, MarkBluetooth;
      this.users, boots := seq(users, i => UIdle), [];
    }

    method CpunetEnable(on: bool, ghost starter: Starter)
      modifies this`power, this`stack, this`boots
      ensures View() == if on then PowerOn(old(View()), starter) else PowerOff(old(View()))
    {
      if !on {
        power, stack := false, NoStack;
      } else if !power {
        power := true;
        stack := if mark == 0 then SatelliteStack else BluetoothStack;
        boots := boots + [Boot(starter, mark)];
      }
    }

    /** bt_enable: 0, -EALREADY, or an error after the core has booted. */
    method BtEnable(o: Outcome) returns (ok: bool)
      modifies this`bluetooth, this`power, this`stack, this`boots
      ensures View() == TurnOn(old(View()), o)
      ensures ok <==> bluetooth && !old(bluetooth)
    {
      ok := false;
      if !bluetooth {
        CpunetEnable(true, Starter.BtEnable);
        if o.ok && stack == BluetoothStack {
          bluetooth, ok := true, true;
        } else if o.coreOff {
          CpunetEnable(false, Starter.BtEnable);
        }
      }
    }

    method BtDisable()
      modifies this`bluetooth, this`power, this`stack, this`boots
      ensures View() == TurnOff(old(View()))
    {
      if bluetooth {
        CpunetEnable(false, Starter.BtEnable);
        bluetooth := false;
      }
    }

    /** main until its loop. */
    method MainBoots(o: Outcome)
      requires Booting(main)
      modifies this
      ensures View() == BootStep(old(View()), o)
    {
      match main
      case MarkBluetooth => mark, main := 1, BootBluetooth;
      case BootBluetooth =>
        var ok := BtEnable(o);
        main := if ok then InitBluetooth else Halted;
      case InitBluetooth =>
        if o.ok {
          main := Provisioning;
        } else {
          BtDisable();
          main := Halted;
        }
      case Provisioning => main := if o.ok then EnableLock else Halted;
      case Halted =>
    }

    /** ble_enable(false), the wait for timer_sem, and ble_disable(false). */
    method MainBeacons(o: Outcome)
      requires Beaconing(main)
      modifies this
      ensures View() == BeaconStep(old(View()), o)
    {
      match main
      case EnableLock => owner, main := ByMain, EnableBody;
      case EnableBody =>
        if !offByUser {
          var _ := BtEnable(o);
        }
        main := EnableUnlock;
      case EnableUnlock => owner, main := Nobody, AwaitTimer;
      case AwaitTimer => main := DisableLock;
      case DisableLock => owner, main := ByMain, DisableBody;
      case DisableBody =>
        BtDisable();
        main := DisableUnlock;
      case DisableUnlock => owner, main := Nobody, SessionLock;
    }

    /** The session, from its lock to the reset of the mark. */
    method MainTransmits(o: Outcome, word: uint32)
      requires !Booting(main) && !Beaconing(main)
      modifies this
      ensures View() == SessionStep(old(View()), o, word)
    {
      match main
      case SessionLock => owner, main := ByMain, SatMark;
      case SatMark => mark, main := 0, SatBoot;
      case SatBoot =>
        CpunetEnable(true, Starter.SatEnable);
        main := SatOpen;
      case SatOpen => mark, main := word, if o.ok then SatBound else SatClose;
      case SatBound => mark, main := word, if o.ok then Transmitting else SatClose;
      case Transmitting => mark, main := word, SatClose;
      case SatClose =>
        if o.ok {
          CpunetEnable(false, Starter.SatEnable);
        }
        mark, main := word, SessionUnlock;
      case SessionUnlock => owner, main := Nobody, MarkAgain;
      case MarkAgain => mark, main := 1, EnableLock;
    }

    method MainTurn(o: Outcome, word: uint32)
      modifies this
      ensures View() == MainStep(old(View()), o, word)
    {
      if Booting(main) {
        MainBoots(o);
      } else if Beaconing(main) {
        MainBeacons(o);
      } else {
        MainTransmits(o, word);
      }
    }

    /** ble_enable(true) or ble_disable(true), called by user `i`. */
    method UserTurn(i: nat, o: Outcome)
      requires i < |users|
      modifies this
      ensures View() == UserStep(old(View()), i, o)
    {
      match users[i]
      case UIdle =>
      case ULock(enable) => owner, users := ByUser(i), users[i := UFlag(enable)];
      case UFlag(enable) => offByUser, users := !enable, users[i := URadio(enable)];
      case URadio(enable) =>
        if enable {
          var _ := BtEnable(o);
        } else {
          BtDisable();
        }
        users := users[i := UUnlock(enable)];
      case UUnlock(_) => owner, users := Nobody, users[i := UIdle];
    }

    /** A thread runs up to its next such point, unless it is blocked. */
    method Perform(a: Action)
      modifies this
      ensures View() == Step(old(View()), a)
    {
      match a
      case MainRuns(o, word) =>
        if (main.EnableLock? || main.DisableLock? || main.SessionLock?) && owner != Nobody {
          return;
        }
        if main == SatBound && stack != SatelliteStack {
          return;
        }
        MainTurn(o, word);
      case Request(i, enable) =>
        if i < |users| && users[i].UIdle? {
          users := users[i := ULock(enable)];
        }
      case UserRuns(i, o) =>
        if i < |users| && (users[i].ULock? ==> owner == Nobody) {
          UserTurn(i, o);
        }
    }

    /** Any interleaving of this code is a run of RadioModes, with all that is proved about those. */
    method Interleave(schedule: seq<Action>)
      requires MarkInv(View())
      modifies this
      ensures View() == Run(old(View()), schedule) && MarkInv(View())
      ensures old(RadioInv(View())) && ConsiderateRun(old(View()), schedule) ==>
        RadioInv(View()) && !Violated(View())
    {
      ghost var begin := View();
      for i := 0 to |schedule|
        invariant View() == Run(begin, schedule[..i])
      {
        Perform(schedule[i]);
        assert schedule[..i + 1] == schedule[..i] + [schedule[i]];
        ExecSnoc(Step, begin, schedule[..i], schedule[i]);
      }
      assert schedule[..|schedule|] == schedule;
      MarkRun(begin, schedule);
      if RadioInv(begin) && ConsiderateRun(begin, schedule) {
        RadioRun(begin, schedule);
      }
    }
  }

  function EnableSection(s: State, userRequested: bool, o: Outcome): State {
    if !userRequested && s.offByUser then s else TurnOn(s.(offByUser := false), o)
  }

  function DisableSection(s: State, userRequested: bool): State {
    TurnOff(s.(offByUser := s.offByUser || userRequested))
  }

  /** The whole of a user's request, from the lock to the unlock, is its critical section. */
  lemma UserSection(s: State, i: nat, enable: bool, o: Outcome)
    requires s.owner.Nobody? && i < |s.users| && s.users[i] == ULock(enable)
    ensures Run(s, [UserRuns(i, o), UserRuns(i, o), UserRuns(i, o), UserRuns(i, o)]) ==
            (if enable then EnableSection(s, true, o) else DisableSection(s, true))
              .(users := s.users[i := UIdle])
  {
    var go := UserRuns(i, o);
    Exec2(Step, s, go, go);
    var t := Run(s, [go, go]);
    assert t == s.(owner := ByUser(i), offByUser := !enable, users := s.users[i := URadio(enable)]);
    Exec2(Step, t, go, go);
    ExecConcat(Step, s, [go, go], [go, go]);
    assert [go, go] + [go, go] == [go, go, go, go];
  }

  lemma MainEnables(s: State, o: Outcome, word: uint32)
    requires s.owner.Nobody? && s.main.EnableLock?
    ensures Run(s, [MainRuns(o, word), MainRuns(o, word), MainRuns(o, word)]) ==
            EnableSection(s, false, o).(main := AwaitTimer)
  {
    Exec3(Step, s, MainRuns(o, word), MainRuns(o, word), MainRuns(o, word));
  }

  lemma MainDisables(s: State, o: Outcome, word: uint32)
    requires s.owner.Nobody? && s.main.DisableLock?
    ensures Run(s, [MainRuns(o, word), MainRuns(o, word), MainRuns(o, word)]) ==
            DisableSection(s, false).(main := SessionLock)
  {
    Exec3(Step, s, MainRuns(o, word), MainRuns(o, word), MainRuns(o, word));
  }

  /** main's own ble_enable(false) and ble_disable(false). */
  lemma MainSections(s: State, o: Outcome, word: uint32)
    requires s.owner.Nobody? && (s.main.EnableLock? || s.main.DisableLock?)
    ensures Run(s, [MainRuns(o, word), MainRuns(o, word), MainRuns(o, word)]) ==
            if s.main.EnableLock? then EnableSection(s, false, o).(main := AwaitTimer)
            else DisableSection(s, false).(main := SessionLock)
  {
    if s.main.EnableLock? {
      MainEnables(s, o, word);
    } else {
      MainDisables(s, o, word);
    }
  }

  /** The steps of main that open a session over the satellite stack are _sat_enable as a whole. */
  lemma SessionOpens(s: State, o: Outcome, word: uint32)
    requires s.main.SatMark? && o.ok && !s.power
    ensures Run(s, [MainRuns(o, word), MainRuns(o, word), MainRuns(o, word), MainRuns(o, word)]) ==
            PowerOn(s.(mark := 0), SatEnable).(mark := word, main := Transmitting)
  {
    Exec4(Step, s, MainRuns(o, word), MainRuns(o, word), MainRuns(o, word), MainRuns(o, word));
  }
}
