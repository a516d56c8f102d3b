/**
 * Who owns the radio: Bluetooth, the satellite session of main, or nobody. Threads are
 * main and any number of users of ble_enable(true) and ble_disable(true) (the button's
 * work queue and the shell); they meet on radio_mutex. The network core boots into the
 * stack that the shared mark names at that moment.
 */
module RadioModes {
  import opened Machine
  import opened Runs

  datatype Owner = Nobody | ByMain | ByUser(i: nat)

  datatype Stack = NoStack | BluetoothStack | SatelliteStack

  datatype Starter = BtEnable | SatEnable

  datatype Boot = Boot(starter: Starter, mark: uint32)

  // Where main is, between two steps other threads can get in between.
  datatype MainPc =
    | MarkBluetooth  // about to write the mark for the first time
    | BootBluetooth  // about to call bt_enable, without the mutex
    | InitBluetooth  // about to call ble_init
    | Provisioning   // waiting for time and key
    | EnableLock | EnableBody | EnableUnlock      // ble_enable(false)
    | AwaitTimer
    | DisableLock | DisableBody | DisableUnlock   // ble_disable(false)
    | SessionLock    // Bluetooth is off, the mutex not yet taken
    | SatMark | SatBoot                           // _sat_enable
    | SatOpen                                     // ... about to open the endpoint
    | SatBound                                    // ... waiting for it to be bound
    | Transmitting                                // sat_transmit
    | SatClose                                    // _sat_disable
    | SessionUnlock
    | MarkAgain      // the mutex is free, the mark not yet reset
    | Halted         // main has returned

  // A request enables (true) or disables (false).
  datatype UserPc =
    | UIdle | ULock(enable: bool) | UFlag(enable: bool) | URadio(enable: bool) | UUnlock(enable: bool)

  datatype State = State(
    offByUser: bool,    // ble_off_by_user
    bluetooth: bool,    // bt_enable has succeeded since the last bt_disable
    power: bool,        // the network core runs
    stack: Stack,       // what it booted into
    mark: uint32,       // the shared word at HUBBLE_SAT_MARK
    owner: Owner,       // radio_mutex
    main: MainPc,
    users: seq<UserPc>,
    boots: seq<Boot>
  )

  /** What a call meets: whether it would succeed; whether bt_enable, failing, turns the core off. */
  datatype Outcome = Outcome(ok: bool, coreOff: bool)

  datatype Action =
    | MainRuns(o: Outcome, word: uint32)   // main's next step; word: what is left at the mark
    | Request(i: nat, enable: bool)
    | UserRuns(i: nat, o: Outcome)

  /** Before main runs; the shared word holds anything. */
  function Init(users: nat, word: uint32): State {
    State(false, false, false, NoStack, word, Nobody, MarkBluetooth, seq(users, i => UIdle), [])
  }

  /** nrf53_cpunet_enable(true): a core that is off boots and reads the mark. */
  function PowerOn(s: State, starter: Starter): State {
    if s.power then s
    else s.(power := true, stack := if s.mark == 0 then SatelliteStack else BluetoothStack,
            boots := s.boots + [Boot(starter, s.mark)])
  }

  function PowerOff(s: State): State {
    s.(power := false, stack := NoStack)
  }

  /**
   * bt_enable: nothing happens when Bluetooth is on already. The core boots before the
   * result is known, and only the Bluetooth stack has the endpoint that lets it succeed.
   */
  function TurnOn(s: State, o: Outcome): State {
    if s.bluetooth then s
    else
      var on := PowerOn(s, BtEnable);
      if o.ok && on.stack.BluetoothStack? then on.(bluetooth := true)
      else if o.coreOff then PowerOff(on)
      else on
  }

  /** bt_disable: nothing happens when Bluetooth is off already. */
  function TurnOff(s: State): State {
    if s.bluetooth then PowerOff(s).(bluetooth := false) else s
  }

  predicate Enabled(s: State, a: Action) {
    match a
    case MainRuns(_, _) =>
      && !s.main.Halted?
      && (s.main.EnableLock? || s.main.DisableLock? || s.main.SessionLock? ==> s.owner.Nobody?)
      // only the satellite stack binds the endpoint, and main waits without a timeout
      && (s.main.SatBound? ==> s.stack.SatelliteStack?)
    case Request(i, _) => i < |s.users| && s.users[i].UIdle?
    case UserRuns(i, _) =>
      i < |s.users| && !s.users[i].UIdle? && (s.users[i].ULock? ==> s.owner.Nobody?)
  }

  predicate Booting(pc: MainPc) {
    pc.MarkBluetooth? || pc.BootBluetooth? || pc.InitBluetooth? || pc.Provisioning? || pc.Halted?
  }

  predicate Beaconing(pc: MainPc) {
    || pc.EnableLock? || pc.EnableBody? || pc.EnableUnlock? || pc.AwaitTimer?
    || pc.DisableLock? || pc.DisableBody? || pc.DisableUnlock?
  }

  /** main until it enters its loop. */
  function BootStep(s: State, o: Outcome): State
    requires Booting(s.main)
  {
    match s.main
    case MarkBluetooth => s.(mark := 1, main := BootBluetooth)
    case BootBluetooth =>
      // any error ends main here, also -EALREADY
      var t := TurnOn(s, o);
      t.(main := if t.bluetooth && !s.bluetooth then InitBluetooth else Halted)
    case InitBluetooth => if o.ok then s.(main := Provisioning) else TurnOff(s).(main := Halted)
    case Provisioning => s.(main := if o.ok then EnableLock else Halted)
    case Halted => s
  }

  /** ble_enable(false), the wait for the timer, ble_disable(false). */
  function BeaconStep(s: State, o: Outcome): State
    requires Beaconing(s.main)
  {
    match s.main
    case EnableLock => s.(owner := ByMain, main := EnableBody)
    case EnableBody => (if s.offByUser then s else TurnOn(s, o)).(main := EnableUnlock)
    case EnableUnlock => s.(owner := Nobody, main := AwaitTimer)
    case AwaitTimer => s.(main := DisableLock)
    case DisableLock => s.(owner := ByMain, main := DisableBody)
    case DisableBody => TurnOff(s).(main := DisableUnlock)
    case DisableUnlock => s.(owner := Nobody, main := SessionLock)
  }

  /** From the session's lock to the mark. */
  function SessionStep(s: State, o: Outcome, word: uint32): State
    requires !Booting(s.main) && !Beaconing(s.main)
  {
    match s.main
    case SessionLock => s.(owner := ByMain, main := SatMark)
    case SatMark => s.(mark := 0, main := SatBoot)
    case SatBoot => PowerOn(s, SatEnable).(main := SatOpen)
    // the endpoint's shared memory starts at the mark, which from now on holds any word
    case SatOpen => s.(mark := word, main := if o.ok then SatBound else SatClose)
    case SatBound => s.(mark := word, main := if o.ok then Transmitting else SatClose)
    case Transmitting => s.(mark := word, main := SatClose)
    case SatClose => (if o.ok then PowerOff(s) else s).(mark := word, main := SessionUnlock)
    case SessionUnlock => s.(owner := Nobody, main := MarkAgain)
    case MarkAgain => s.(mark := 1, main := EnableLock)
  }

  function MainStep(s: State, o: Outcome, word: uint32): State {
    if Booting(s.main) then BootStep(s, o)
    else if Beaconing(s.main) then BeaconStep(s, o)
    else SessionStep(s, o, word)
  }

  function UserStep(s: State, i: nat, o: Outcome): State
    requires i < |s.users|
  {
    match s.users[i]
    case UIdle => s
    case ULock(e) => s.(owner := ByUser(i), users := s.users[i := UFlag(e)])
    case UFlag(e) => s.(offByUser := !e, users := s.users[i := URadio(e)])
    case URadio(e) => (if e then TurnOn(s, o) else TurnOff(s)).(users := s.users[i := UUnlock(e)])
    case UUnlock(e) => s.(owner := Nobody, users := s.users[i := UIdle])
  }

  function Step(s: State, a: Action): State {
    if !Enabled(s, a) then s
    else match a
      case MainRuns(o, word) => MainStep(s, o, word)
      case Request(i, enable) => s.(users := s.users[i := ULock(enable)])
      case UserRuns(i, o) => UserStep(s, i, o)
  }

  function Run(s: State, schedule: seq<Action>): State {
    Exec(Step, s, schedule)
  }

  // ----------------------------------------------------------------- the mutex

  predicate MainHolds(pc: MainPc) {
    || pc.EnableBody? || pc.EnableUnlock? || pc.DisableBody? || pc.DisableUnlock?
    || pc.SatMark? || pc.SatBoot? || pc.SatOpen? || pc.SatBound? || pc.Transmitting? || pc.SatClose?
    || pc.SessionUnlock?
  }

  predicate UserHolds(pc: UserPc) {
    pc.UFlag? || pc.URadio? || pc.UUnlock?
  }

  predicate MutexInv(s: State) {
    && (s.owner.ByMain? <==> MainHolds(s.main))
    && (forall i :: 0 <= i < |s.users| ==> (UserHolds(s.users[i]) <==> s.owner == ByUser(i)))
    && (s.owner.ByUser? ==> s.owner.i < |s.users|)
  }

  /** main takes the mutex only when it is free, and frees it only when it holds it. */
  predicate MutexKept(s: State, t: State) {
    && t.users == s.users
    && (t.owner.ByMain? <==> MainHolds(t.main))
    && (t.owner.ByUser? || s.owner.ByUser? ==> t.owner == s.owner)
  }

  lemma BootAndMutex(s: State, o: Outcome)
    requires Booting(s.main) && !s.owner.ByMain?
    ensures MutexKept(s, BootStep(s, o))
  {
  }

  lemma BeaconAndMutex(s: State, o: Outcome)
    requires Beaconing(s.main) && (s.owner.ByMain? <==> MainHolds(s.main))
    requires s.main.EnableLock? || s.main.DisableLock? ==> s.owner.Nobody?
    ensures MutexKept(s, BeaconStep(s, o))
  {
  }

  lemma SessionAndMutex(s: State, o: Outcome, word: uint32)
    requires !Booting(s.main) && !Beaconing(s.main) && (s.owner.ByMain? <==> MainHolds(s.main))
    requires s.main.SessionLock? ==> s.owner.Nobody?
    ensures MutexKept(s, SessionStep(s, o, word))
  {
  }

  lemma MainAndMutex(s: State, o: Outcome, word: uint32)
    requires s.owner.ByMain? <==> MainHolds(s.main)
    ensures MutexKept(s, Step(s, MainRuns(o, word)))
  {
    if !Enabled(s, MainRuns(o, word)) {
    } else if Booting(s.main) {
      BootAndMutex(s, o);
    } else if Beaconing(s.main) {
      BeaconAndMutex(s, o);
    } else {
      SessionAndMutex(s, o, word);
    }
  }

  lemma MutexStepMain(s: State, o: Outcome, word: uint32)
    requires MutexInv(s)
    ensures MutexInv(Step(s, MainRuns(o, word)))
  {
    MainAndMutex(s, o, word);
    assert forall i :: Step(s, MainRuns(o, word)).owner == ByUser(i) <==> s.owner == ByUser(i);
  }

  lemma MutexStepRequest(s: State, i: nat, enable: bool)
    requires MutexInv(s)
    ensures MutexInv(Step(s, Request(i, enable)))
  {
  }

  /** Only the user that moves changes its place, and the mutex follows it. */
  lemma UserAndMutex(s: State, i: nat, o: Outcome)
    requires i < |s.users| && (UserHolds(s.users[i]) <==> s.owner == ByUser(i))
    requires s.users[i].ULock? ==> s.owner.Nobody?
    ensures var t := UserStep(s, i, o);
            && t.main == s.main && t.users == s.users[i := t.users[i]]
            && (UserHolds(t.users[i]) <==> t.owner == ByUser(i))
            && (t.owner == s.owner || (t.owner.Nobody? && s.owner == ByUser(i))
                || (t.owner == ByUser(i) && s.owner.Nobody?))
  {
    assert s.users[i := s.users[i]] == s.users;
  }

  lemma MutexStepUser(s: State, i: nat, o: Outcome)
    requires MutexInv(s)
    ensures MutexInv(Step(s, UserRuns(i, o)))
  {
    if Enabled(s, UserRuns(i, o)) {
      UserAndMutex(s, i, o);
    }
  }

  lemma MutexStep(s: State, a: Action)
    requires MutexInv(s)
    ensures MutexInv(Step(s, a))
  {
    if a.MainRuns? {
      MutexStepMain(s, a.o, a.word);
    } else if a.Request? {
      MutexStepRequest(s, a.i, a.enable);
    } else {
      MutexStepUser(s, a.i, a.o);
    }
  }

  lemma {:induction false} MutexRun(s: State, schedule: seq<Action>)
    requires MutexInv(s)
    ensures MutexInv(Run(s, schedule))
    decreases |schedule|
  {
    if schedule != [] {
      MutexStep(s, schedule[0]);
      MutexRun(Step(s, schedule[0]), schedule[1..]);
    }
  }

  /** main is between locking the mutex for a session and unlocking it. */
  predicate SessionLocked(s: State) {
    || s.main.SatMark? || s.main.SatBoot? || s.main.SatOpen? || s.main.SatBound? || s.main.Transmitting?
    || s.main.SatClose? || s.main.SessionUnlock?
  }

  /** While main holds the mutex for a session nobody changes Bluetooth or the user's choice. */
  lemma SessionFreezesBluetooth(users: nat, word: uint32, schedule: seq<Action>, a: Action)
    requires SessionLocked(Run(Init(users, word), schedule))
    ensures var s := Run(Init(users, word), schedule);
            Step(s, a).bluetooth == s.bluetooth && Step(s, a).offByUser == s.offByUser
  {
    MutexRun(Init(users, word), schedule);
  }

  // ------------------------------------------------------------------- the mark

  predicate MarkValid(pc: MainPc) {
    && !pc.MarkBluetooth? && !pc.SatBoot? && !pc.SatOpen? && !pc.SatBound? && !pc.Transmitting?
    && !pc.SatClose? && !pc.SessionUnlock? && !pc.MarkAgain?
  }

  predicate MarkInv(s: State) {
    MutexInv(s) && MarkNames(s)
  }

  predicate MarkNames(s: State) {
    (MarkValid(s.main) ==> s.mark == 1) && (s.main.SatBoot? ==> s.mark == 0)
  }

  /** A boot by bt_enable is meant to read mark 1, one by _sat_enable mark 0. */
  predicate BootsRight(boots: seq<Boot>) {
    forall k :: 0 <= k < |boots| ==> boots[k].mark == if boots[k].starter.BtEnable? then 1 else 0
  }

  lemma BootAndMark(s: State, o: Outcome)
    requires Booting(s.main) && MarkNames(s)
    ensures var t := BootStep(s, o); MarkNames(t) && (BootsRight(s.boots) ==> BootsRight(t.boots))
  {
  }

  lemma BeaconAndMark(s: State, o: Outcome)
    requires Beaconing(s.main) && MarkNames(s)
    ensures var t := BeaconStep(s, o); MarkNames(t) && (BootsRight(s.boots) ==> BootsRight(t.boots))
  {
  }

  lemma SessionAndMark(s: State, o: Outcome, word: uint32)
    requires !Booting(s.main) && !Beaconing(s.main) && MarkNames(s)
    ensures var t := SessionStep(s, o, word);
            MarkNames(t) && (BootsRight(s.boots) ==> BootsRight(t.boots))
  {
  }

  /** main's own boots read the right mark, whatever the users do. */
  lemma MainAndMark(s: State, o: Outcome, word: uint32)
    requires MarkNames(s)
    ensures var t := Step(s, MainRuns(o, word));
            MarkNames(t) && (BootsRight(s.boots) ==> BootsRight(t.boots))
  {
    if !Enabled(s, MainRuns(o, word)) {
    } else if Booting(s.main) {
      BootAndMark(s, o);
    } else if Beaconing(s.main) {
      BeaconAndMark(s, o);
    } else {
      SessionAndMark(s, o, word);
    }
  }

  lemma MarkStep(s: State, a: Action)
    requires MarkInv(s)
    ensures MarkInv(Step(s, a))
  {
    MutexStep(s, a);
    if a.MainRuns? {
      MainAndMark(s, a.o, a.word);
    }
  }

  lemma {:induction false} MarkRun(s: State, schedule: seq<Action>)
    requires MarkInv(s)
    ensures MarkInv(Run(s, schedule))
    decreases |schedule|
  {
    if schedule != [] {
      MarkStep(s, schedule[0]);
      MarkRun(Step(s, schedule[0]), schedule[1..]);
    }
  }

  /** When the mark is not 1: outside two gaps only while main itself holds the mutex. */
  lemma StaleMarkGaps(users: nat, word: uint32, schedule: seq<Action>)
    ensures var s := Run(Init(users, word), schedule);
            s.mark != 1 && !s.owner.ByMain? ==> s.main.MarkBluetooth? || s.main.MarkAgain?
  {
    MarkRun(Init(users, word), schedule);
  }

  /** A user's bt_enable is called in this step and finds Bluetooth off. */
  predicate UserCalls(s: State, a: Action) {
    a.UserRuns? && Enabled(s, a) && s.users[a.i] == URadio(true) && !s.bluetooth
  }

  /** Whatever the mark and the outcome, Bluetooth never starts over another stack than its own. */
  lemma StartsOverOwnStack(s: State, a: Action)
    ensures var t := Step(s, a); t.bluetooth && !s.bluetooth ==> t.power && t.stack.BluetoothStack?
  {
  }

  /** Over every run the only boots that read another mark are those of a user in a gap. */
  lemma BootReadsWrongIff(users: nat, word: uint32, schedule: seq<Action>, a: Action)
    requires BootsRight(Run(Init(users, word), schedule).boots)
    ensures var s := Run(Init(users, word), schedule);
            BootsRight(Step(s, a).boots) <==> !(UserCalls(s, a) && !s.power && s.mark != 1)
  {
    var s := Run(Init(users, word), schedule);
    MarkRun(Init(users, word), schedule);
    if a.MainRuns? {
      MainAndMark(s, a.o, a.word);
    } else if UserCalls(s, a) && !s.power {
      assert Step(s, a).boots[|s.boots|] == Boot(BtEnable, s.mark);
    }
  }

  // --------------------------------------------------------- the radio is exclusive

  /** The satellite stack is in use on the network core. */
  predicate SessionActive(s: State) {
    s.main.SatOpen? || s.main.SatBound? || s.main.Transmitting? || s.main.SatClose?
  }

  /** bt_enable is called in this step. */
  predicate CallsBtEnable(s: State, a: Action) {
    || (a.MainRuns? && (s.main.BootBluetooth? || (s.main.EnableBody? && !s.offByUser)))
    || (a.UserRuns? && a.i < |s.users| && s.users[a.i] == URadio(true))
  }

  /** ... and has to start Bluetooth while the network core runs the satellite stack. */
  predicate MeetsSatellite(s: State, a: Action) {
    CallsBtEnable(s, a) && !s.bluetooth && s.power && s.stack.SatelliteStack?
  }

  /** ... or boots the satellite stack itself. */
  predicate CallsOverSatellite(s: State, a: Action) {
    CallsBtEnable(s, a) && !s.bluetooth && PowerOn(s, BtEnable).stack.SatelliteStack?
  }

  /** main can still come to a session without calling bt_enable for its boot first. */
  predicate InLoop(pc: MainPc) {
    !pc.MarkBluetooth? && !pc.BootBluetooth? && !pc.Halted?
  }

  /** A failing bt_enable leaves the network core on. */
  predicate FailsOn(s: State, a: Action) {
    CallsBtEnable(s, a) && !s.bluetooth && !Step(s, a).bluetooth && Step(s, a).power
  }

  /**
   * What a call of bt_enable that finds Bluetooth off must not be: a user's with the mark
   * 0; a user's between ble_disable(false) and the session's lock, unless it leaves the
   * core off; or, once main has booted, one that fails and leaves the core on.
   */
  predicate Harmful(s: State, a: Action) {
    && CallsBtEnable(s, a) && !s.bluetooth
    && (|| (a.UserRuns? && s.mark == 0)
        || (a.UserRuns? && s.main.SessionLock? && Step(s, a).power)
        || (FailsOn(s, a) && InLoop(s.main)))
  }

  predicate Considerate(s: State, a: Action) {
    !Harmful(s, a) && (a.MainRuns? && s.main.SatClose? ==> a.o.ok)
  }

  predicate ConsiderateRun(s: State, schedule: seq<Action>)
    decreases |schedule|
  {
    schedule != [] ==>
      Considerate(s, schedule[0]) && ConsiderateRun(Step(s, schedule[0]), schedule[1..])
  }

  predicate RadioInv(s: State) {
    && MarkInv(s)
    && (s.main.DisableUnlock? || s.main.SessionLock? || SessionLocked(s) ==> !s.bluetooth)
    && (s.power ==> s.bluetooth || SessionActive(s) || (!InLoop(s.main) && s.stack.BluetoothStack?))
    && (s.bluetooth ==> s.power && s.stack.BluetoothStack?)
    && (s.main.MarkBluetooth? && s.power ==> s.mark != 0)
    && (SessionActive(s) ==> s.power && s.stack.SatelliteStack?)
    && (s.offByUser ==> s.users != [])
  }

  lemma RadioStepBoot(s: State, o: Outcome)
    requires RadioInv(s) && Booting(s.main) && MarkInv(BootStep(s, o))
    ensures RadioInv(BootStep(s, o))
  {
  }

  lemma RadioStepBeacon(s: State, o: Outcome)
    requires RadioInv(s) && Beaconing(s.main) && MarkInv(BeaconStep(s, o))
    requires s.main.EnableBody? && !s.offByUser && !s.bluetooth ==>
      TurnOn(s, o).bluetooth || !TurnOn(s, o).power
    ensures RadioInv(BeaconStep(s, o))
  {
  }

  lemma RadioStepSession(s: State, o: Outcome, word: uint32)
    requires RadioInv(s) && !Booting(s.main) && !Beaconing(s.main)
    requires s.main.SatClose? ==> o.ok
    requires MarkInv(SessionStep(s, o, word))
    ensures RadioInv(SessionStep(s, o, word))
  {
  }

  lemma RadioStepMain(s: State, o: Outcome, word: uint32)
    requires RadioInv(s) && Considerate(s, MainRuns(o, word))
    ensures RadioInv(Step(s, MainRuns(o, word)))
  {
    MarkStep(s, MainRuns(o, word));
    if !Enabled(s, MainRuns(o, word)) {
    } else if Booting(s.main) {
      RadioStepBoot(s, o);
    } else if Beaconing(s.main) {
      RadioStepBeacon(s, o);
    } else {
      RadioStepSession(s, o, word);
    }
  }

  lemma RadioStepUser(s: State, a: Action)
    requires RadioInv(s) && Considerate(s, a) && !a.MainRuns?
    ensures RadioInv(Step(s, a))
  {
    MarkStep(s, a);
  }

  lemma RadioStep(s: State, a: Action)
    requires RadioInv(s) && Considerate(s, a)
    ensures RadioInv(Step(s, a))
  {
    if a.MainRuns? {
      RadioStepMain(s, a.o, a.word);
    } else {
      RadioStepUser(s, a);
    }
  }

  lemma {:induction false} RadioRun(s: State, schedule: seq<Action>)
    requires RadioInv(s) && ConsiderateRun(s, schedule)
    ensures RadioInv(Run(s, schedule))
    decreases |schedule|
  {
    if schedule != [] {
      RadioStep(s, schedule[0]);
      RadioRun(Step(s, schedule[0]), schedule[1..]);
    }
  }

  /** Bluetooth over another stack than its own, a session over another, or both at once. */
  predicate Violated(s: State) {
    || (s.bluetooth && !s.stack.BluetoothStack?)
    || (SessionActive(s) && (s.bluetooth || !s.stack.SatelliteStack?))
  }

  /**
   * When no bt_enable is harmful and _sat_disable succeeds, then over every interleaving
   * Bluetooth is off whenever a satellite session is active and each runs over its own
   * stack; bt_enable never meets the satellite stack, and only a user's can boot it.
   */
  lemma RadioExclusion(users: nat, word: uint32, schedule: seq<Action>, a: Action)
    requires ConsiderateRun(Init(users, word), schedule)
    ensures var s := Run(Init(users, word), schedule);
            && !Violated(s)
            && (s.bluetooth ==> s.power && s.stack.BluetoothStack?)
            && (SessionActive(s) ==> s.power && s.stack.SatelliteStack? && !s.bluetooth)
            && !MeetsSatellite(s, a)
            && (CallsOverSatellite(s, a) ==> a.UserRuns? && s.mark == 0)
  {
    RadioRun(Init(users, word), schedule);
  }

  ghost predicate CanViolate(s: State) {
    exists later :: ConsiderateRun(s, later) && Violated(Run(s, later))
  }

  lemma ViolatesNow(s: State)
    requires Violated(s)
    ensures CanViolate(s)
  {
    assert ConsiderateRun(s, []) && Violated(Run(s, []));
  }

  lemma ViolatesAfter(s: State, a: Action)
    requires Considerate(s, a) && CanViolate(Step(s, a))
    ensures CanViolate(s)
  {
    var later :| ConsiderateRun(Step(s, a), later) && Violated(Run(Step(s, a), later));
    assert ([a] + later)[1..] == later;
    assert ConsiderateRun(s, [a] + later) && Violated(Run(s, [a] + later));
  }

  /**
   * Harmful is exact for every call of bt_enable, main's or a user's, whatever it returns:
   * it starts or meets the satellite stack, or some otherwise considerate run goes wrong
   * after it, if and only if it was harmful.
   */
  lemma EnableHarmsIff(users: nat, word: uint32, schedule: seq<Action>, a: Action)
    requires ConsiderateRun(Init(users, word), schedule)
    requires CallsBtEnable(Run(Init(users, word), schedule), a)
    ensures var s := Run(Init(users, word), schedule);
            CallsOverSatellite(s, a) || CanViolate(Step(s, a)) <==> Harmful(s, a)
  {
    var s := Run(Init(users, word), schedule);
    RadioRun(Init(users, word), schedule);
    if !Harmful(s, a) {
      assert Considerate(s, a);
      RadioStep(s, a);
      RadioExclusion(users, word, schedule, a);
      forall later | ConsiderateRun(Step(s, a), later)
        ensures !Violated(Run(Step(s, a), later))
      {
        RadioRun(Step(s, a), later);
      }
    } else if !(a.UserRuns? && s.mark == 0) {
      HarmFollows(s, a);
    }
  }

  // ------------------------------------------------ how a harmful call leads to harm

  // main's next step succeeds, and the endpoint leaves 0 at the mark
  const FINE := Outcome(true, false)
  const GO := MainRuns(FINE, 0)

  /** Steps of main until it has opened a session, from where it can without booting first. */
  function StepsToSession(pc: MainPc): nat {
    match pc
    case SatOpen => 0 case SatBoot => 1 case SatMark => 2 case SessionLock => 3
    case DisableUnlock => 4 case DisableBody => 5 case DisableLock => 6 case AwaitTimer => 7
    case EnableUnlock => 8 case EnableBody => 9 case EnableLock => 10
    case Provisioning => 11 case InitBluetooth => 12 case MarkAgain => 11
    case _ => 13
  }

  /** main passes no bt_enable of its own on the way to the session. */
  predicate Unhindered(s: State) {
    StepsToSession(s.main) <= 8 || (StepsToSession(s.main) <= 12 && s.offByUser)
  }

  /** Left alone, main opens its session although the core runs the Bluetooth stack. */
  lemma {:induction false} MainOpensSession(s: State)
    requires s.power && s.stack.BluetoothStack? && Unhindered(s)
    requires s.owner == if MainHolds(s.main) then ByMain else Nobody
    requires s.bluetooth ==> StepsToSession(s.main) <= 3
    ensures CanViolate(s)
    decreases StepsToSession(s.main)
  {
    if s.main.SatOpen? {
      ViolatesNow(s);
    } else {
      MainOpensSession(Step(s, GO));
      ViolatesAfter(s, GO);
    }
  }

  /** A user that has the mutex lets it go. */
  lemma LetsGo(s: State, i: nat, enable: bool)
    requires i < |s.users| && s.owner == ByUser(i) && s.users[i] == UUnlock(enable)
    requires CanViolate(s.(owner := Nobody, users := s.users[i := UIdle]))
    ensures CanViolate(s)
  {
    ViolatesAfter(s, UserRuns(i, FINE));
  }

  /** A user switches Bluetooth off, which it is, and so keeps main from calling bt_enable. */
  lemma SwitchesOff(s: State, i: nat)
    requires i < |s.users| && s.owner.Nobody? && s.users[i].UIdle? && !s.bluetooth
    requires CanViolate(s.(offByUser := true))
    ensures CanViolate(s)
  {
    var go := UserRuns(i, FINE);
    var s1 := Step(s, Request(i, false));
    var s2 := Step(s1, go);
    var s3 := Step(s2, go);
    var s4 := Step(s3, go);
    assert s4 == s.(offByUser := true, owner := ByUser(i), users := s.users[i := UUnlock(false)]);
    assert s.users[i := UUnlock(false)][i := UIdle] == s.users;
    LetsGo(s4, i, false);
    ViolatesAfter(s3, go);
    ViolatesAfter(s2, go);
    ViolatesAfter(s1, go);
    ViolatesAfter(s, Request(i, false));
  }

  lemma HarmFollows(s: State, a: Action)
    requires RadioInv(s) && Harmful(s, a) && !(a.UserRuns? && s.mark == 0)
    ensures CanViolate(Step(s, a))
  {
    var t := Step(s, a);
    if a.MainRuns? {
      MainOpensSession(t);
    } else {
      var free := t.(owner := Nobody, users := t.users[a.i := UIdle]);
      if s.main.SessionLock? {
        MainOpensSession(free);
      } else {
        MainOpensSession(free.(offByUser := true));
        SwitchesOff(free, a.i);
      }
      LetsGo(t, a.i, true);
    }
  }

  /** Left alone and with every call succeeding, main is considerate. */
  lemma {:induction false} AloneIsConsiderate(s: State, schedule: seq<Action>)
    requires RadioInv(s) && forall i :: 0 <= i < |schedule| ==> schedule[i] == GO
    ensures ConsiderateRun(s, schedule)
    decreases |schedule|
  {
    if schedule != [] {
      assert schedule[0] == GO && Considerate(s, GO);
      RadioStep(s, GO);
      AloneIsConsiderate(Step(s, GO), schedule[1..]);
    }
  }

  // ------------------------------------------------------- the assumptions are needed

  const GO2 := [GO, GO]
  const GO3 := [GO, GO, GO]
  const GO4 := [GO, GO, GO, GO]

  // A request to enable Bluetooth, up to its bt_enable, and to the end.
  const ASKS := [Request(0, true), UserRuns(0, FINE), UserRuns(0, FINE)]
  const SWITCH_ON := ASKS + [UserRuns(0, FINE), UserRuns(0, FINE)]

  const SILENT := State(false, false, false, NoStack, 1, Nobody, SessionLock, [UIdle], [Boot(BtEnable, 1)])
  const TO_SESSION := GO4 + GO4 + GO3
  const SESSION := GO4 + GO2

  lemma Boots(s: State)
    requires s.main.MarkBluetooth? && !s.bluetooth && !s.power
    ensures Run(s, GO4) ==
            s.(bluetooth := true, power := true, stack := BluetoothStack, mark := 1, main := EnableLock,
               boots := s.boots + [Boot(BtEnable, 1)])
  {
    Exec4(Step, s, GO, GO, GO, GO);
  }

  lemma AdvertisesAndStops(s: State)
    requires s.main.EnableLock? && s.owner.Nobody? && s.bluetooth && s.power
    ensures Run(s, GO4) == s.(main := DisableLock)
  {
    Exec4(Step, s, GO, GO, GO, GO);
  }

  lemma GoesSilent(s: State)
    requires s.main.DisableLock? && s.owner.Nobody? && s.bluetooth
    ensures Run(s, GO3) == s.(main := SessionLock, bluetooth := false, power := false, stack := NoStack)
  {
    Exec3(Step, s, GO, GO, GO);
  }

  /** The first cycle, undisturbed, up to the lock of its session. */
  lemma ComesToSession(s: State)
    requires s.main.MarkBluetooth? && s.owner.Nobody? && !s.bluetooth && !s.power && !s.offByUser
    ensures Run(s, TO_SESSION) ==
            s.(stack := NoStack, mark := 1, main := SessionLock, boots := s.boots + [Boot(BtEnable, 1)])
  {
    Boots(s);
    var t := Run(s, GO4);
    AdvertisesAndStops(t);
    GoesSilent(Run(t, GO4));
    ExecConcat(Step, s, GO4, GO4);
    ExecConcat(Step, s, GO4 + GO4, GO3);
  }

  lemma FirstCycle()
    ensures Run(Init(1, 5), TO_SESSION) == SILENT
  {
    ComesToSession(Init(1, 5));
    assert Init(1, 5).users == [UIdle];
  }

  /** A user about to call bt_enable. */
  lemma Asks(s: State)
    requires s.users == [UIdle] && s.owner.Nobody?
    ensures Run(s, ASKS) == s.(owner := ByUser(0), offByUser := false, users := [URadio(true)])
  {
    Exec3(Step, s, Request(0, true), UserRuns(0, FINE), UserRuns(0, FINE));
  }

  lemma SwitchesOn(s: State)
    requires s.users == [UIdle] && s.owner.Nobody?
    ensures Run(s, SWITCH_ON) == TurnOn(s.(offByUser := false), FINE)
  {
    Asks(s);
    var t := Run(s, ASKS);
    Exec2(Step, t, UserRuns(0, FINE), UserRuns(0, FINE));
    ExecConcat(Step, s, ASKS, [UserRuns(0, FINE), UserRuns(0, FINE)]);
  }

  /** Before main has written the mark, a user's bt_enable boots what the word there names. */
  lemma GapBeforeMark(word: uint32, o: Outcome)
    ensures CallsOverSatellite(Run(Init(1, word), ASKS), UserRuns(0, o)) <==> word == 0
  {
    assert Init(1, word).users == [UIdle];
    Asks(Init(1, word));
  }

  lemma OpensSession(s: State)
    requires s.main.SessionLock? && s.owner.Nobody?
    ensures Run(s, GO4) == PowerOn(s.(owner := ByMain, mark := 0), SatEnable).(main := SatBound)
  {
    Exec4(Step, s, GO, GO, GO, GO);
  }

  const INTO_SESSION := TO_SESSION + SWITCH_ON + GO4

  /** Bluetooth is on during the session when a request slips in before its lock. */
  lemma GapBeforeLock()
    ensures var s := Run(Init(1, 5), INTO_SESSION);
            s.bluetooth && s.main.SatBound? && s.owner.ByMain? && s.stack.BluetoothStack?
  {
    var i := Init(1, 5);
    FirstCycle();
    SwitchesOn(SILENT);
    OpensSession(TurnOn(SILENT, FINE));
    ExecConcat(Step, i, TO_SESSION, SWITCH_ON);
    ExecConcat(Step, i, TO_SESSION + SWITCH_ON, GO4);
  }

  /** main waits for an endpoint that the stack on the network core does not have. */
  predicate Blocked(s: State) {
    s.main.SatBound? && !s.stack.SatelliteStack?
  }

  /**
   * Then it waits for good with the mutex: no session ends, no request gets beyond its
   * lock, and Bluetooth stays as it is, whatever is asked and however long one waits.
   */
  lemma {:induction false} BlockedForever(s: State, schedule: seq<Action>)
    requires MutexInv(s) && Blocked(s)
    ensures var t := Run(s, schedule);
            && Blocked(t) && t.owner.ByMain? && t.bluetooth == s.bluetooth && t.offByUser == s.offByUser
            && forall i :: 0 <= i < |t.users| ==> t.users[i].UIdle? || t.users[i].ULock?
    decreases |schedule|
  {
    if schedule != [] {
      MutexStep(s, schedule[0]);
      BlockedForever(Step(s, schedule[0]), schedule[1..]);
    }
  }

  /** The request that slipped in before the lock was the last the device ever served. */
  lemma GapBlocksRadio(later: seq<Action>)
    ensures var t := Run(Run(Init(1, 5), INTO_SESSION), later);
            t.main.SatBound? && t.owner.ByMain? && t.bluetooth
  {
    GapBeforeLock();
    MutexRun(Init(1, 5), INTO_SESSION);
    BlockedForever(Run(Init(1, 5), INTO_SESSION), later);
  }

  lemma Transmits(s: State)
    requires s.main.SessionLock? && s.owner.Nobody? && !s.power
    ensures Run(s, SESSION) ==
            s.(main := SatClose, owner := ByMain, power := true, stack := SatelliteStack, mark := 0,
               boots := s.boots + [Boot(SatEnable, 0)])
  {
    OpensSession(s);
    Exec2(Step, Run(s, GO4), GO, GO);
    ExecConcat(Step, s, GO4, GO2);
  }

  /** The first cycle up to the end of its session. */
  lemma FirstSession()
    ensures Run(Init(1, 5), TO_SESSION + SESSION) ==
            SILENT.(main := SatClose, owner := ByMain, power := true, stack := SatelliteStack, mark := 0,
                    boots := [Boot(BtEnable, 1), Boot(SatEnable, 0)])
  {
    FirstCycle();
    Transmits(SILENT);
    ExecConcat(Step, Init(1, 5), TO_SESSION, SESSION);
  }

  lemma ClosesSession(s: State, left: uint32)
    requires s.main.SatClose? && s.owner.ByMain?
    ensures Run(s, [MainRuns(FINE, left), GO]) ==
            s.(main := MarkAgain, owner := Nobody, power := false, stack := NoStack, mark := left)
  {
    Exec2(Step, s, MainRuns(FINE, left), GO);
  }

  /** After the session, before the mark is reset, it boots what the endpoint left there names. */
  lemma GapBeforeReset(left: uint32, o: Outcome)
    ensures var s := Run(Init(1, 5), TO_SESSION + SESSION + [MainRuns(FINE, left), GO] + ASKS);
            CallsOverSatellite(s, UserRuns(0, o)) <==> left == 0
  {
    var i, close := Init(1, 5), [MainRuns(FINE, left), GO];
    FirstSession();
    var s := Run(i, TO_SESSION + SESSION);
    ClosesSession(s, left);
    Asks(Run(s, close));
    ExecConcat(Step, i, TO_SESSION + SESSION, close);
    ExecConcat(Step, i, TO_SESSION + SESSION + close, ASKS);
  }

  lemma EnablesNext(s: State)
    requires s.main.SatClose? && s.owner.ByMain?
    ensures Run(s, GO4) ==
            s.(main := EnableBody, power := false, stack := NoStack, mark := 1)
  {
    Exec4(Step, s, GO, GO, GO, GO);
  }

  const TO_ENABLE := TO_SESSION + SESSION + GO4

  lemma SecondCycle()
    ensures var s := Run(Init(1, 5), TO_ENABLE);
            s.main.EnableBody? && !s.offByUser && !s.bluetooth && !s.power && s.mark == 1
  {
    FirstSession();
    EnablesNext(Run(Init(1, 5), TO_SESSION + SESSION));
    ExecConcat(Step, Init(1, 5), TO_SESSION + SESSION, GO4);
  }

  /** A bt_enable of main that fails and leaves the core on is followed by a session over it. */
  lemma FailingEnable()
    ensures ConsiderateRun(Init(1, 5), TO_ENABLE)
    ensures var s := Run(Init(1, 5), TO_ENABLE);
            var fails := MainRuns(Outcome(false, false), 0);
            s.main.EnableBody? && FailsOn(s, fails) && CanViolate(Step(s, fails))
    // ... but not when it turns the core off again
    ensures var t := Step(Run(Init(1, 5), TO_ENABLE), MainRuns(Outcome(false, true), 0));
            !t.power && !t.bluetooth && !CanViolate(t)
  {
    AloneIsConsiderate(Init(1, 5), TO_ENABLE);
    SecondCycle();
    EnableHarmsIff(1, 5, TO_ENABLE, MainRuns(Outcome(false, false), 0));
    EnableHarmsIff(1, 5, TO_ENABLE, MainRuns(Outcome(false, true), 0));
  }

  // ---------------------------------------------------- a session without a transmission

  /** An endpoint that cannot be opened, or a first command that fails, leads to the close. */
  lemma FailedOpenRecovers(s: State, bound: bool, left: uint32)
    requires s.main.SatOpen? && s.owner.ByMain? && s.stack.SatelliteStack?
    ensures var fails := MainRuns(Outcome(false, false), left);
            Run(s, (if bound then [GO, fails] else [fails]) + GO3) ==
            s.(main := EnableLock, owner := Nobody, power := false, stack := NoStack, mark := 1)
  {
    var fails := MainRuns(Outcome(false, false), left);
    var opening := if bound then [GO, fails] else [fails];
    if bound {
      Exec2(Step, s, GO, fails);
    } else {
      assert [fails][1..] == [];
      assert Run(s, [fails]) == Run(Step(s, fails), []);
    }
    assert Run(s, opening) == s.(main := SatClose, mark := left);
    EndsSession(Run(s, opening));
    ExecConcat(Step, s, opening, GO3);
  }

  /** So does a transmission, whatever it returns. */
  lemma TransmissionEnds(s: State, o: Outcome, left: uint32)
    requires s.main.Transmitting? && s.owner.ByMain?
    ensures Run(s, [MainRuns(o, left)] + GO3) ==
            s.(main := EnableLock, owner := Nobody, power := false, stack := NoStack, mark := 1)
  {
    var ends := MainRuns(o, left);
    assert [ends][1..] == [];
    assert Run(s, [ends]) == Run(Step(s, ends), []);
    EndsSession(Run(s, [ends]));
    ExecConcat(Step, s, [ends], GO3);
  }

  /** main transmits only over an open, bound endpoint, and leaves a session only by closing it. */
  lemma SessionOrder(s: State, a: Action)
    ensures Step(s, a).main.Transmitting? && !s.main.Transmitting? ==>
              s.main.SatBound? && s.stack.SatelliteStack? && a.MainRuns? && a.o.ok
    ensures SessionActive(s) && !SessionActive(Step(s, a)) ==>
              s.main.SatClose? && Step(s, a).main.SessionUnlock?
  {
    if !a.MainRuns? {
      assert Step(s, a).main == s.main;
    } else if Enabled(s, a) && !Booting(s.main) && !Beaconing(s.main) {
      assert Step(s, a) == SessionStep(s, a.o, a.word);
    }
  }

  // ---------------------------------------------------------------- a boot that fails

  lemma EntersBoot(s: State)
    requires s.main.MarkBluetooth? && !s.bluetooth && !s.power
    ensures Run(s, GO2) ==
            s.(bluetooth := true, power := true, stack := BluetoothStack, mark := 1, main := InitBluetooth,
               boots := s.boots + [Boot(BtEnable, 1)])
  {
    Exec2(Step, s, GO, GO);
  }

  /** When ble_init fails main turns Bluetooth off and ends; when hubble_init fails it leaves it on. */
  lemma FailedBoot(users: nat, word: uint32, o: Outcome, left: uint32)
    requires !o.ok
    ensures var t := Run(Init(users, word), GO2 + [MainRuns(o, left)]);
            t.main.Halted? && !t.bluetooth && !t.power
    ensures var t := Run(Init(users, word), GO3 + [MainRuns(o, left)]);
            t.main.Halted? && t.bluetooth && t.power && t.stack.BluetoothStack?
  {
    var i := Init(users, word);
    EntersBoot(i);
    ExecSnoc(Step, i, GO2, MainRuns(o, left));
    ExecSnoc(Step, i, GO2, GO);
    assert GO3 == GO2 + [GO];
    ExecSnoc(Step, i, GO3, MainRuns(o, left));
  }

  /** When a user has turned Bluetooth on before, the boot's bt_enable fails and main ends. */
  lemma BootFindsBluetooth(word: uint32)
    requires word != 0
    ensures var t := Run(Init(1, word), SWITCH_ON + GO2); t.main.Halted? && t.bluetooth
  {
    var i := Init(1, word);
    assert i.users == [UIdle];
    SwitchesOn(i);
    Exec2(Step, Run(i, SWITCH_ON), GO, GO);
    ExecConcat(Step, i, SWITCH_ON, GO2);
  }

  // ------------------------------------------------------- a session that stays open

  /** The satellite stack runs although nobody uses it. */
  predicate LeftOpen(s: State) {
    s.power && s.stack.SatelliteStack? && !s.bluetooth
  }

  /** Nothing in the schedule calls bt_enable or closes a session. */
  predicate Quiet(s: State, schedule: seq<Action>)
    decreases |schedule|
  {
    schedule != [] ==>
      && !CallsBtEnable(s, schedule[0])
      && !(schedule[0].MainRuns? && s.main.SatClose? && schedule[0].o.ok)
      && Quiet(Step(s, schedule[0]), schedule[1..])
  }

  lemma {:induction false} StaysOpen(s: State, schedule: seq<Action>)
    requires LeftOpen(s) && Quiet(s, schedule)
    ensures LeftOpen(Run(s, schedule))
    decreases |schedule|
  {
    if schedule != [] {
      StaysOpen(Step(s, schedule[0]), schedule[1..]);
    }
  }

  /** _sat_disable fails. */
  function CloseFails(left: uint32): Action {
    MainRuns(Outcome(false, false), left)
  }

  /** When _sat_disable fails, the next bt_enable, whoever calls it, meets the satellite stack. */
  lemma FailedCloseMisleads(users: nat, word: uint32, schedule: seq<Action>, left: uint32,
                            later: seq<Action>, a: Action)
    requires ConsiderateRun(Init(users, word), schedule)
    requires Run(Init(users, word), schedule).main.SatClose?
    requires var t := Step(Run(Init(users, word), schedule), CloseFails(left));
             Quiet(t, later) && CallsBtEnable(Run(t, later), a)
    ensures var t := Step(Run(Init(users, word), schedule), CloseFails(left));
            MeetsSatellite(Run(t, later), a)
  {
    RadioRun(Init(users, word), schedule);
    StaysOpen(Step(Run(Init(users, word), schedule), CloseFails(left)), later);
  }

  /** Some considerate run goes on to a bt_enable that meets the satellite stack. */
  ghost predicate CanMislead(s: State) {
    exists later, a :: ConsiderateRun(s, later) && MeetsSatellite(Run(s, later), a)
  }

  lemma MisleadsNow(s: State, a: Action)
    requires MeetsSatellite(s, a)
    ensures CanMislead(s)
  {
    assert ConsiderateRun(s, []) && MeetsSatellite(Run(s, []), a);
  }

  lemma MisleadsAfter(s: State, a: Action)
    requires Considerate(s, a) && CanMislead(Step(s, a))
    ensures CanMislead(s)
  {
    var later, b :| ConsiderateRun(Step(s, a), later) && MeetsSatellite(Run(Step(s, a), later), b);
    assert ([a] + later)[1..] == later;
    assert ConsiderateRun(s, [a] + later) && MeetsSatellite(Run(s, [a] + later), b);
  }

  /** How far user 0 is from calling bt_enable. */
  function StepsToEnable(pc: UserPc): nat {
    match pc
    case URadio(e) => if e then 0 else 5
    case UFlag(e) => if e then 1 else 6
    case ULock(e) => if e then 2 else 7
    case UIdle => 3
    case UUnlock(_) => 4
  }

  lemma {:induction false} UserIsMisled(s: State)
    requires LeftOpen(s) && s.main.EnableLock? && s.users != []
    requires s.owner == if UserHolds(s.users[0]) then ByUser(0) else Nobody
    ensures CanMislead(s)
    decreases StepsToEnable(s.users[0])
  {
    var a := if s.users[0].UIdle? then Request(0, true) else UserRuns(0, FINE);
    if s.users[0] == URadio(true) {
      MisleadsNow(s, a);
    } else {
      UserIsMisled(Step(s, a));
      MisleadsAfter(s, a);
    }
  }

  /** After the failed close main unlocks and resets the mark; then main or a user is misled. */
  lemma SomebodyIsMisled(s: State)
    requires LeftOpen(s) && MutexInv(s) && s.main.SessionUnlock?
    requires s.offByUser ==> s.users != []
    ensures CanMislead(s)
  {
    var t := Step(s, GO);
    var u := Step(t, GO);
    assert u == s.(owner := Nobody, mark := 1, main := EnableLock);
    if s.offByUser {
      UserIsMisled(u);
    } else {
      MisleadsNow(Step(u, GO), GO);
      MisleadsAfter(u, GO);
    }
    MisleadsAfter(t, GO);
    MisleadsAfter(s, GO);
  }

  /**
   * The second assumption is exact too: after the end of a session some considerate run
   * starts Bluetooth over the satellite stack if and only if _sat_disable failed.
   */
  lemma CloseHarmsIff(users: nat, word: uint32, schedule: seq<Action>, o: Outcome, left: uint32)
    requires ConsiderateRun(Init(users, word), schedule)
    requires Run(Init(users, word), schedule).main.SatClose?
    ensures CanMislead(Step(Run(Init(users, word), schedule), MainRuns(o, left))) <==> !o.ok
  {
    var s := Run(Init(users, word), schedule);
    var t := Step(s, MainRuns(o, left));
    RadioRun(Init(users, word), schedule);
    if o.ok {
      RadioStepMain(s, o, left);
      forall later, a | ConsiderateRun(t, later)
        ensures !MeetsSatellite(Run(t, later), a)
      {
        RadioRun(t, later);
      }
    } else {
      MutexStepMain(s, o, left);
      SomebodyIsMisled(t);
    }
  }

  /** A considerate run to the end of a session, whose failing close has the consequences above. */
  lemma FailingClose(left: uint32)
    ensures ConsiderateRun(Init(1, 5), TO_SESSION + SESSION)
    ensures var s := Run(Init(1, 5), TO_SESSION + SESSION);
            s.main.SatClose? && CanMislead(Step(s, CloseFails(left)))
  {
    AloneIsConsiderate(Init(1, 5), TO_SESSION + SESSION);
    FirstSession();
    CloseHarmsIff(1, 5, TO_SESSION + SESSION, Outcome(false, false), left);
  }

  // ----------------------------------------------------------- off stays off

  /** The owner of the mutex is about to set the flag, or to turn Bluetooth off. */
  predicate Settling(s: State) {
    && s.owner.ByUser? && s.owner.i < |s.users|
    && (s.users[s.owner.i].UFlag? || s.users[s.owner.i] == URadio(false))
  }

  predicate OffInv(s: State) {
    && MutexInv(s)
    && (s.offByUser && s.bluetooth ==> Settling(s))
    && (forall i :: 0 <= i < |s.users| && s.users[i] == URadio(true) ==> !s.offByUser)
  }

  /** The boot's bt_enable, which takes no lock, succeeds in this step. */
  predicate BootTurnsOn(s: State, a: Action) {
    a.MainRuns? && s.main.BootBluetooth? && !s.bluetooth && Step(s, a).bluetooth
  }

  /** What a caller of bt_enable could check: nobody has switched Bluetooth off for good. */
  predicate CleanBoot(s: State) {
    s.offByUser ==> Settling(s)
  }

  /** main never changes the user's choice, and after booting never acts against it. */
  lemma BootAndChoice(s: State, o: Outcome)
    requires Booting(s.main)
    ensures var t := BootStep(s, o);
            && t.offByUser == s.offByUser
            && (t.bluetooth ==> s.bluetooth || s.main.BootBluetooth?)
  {
  }

  lemma BeaconAndChoice(s: State, o: Outcome)
    requires Beaconing(s.main)
    ensures var t := BeaconStep(s, o);
            t.offByUser == s.offByUser && (s.offByUser && t.bluetooth ==> s.bluetooth)
  {
  }

  lemma SessionAndChoice(s: State, o: Outcome, word: uint32)
    requires !Booting(s.main) && !Beaconing(s.main)
    ensures var t := SessionStep(s, o, word);
            t.offByUser == s.offByUser && t.bluetooth == s.bluetooth
  {
  }

  lemma MainAndChoice(s: State, o: Outcome, word: uint32)
    ensures var t := Step(s, MainRuns(o, word));
            && t.offByUser == s.offByUser
            && (s.offByUser && t.bluetooth && !BootTurnsOn(s, MainRuns(o, word)) ==> s.bluetooth)
  {
    if !Enabled(s, MainRuns(o, word)) {
    } else if Booting(s.main) {
      BootAndChoice(s, o);
    } else if Beaconing(s.main) {
      BeaconAndChoice(s, o);
    } else {
      SessionAndChoice(s, o, word);
    }
  }

  lemma OffStepMain(s: State, o: Outcome, word: uint32)
    requires OffInv(s)
    requires BootTurnsOn(s, MainRuns(o, word)) ==> CleanBoot(s)
    ensures OffInv(Step(s, MainRuns(o, word)))
  {
    MutexStepMain(s, o, word);
    MainAndMutex(s, o, word);
    MainAndChoice(s, o, word);
  }

  lemma OffStepUser(s: State, a: Action)
    requires OffInv(s) && !a.MainRuns?
    ensures OffInv(Step(s, a))
  {
    MutexStep(s, a);
  }

  predicate CleanRun(s: State, schedule: seq<Action>)
    decreases |schedule|
  {
    schedule != [] ==>
      && (BootTurnsOn(s, schedule[0]) ==> CleanBoot(s))
      && CleanRun(Step(s, schedule[0]), schedule[1..])
  }

  lemma {:induction false} OffRun(s: State, schedule: seq<Action>)
    requires OffInv(s) && CleanRun(s, schedule)
    ensures OffInv(Run(s, schedule))
    decreases |schedule|
  {
    if schedule != [] {
      var a := schedule[0];
      if a.MainRuns? {
        OffStepMain(s, a.o, a.word);
      } else {
        OffStepUser(s, a);
      }
      OffRun(Step(s, a), schedule[1..]);
    }
  }

  /**
   * Unless the boot's bt_enable overrides it, a user's choice persists: whenever the mutex
   * is free and the user has switched Bluetooth off, it is off.
   */
  lemma UserOffPersists(users: nat, word: uint32, schedule: seq<Action>)
    requires CleanRun(Init(users, word), schedule)
    ensures var s := Run(Init(users, word), schedule);
            s.owner.Nobody? && s.offByUser ==> !s.bluetooth
  {
    OffRun(Init(users, word), schedule);
  }

  /** main boots at most once, so after it every run is clean. */
  predicate Booted(s: State) {
    !s.main.MarkBluetooth? && !s.main.BootBluetooth?
  }

  lemma BootsOnce(s: State, a: Action)
    ensures Booted(s) ==> Booted(Step(s, a))
    ensures BootTurnsOn(s, a) ==> !Booted(s) && Booted(Step(s, a))
  {
    if !a.MainRuns? {
      assert Step(s, a).main == s.main;
    } else if Enabled(s, a) && !Booting(s.main) {
      assert Booted(if Beaconing(s.main) then BeaconStep(s, a.o) else SessionStep(s, a.o, a.word));
    }
  }

  lemma {:induction false} BootedIsClean(s: State, schedule: seq<Action>)
    requires Booted(s)
    ensures CleanRun(s, schedule) && Booted(Run(s, schedule))
    decreases |schedule|
  {
    if schedule != [] {
      BootsOnce(s, schedule[0]);
      BootedIsClean(Step(s, schedule[0]), schedule[1..]);
    }
  }

  lemma {:induction false} BeforeBootIsClean(s: State, schedule: seq<Action>)
    requires !Booted(Run(s, schedule))
    ensures CleanRun(s, schedule)
    decreases |schedule|
  {
    if schedule != [] {
      var t := Step(s, schedule[0]);
      BootsOnce(s, schedule[0]);
      if Booted(t) {
        BootedIsClean(t, schedule[1..]);
      }
      BeforeBootIsClean(t, schedule[1..]);
    }
  }

  /** What can still happen after `s`: a free mutex, the user's choice off, Bluetooth on. */
  ghost predicate CanBetray(s: State) {
    exists schedule ::
      var t := Run(s, schedule);
      t.owner.Nobody? && t.offByUser && t.bluetooth
  }

  /**
   * CleanBoot is exactly what the boot needs. From any reachable state, after a successful
   * boot, the user's choice can be found betrayed later if and only if the boot was not
   * clean.
   */
  lemma BootBetraysIff(users: nat, word: uint32, schedule: seq<Action>, a: Action)
    requires BootTurnsOn(Run(Init(users, word), schedule), a)
    ensures var s := Run(Init(users, word), schedule);
            CanBetray(Step(s, a)) <==> !CleanBoot(s)
  {
    var s := Run(Init(users, word), schedule);
    BeforeBootIsClean(Init(users, word), schedule);
    OffRun(Init(users, word), schedule);
    if CleanBoot(s) {
      OffStepMain(s, a.o, a.word);
      forall later
        ensures var t := Run(Step(s, a), later); !(t.owner.Nobody? && t.offByUser && t.bluetooth)
      {
        BootedIsClean(Step(s, a), later);
        OffRun(Step(s, a), later);
      }
    } else {
      UncleanBootBetrays(s, a);
    }
  }

  lemma UncleanBootBetrays(s: State, a: Action)
    requires OffInv(s) && BootTurnsOn(s, a) && !CleanBoot(s)
    ensures CanBetray(Step(s, a))
  {
    var t := Step(s, a);
    if s.owner.Nobody? {
      assert Run(t, []) == t;
    } else {
      var release := UserRuns(s.owner.i, FINE);
      assert s.users[s.owner.i].UUnlock?;
      ExecSnoc(Step, t, [], release);
      assert Run(t, [] + [release]) == Step(t, release);
    }
  }

  const SWITCHED_OFF := [Request(0, false), UserRuns(0, FINE), UserRuns(0, FINE), UserRuns(0, FINE)]

  /** A request to disable before main boots is overridden even while it holds the mutex. */
  lemma UncleanBoot()
    ensures var s := Run(Init(1, 5), SWITCHED_OFF + [GO]);
            && BootTurnsOn(s, GO) && !CleanBoot(s) && s.users == [UUnlock(false)]
            && CanBetray(Step(s, GO))
  {
    var i := Init(1, 5);
    assert i.users == [UIdle];
    Exec4(Step, i, Request(0, false), UserRuns(0, FINE), UserRuns(0, FINE), UserRuns(0, FINE));
    ExecSnoc(Step, i, SWITCHED_OFF, GO);
    BootBetraysIff(1, 5, SWITCHED_OFF + [GO], GO);
  }

  // ------------------------------------------------------------- on comes back on

  predicate Succeeds(a: Action) {
    a.Request? || a.o.ok
  }

  predicate AllSucceed(schedule: seq<Action>) {
    forall i :: 0 <= i < |schedule| ==> Succeeds(schedule[i])
  }

  /** A user about to act has set the flag accordingly. */
  predicate FlagInv(s: State) {
    forall i :: 0 <= i < |s.users| && s.users[i].URadio? ==> s.offByUser == !s.users[i].enable
  }

  /** Between ble_enable(false) and ble_disable(false). */
  predicate Advertising(pc: MainPc) {
    pc.EnableUnlock? || pc.AwaitTimer? || pc.DisableLock?
  }

  predicate OnInv(s: State) {
    && RadioInv(s) && FlagInv(s)
    && (Advertising(s.main) && !s.offByUser && !s.bluetooth ==>
          s.owner.ByUser? && s.owner.i < |s.users| && s.users[s.owner.i] == URadio(true))
  }

  lemma OnStepMain(s: State, a: Action)
    requires OnInv(s) && a.MainRuns? && Considerate(s, a) && Succeeds(a)
    ensures OnInv(Step(s, a))
  {
    RadioStep(s, a);
    MainAndMutex(s, a.o, a.word);
    MainAndChoice(s, a.o, a.word);
    if s.main.EnableBody? {
      assert !s.offByUser ==> Step(s, a).bluetooth;
    }
  }

  lemma FlagStepUser(s: State, a: Action)
    requires MutexInv(s) && FlagInv(s) && !a.MainRuns?
    ensures FlagInv(Step(s, a))
  {
  }

  lemma OnStepUser(s: State, a: Action)
    requires OnInv(s) && !a.MainRuns? && Considerate(s, a) && Succeeds(a)
    ensures OnInv(Step(s, a))
  {
    RadioStep(s, a);
    FlagStepUser(s, a);
  }

  lemma {:induction false} OnRun(s: State, schedule: seq<Action>)
    requires OnInv(s) && ConsiderateRun(s, schedule) && AllSucceed(schedule)
    ensures OnInv(Run(s, schedule))
    decreases |schedule|
  {
    if schedule != [] {
      var a := schedule[0];
      assert Succeeds(a);
      if a.MainRuns? {
        OnStepMain(s, a);
      } else {
        OnStepUser(s, a);
      }
      OnRun(Step(s, a), schedule[1..]);
    }
  }

  /**
   * In every considerate run in which all calls succeed: while main waits for its timer
   * and nobody is at the radio, Bluetooth is on unless the user has switched it off; and,
   * if the boot did not override the user, only then.
   */
  lemma AdvertisesUnlessOff(users: nat, word: uint32, schedule: seq<Action>)
    requires ConsiderateRun(Init(users, word), schedule) && AllSucceed(schedule)
    ensures var s := Run(Init(users, word), schedule);
            s.main.AwaitTimer? && s.owner.Nobody? ==>
              && (!s.offByUser ==> s.bluetooth && s.power && s.stack.BluetoothStack?)
              && (CleanRun(Init(users, word), schedule) ==> (s.bluetooth <==> !s.offByUser))
  {
    OnRun(Init(users, word), schedule);
    if CleanRun(Init(users, word), schedule) {
      UserOffPersists(users, word, schedule);
    }
  }

  const CYCLE := GO3 + GO4 + SESSION + GO3

  predicate Ready(s: State) {
    s.main.EnableLock? && s.owner.Nobody? && !s.bluetooth && !s.power && !s.offByUser && s.mark == 1
  }

  lemma TurnsOnAgain(s: State)
    requires Ready(s)
    ensures Run(s, GO3) ==
            s.(main := AwaitTimer, bluetooth := true, power := true, stack := BluetoothStack,
               boots := s.boots + [Boot(BtEnable, 1)])
  {
    Exec3(Step, s, GO, GO, GO);
  }

  lemma TurnsOffAgain(s: State)
    requires s.main.AwaitTimer? && s.owner.Nobody? && s.bluetooth && s.power
    ensures Run(s, GO4) == s.(main := SessionLock, bluetooth := false, power := false, stack := NoStack)
  {
    Exec4(Step, s, GO, GO, GO, GO);
  }

  lemma EndsSession(s: State)
    requires s.main.SatClose? && s.owner.ByMain?
    ensures Run(s, GO3) == s.(main := EnableLock, owner := Nobody, power := false, stack := NoStack, mark := 1)
  {
    Exec3(Step, s, GO, GO, GO);
  }

  /** Undisturbed, every cycle turns Bluetooth on, transmits over the satellite stack, and comes back. */
  lemma UndisturbedCycle(s: State)
    requires Ready(s)
    ensures Run(s, CYCLE) ==
            s.(stack := NoStack, boots := s.boots + [Boot(BtEnable, 1), Boot(SatEnable, 0)])
  {
    TurnsOnAgain(s);
    var a := Run(s, GO3);
    TurnsOffAgain(a);
    var b := Run(a, GO4);
    Transmits(b);
    EndsSession(Run(b, SESSION));
    ExecConcat(Step, s, GO3 + GO4 + SESSION, GO3);
    ExecConcat(Step, s, GO3 + GO4, SESSION);
    ExecConcat(Step, s, GO3, GO4);
  }

  lemma StaysSilent(s: State)
    requires s.main.EnableLock? && s.owner.Nobody? && s.offByUser
    ensures Run(s, GO3) == s.(main := AwaitTimer)
  {
    Exec3(Step, s, GO, GO, GO);
  }

  lemma StopsNothing(s: State)
    requires s.main.AwaitTimer? && s.owner.Nobody? && !s.bluetooth
    ensures Run(s, GO4) == s.(main := SessionLock)
  {
    Exec4(Step, s, GO, GO, GO, GO);
  }

  /** While the user has it off, the same cycle leaves Bluetooth off. */
  lemma CycleWhileOff(s: State)
    requires s.main.EnableLock? && s.owner.Nobody? && !s.bluetooth && !s.power && s.offByUser && s.mark == 1
    ensures Run(s, GO3) == s.(main := AwaitTimer)
    ensures Run(s, CYCLE) == s.(stack := NoStack, boots := s.boots + [Boot(SatEnable, 0)])
  {
    StaysSilent(s);
    var a := Run(s, GO3);
    StopsNothing(a);
    var b := Run(a, GO4);
    Transmits(b);
    EndsSession(Run(b, SESSION));
    ExecConcat(Step, s, GO3 + GO4 + SESSION, GO3);
    ExecConcat(Step, s, GO3 + GO4, SESSION);
    ExecConcat(Step, s, GO3, GO4);
  }

  const SERVED := [UserRuns(0, FINE), UserRuns(0, FINE), UserRuns(0, FINE), UserRuns(0, FINE)]

  lemma Served(s: State)
    requires s.users == [ULock(true)] && s.owner.Nobody?
    ensures Run(s, SERVED) == TurnOn(s.(offByUser := false, users := [UIdle]), FINE)
  {
    Exec2(Step, s, UserRuns(0, FINE), UserRuns(0, FINE));
    var t := Run(s, [UserRuns(0, FINE), UserRuns(0, FINE)]);
    assert t == s.(owner := ByUser(0), offByUser := false, users := [URadio(true)]);
    Exec2(Step, t, UserRuns(0, FINE), UserRuns(0, FINE));
    ExecConcat(Step, s, [UserRuns(0, FINE), UserRuns(0, FINE)], [UserRuns(0, FINE), UserRuns(0, FINE)]);
    assert SERVED == [UserRuns(0, FINE), UserRuns(0, FINE)] + [UserRuns(0, FINE), UserRuns(0, FINE)];
  }

  /** A request made during a session waits for the mutex and is served once main is back. */
  lemma RequestWaits(s: State)
    requires s.main.SatClose? && s.owner.ByMain? && s.users == [UIdle] && !s.bluetooth
    ensures var t := Run(s, [Request(0, true)] + GO3 + SERVED);
            t.main.EnableLock? && t.bluetooth && t.stack.BluetoothStack? && t.owner.Nobody?
  {
    var ask := Request(0, true);
    var a := Step(s, ask);
    assert [ask][1..] == [];
    assert Run(s, [ask]) == Run(a, []);
    EndsSession(a);
    Served(Run(a, GO3));
    ExecConcat(Step, s, [ask] + GO3, SERVED);
    ExecConcat(Step, s, [ask], GO3);
  }

  function Cycles(n: nat): seq<Action> {
    if n == 0 then [] else CYCLE + Cycles(n - 1)
  }

  lemma {:induction false} ManyCycles(s: State, n: nat)
    requires Ready(s)
    ensures var t := Run(s, Cycles(n));
            Ready(t) && Run(t, GO3).bluetooth && Run(t, GO3).stack.BluetoothStack?
    decreases n
  {
    if n == 0 {
      TurnsOnAgain(s);
    } else {
      UndisturbedCycle(s);
      ExecConcat(Step, s, CYCLE, Cycles(n - 1));
      ManyCycles(Run(s, CYCLE), n - 1);
    }
  }

  /** From any start, left alone: in each cycle Bluetooth is back on when main waits for its timer. */
  lemma UndisturbedRun(users: nat, word: uint32, n: nat)
    ensures var s := Run(Init(users, word), TO_SESSION + SESSION + GO3 + Cycles(n));
            && Ready(s)
            && Run(s, GO3).main.AwaitTimer? && Run(s, GO3).bluetooth && Run(s, GO3).stack.BluetoothStack?
  {
    var i := Init(users, word);
    ComesToSession(i);
    var a := Run(i, TO_SESSION);
    Transmits(a);
    var b := Run(a, SESSION);
    EndsSession(b);
    ManyCycles(Run(b, GO3), n);
    ExecConcat(Step, i, TO_SESSION + SESSION + GO3, Cycles(n));
    ExecConcat(Step, i, TO_SESSION + SESSION, GO3);
    ExecConcat(Step, i, TO_SESSION, SESSION);
    TurnsOnAgain(Run(i, TO_SESSION + SESSION + GO3 + Cycles(n)));
  }
}
