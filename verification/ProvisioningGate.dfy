/** What main waits for before hubble_init: a time and a key, in either order. */
module ProvisioningGate {
  import opened Machine
  import opened Runs
  import opened BleDevice

  /** Characters of a key of `keySize` bytes in base64, padded. */
  function KeyChars(keySize: nat): nat {
    (keySize + 2) / 3 * 4
  }

  datatype Pc =
    | LoadKey      // before the key is looked up
    | StartRadio   // bt_enable and ble_init
    | WaitTime     // k_sem_take(&init_sem, K_FOREVER)
    | WaitKey      // k_sem_take(&key_sem, K_FOREVER)
    | InitHubble   // at hubble_init

  // keySize is CONFIG_HUBBLE_KEY_SIZE.
  datatype State = State(keySize: nat, pc: Pc, utcTime: uint64, initSem: nat, keySem: nat)

  datatype Action =
    | FindKey(stored: bool, configured: nat, decodes: bool)  // main, lines before bt_enable
    | RadioReady
    | TakeInit
    | TakeKey
    | SetUtc(utc: uint64, uptime: uint64)   // a SETUTC write
    | Disconnect                            // _disconnected_cb
    | KeyCommand(len: nat, decodes: bool)   // crypto_key_set from the shell

  function Init(keySize: nat): State { State(keySize, LoadKey, 0, 0, 0) }

  predicate Enabled(s: State, a: Action) {
    match a
    case FindKey(_, _, _) => s.pc.LoadKey?
    case RadioReady => s.pc.StartRadio?
    case TakeInit => s.pc.WaitTime? && s.initSem > 0
    case TakeKey => s.pc.WaitKey? && s.keySem > 0
    case _ => true
  }

  /** crypto_key_set accepts a key of the right length that decodes. */
  predicate Accepts(s: State, len: nat, decodes: bool) {
    len == KeyChars(s.keySize) && decodes
  }

  function GiveKey(s: State): State { s.(keySem := 1) }

  function Step(s: State, a: Action): State {
    if !Enabled(s, a) then s
    else match a
      case FindKey(stored, configured, decodes) =>
        var next := s.(pc := StartRadio);
        if stored then GiveKey(next)
        else if configured != 0 && Accepts(s, configured, decodes) then GiveKey(next)
        else next
      case RadioReady => s.(pc := WaitTime)
      case TakeInit => s.(pc := WaitKey, initSem := s.initSem - 1)
      case TakeKey => s.(pc := InitHubble, keySem := s.keySem - 1)
      case SetUtc(utc, uptime) => s.(utcTime := BootUtc(utc, uptime))
      case Disconnect => if s.utcTime != 0 then s.(initSem := 1) else s
      case KeyCommand(len, decodes) => if Accepts(s, len, decodes) then GiveKey(s) else s
  }

  function Run(s: State, schedule: seq<Action>): State {
    Exec(Step, s, schedule)
  }

  // ------------------------------------------- what has come, told from the schedule alone

  /** utc_time is set after `schedule` when it was (`synced`) and no SETUTC follows, or by the last one. */
  predicate Synced(synced: bool, schedule: seq<Action>) {
    if schedule == [] then synced
    else
      var last := schedule[|schedule| - 1];
      if last.SetUtc? then last.utc != last.uptime else Synced(synced, schedule[..|schedule| - 1])
  }

  /** Some disconnect finds the time set. */
  predicate TimeCame(synced: bool, schedule: seq<Action>) {
    exists j :: 0 <= j < |schedule| && schedule[j].Disconnect? && Synced(synced, schedule[..j])
  }

  /** As many characters as base64 needs for `keySize` bytes, three bytes to four of them. */
  predicate IsKeyLength(keySize: nat, len: nat) {
    len % 4 == 0 && 3 * len < 4 * keySize + 12 && 4 * keySize <= 3 * len
  }

  predicate NoneLooked(schedule: seq<Action>) {
    forall i :: 0 <= i < |schedule| ==> !schedule[i].FindKey?
  }

  /** A key accepted from the shell, or found in flash or accepted from the build on the first look. */
  predicate BringsKey(keySize: nat, looked: bool, a: Action) {
    match a
    case KeyCommand(len, decodes) => IsKeyLength(keySize, len) && decodes
    case FindKey(stored, configured, decodes) =>
      !looked && (stored || (configured != 0 && IsKeyLength(keySize, configured) && decodes))
    case _ => false
  }

  predicate BringsKeyAt(keySize: nat, looked: bool, schedule: seq<Action>, j: nat)
    requires j < |schedule|
  {
    BringsKey(keySize, looked || !NoneLooked(schedule[..j]), schedule[j])
  }

  /** Some action brings a key; main `looked` for one before, or the first FindKey is its look. */
  predicate KeyCame(keySize: nat, looked: bool, schedule: seq<Action>) {
    exists j :: 0 <= j < |schedule| && BringsKeyAt(keySize, looked, schedule, j)
  }

  lemma KeyLength(keySize: nat, len: nat)
    ensures IsKeyLength(keySize, len) <==> len == KeyChars(keySize)
  {
  }

  lemma {:induction false} SyncedFirst(synced: bool, a: Action, rest: seq<Action>)
    ensures Synced(synced, [a] + rest) ==
            Synced(if a.SetUtc? then a.utc != a.uptime else synced, rest)
    decreases |rest|
  {
    if rest != [] {
      var front := rest[..|rest| - 1];
      assert ([a] + rest)[..|rest|] == [a] + front;
      SyncedFirst(synced, a, front);
    } else {
      assert [a] + rest == [a] && [a][..0] == [];
    }
  }

  lemma TimeCameFirst(synced: bool, a: Action, rest: seq<Action>)
    ensures TimeCame(synced, [a] + rest) <==>
            (a.Disconnect? && synced) || TimeCame(if a.SetUtc? then a.utc != a.uptime else synced, rest)
  {
    var all := [a] + rest;
    var next := if a.SetUtc? then a.utc != a.uptime else synced;
    forall j | 0 <= j < |rest|
      ensures Synced(synced, all[..j + 1]) == Synced(next, rest[..j]) && all[j + 1] == rest[j]
    {
      assert all[..j + 1] == [a] + rest[..j];
      SyncedFirst(synced, a, rest[..j]);
    }
    if j :| 0 <= j < |all| && all[j].Disconnect? && Synced(synced, all[..j]) {
      if j > 0 {
        assert rest[j - 1].Disconnect? && Synced(next, rest[..j - 1]);
      }
    }
    if a.Disconnect? && synced {
      assert all[0].Disconnect? && Synced(synced, all[..0]);
    }
    if j :| 0 <= j < |rest| && rest[j].Disconnect? && Synced(next, rest[..j]) {
      assert all[j + 1].Disconnect? && Synced(synced, all[..j + 1]);
    }
  }

  lemma KeyCameFirst(keySize: nat, looked: bool, a: Action, rest: seq<Action>)
    ensures KeyCame(keySize, looked, [a] + rest) <==>
            BringsKey(keySize, looked, a) || KeyCame(keySize, looked || a.FindKey?, rest)
  {
    var all, next := [a] + rest, looked || a.FindKey?;
    assert BringsKeyAt(keySize, looked, all, 0) == BringsKey(keySize, looked, a);
    forall j | 0 <= j < |rest|
      ensures BringsKeyAt(keySize, looked, all, j + 1) == BringsKeyAt(keySize, next, rest, j)
    {
      assert all[..j + 1] == [a] + rest[..j];
      NoneLookedConcat(a, rest[..j]);
    }
    if j :| 0 <= j < |all| && BringsKeyAt(keySize, looked, all, j) {
      if j > 0 {
        assert BringsKeyAt(keySize, next, rest, j - 1);
      }
    }
    if j :| 0 <= j < |rest| && BringsKeyAt(keySize, next, rest, j) {
      assert BringsKeyAt(keySize, looked, all, j + 1);
    }
  }

  lemma NoneLookedConcat(a: Action, rest: seq<Action>)
    ensures NoneLooked([a] + rest) <==> !a.FindKey? && NoneLooked(rest)
  {
    var all := [a] + rest;
    if NoneLooked(all) {
      assert !all[0].FindKey?;
      forall i | 0 <= i < |rest|
        ensures !rest[i].FindKey?
      {
        assert !all[i + 1].FindKey?;
      }
    }
  }

  // ------------------------------------------------------------------ it is remembered

  predicate PastTime(s: State) { s.pc.WaitKey? || s.pc.InitHubble? }

  predicate PastKey(s: State) { s.pc.InitHubble? }

  predicate HasTime(s: State) { s.utcTime != 0 }

  predicate Looked(s: State) { !s.pc.LoadKey? }

  lemma SplitFirst(schedule: seq<Action>)
    requires schedule != []
    ensures schedule == [schedule[0]] + schedule[1..]
  {
  }

  /** Until it is taken, the semaphore remembers that a time has come; nothing else gives it. */
  lemma {:induction false} TimeIsRemembered(s: State, schedule: seq<Action>)
    requires s.initSem <= 1
    ensures var t := Run(s, schedule);
            && t.initSem <= 1
            && (PastTime(t) || t.initSem == 1 <==>
                  PastTime(s) || s.initSem == 1 || TimeCame(HasTime(s), schedule))
    decreases |schedule|
  {
    if schedule != [] {
      var a := schedule[0];
      SplitFirst(schedule);
      TimeCameFirst(HasTime(s), a, schedule[1..]);
      TimeIsRemembered(Step(s, a), schedule[1..]);
      if a.Disconnect? && HasTime(s) {
        assert Step(s, a).initSem == 1;
      }
    }
  }

  lemma {:induction false} KeyIsRemembered(s: State, schedule: seq<Action>)
    requires s.keySem <= 1
    ensures var t := Run(s, schedule);
            && t.keySem <= 1
            && (PastKey(t) || t.keySem == 1 <==>
                  PastKey(s) || s.keySem == 1 || KeyCame(s.keySize, Looked(s), schedule))
    decreases |schedule|
  {
    if schedule != [] {
      var a := schedule[0];
      SplitFirst(schedule);
      KeyCameFirst(s.keySize, Looked(s), a, schedule[1..]);
      KeyStep(s, a);
      KeyIsRemembered(Step(s, a), schedule[1..]);
    }
  }

  lemma KeyStep(s: State, a: Action)
    requires s.keySem <= 1
    ensures var t := Step(s, a);
            && t.keySem <= 1 && t.keySize == s.keySize
            && Looked(t) == (Looked(s) || a.FindKey?)
            && (PastKey(t) || t.keySem == 1 <==>
                  PastKey(s) || s.keySem == 1 || BringsKey(s.keySize, Looked(s), a))
  {
    match a {
      case KeyCommand(len, _) => KeyLength(s.keySize, len);
      case FindKey(_, configured, _) => KeyLength(s.keySize, configured);
      case _ =>
    }
  }

  /** main waits for neither before the radio is up, and is past the look-up from then on. */
  lemma {:induction false} RadioComesFirst(s: State, schedule: seq<Action>)
    requires s.pc.LoadKey? || s.pc.StartRadio?
    requires forall i :: 0 <= i < |schedule| ==> !schedule[i].RadioReady?
    ensures Run(s, schedule).pc.LoadKey? || Run(s, schedule).pc.StartRadio?
    decreases |schedule|
  {
    if schedule != [] {
      assert !schedule[0].RadioReady?;
      RadioComesFirst(Step(s, schedule[0]), schedule[1..]);
    }
  }

  /**
   * Over every interleaving main reaches hubble_init only after both have come, and when
   * it waits it can go on exactly when both have, whichever came first.
   */
  lemma GateOpensIff(keySize: nat, schedule: seq<Action>)
    ensures var s := Run(Init(keySize), schedule);
            var time, key := TimeCame(false, schedule), KeyCame(keySize, false, schedule);
            && (s.pc.InitHubble? ==> time && key)
            && (s.pc.InitHubble? || s.pc.WaitKey? || s.pc.WaitTime? ==>
                  exists i :: 0 <= i < |schedule| && schedule[i].RadioReady?)
            && (s.pc.WaitKey? ==> time && (Step(s, TakeKey).pc.InitHubble? <==> key))
            && (s.pc.WaitTime? ==>
                  (Run(s, [TakeInit, TakeKey]).pc.InitHubble? <==> time && key))
  {
    TimeIsRemembered(Init(keySize), schedule);
    KeyIsRemembered(Init(keySize), schedule);
    var s := Run(Init(keySize), schedule);
    if forall i :: 0 <= i < |schedule| ==> !schedule[i].RadioReady? {
      RadioComesFirst(Init(keySize), schedule);
    }
    Exec2(Step, s, TakeInit, TakeKey);
  }

  const PROVISIONED := [FindKey(true, 0, false), RadioReady, SetUtc(1_700_000_000_000, 5000), Disconnect]

  /** The usual course: a key in flash, a time over Bluetooth, a disconnect. */
  lemma GateOpens()
    ensures var s := Run(Init(32), PROVISIONED + [TakeInit, TakeKey]);
            s.pc.InitHubble? && s.utcTime == 1_699_999_995_000
  {
    var i := Init(32);
    Exec4(Step, i, PROVISIONED[0], PROVISIONED[1], PROVISIONED[2], PROVISIONED[3]);
    Exec2(Step, Run(i, PROVISIONED), TakeInit, TakeKey);
    ExecConcat(Step, i, PROVISIONED, [TakeInit, TakeKey]);
  }
}
