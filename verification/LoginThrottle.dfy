/** Locking out an address. */
module LoginThrottle {
  import opened Common

  /** AUTH_LOCKOUT_MAX_ATTEMPTS and AUTH_LOCKOUT_SECONDS, both at least one. */
  datatype Settings = Settings(maxAttempts: nat, lockoutSeconds: nat)

  predicate SettingsOk(c: Settings) {
    c.maxAttempts >= 1 && c.lockoutSeconds >= 1
  }

  /** A counter and its expiry, in milliseconds; INCR gives a new key none. */
  datatype Counter = Counter(count: nat, expiresAt: Option<int>)

  /** The two keys of one address. A key past its expiry is not there. */
  datatype Keys = Keys(failures: Option<Counter>, lock: Option<int>)

  const NO_KEYS: Keys := Keys(None, None)

  predicate CounterLives(failures: Option<Counter>, now: int) {
    failures.Some? && (failures.value.expiresAt.Some? ==> now < failures.value.expiresAt.value)
  }

  predicate LockLives(lock: Option<int>, now: int) {
    lock.Some? && now < lock.value
  }

  // ------------------------------------------------- one command at a time

  function CountNow(k: Keys, now: int): nat {
    if CounterLives(k.failures, now) then k.failures.value.count else 0
  }

  /** INCR keeps the expiry of a key it finds. */
  function Incr(k: Keys, now: int): Keys {
    if CounterLives(k.failures, now) then
      k.(failures := Some(k.failures.value.(count := k.failures.value.count + 1)))
    else k.(failures := Some(Counter(1, None)))
  }

  /** EXPIRE does nothing to a key that is not there. */
  function Expire(k: Keys, now: int, seconds: nat): Keys {
    if CounterLives(k.failures, now) then
      k.(failures := Some(k.failures.value.(expiresAt := Some(now + 1000 * seconds))))
    else k
  }

  function SetLock(k: Keys, now: int, seconds: nat): Keys {
    k.(lock := Some(now + 1000 * seconds))
  }

  function DelFailures(k: Keys): Keys {
    k.(failures := None)
  }

  /** TTL answers in seconds, to the nearest one. */
  function Ttl(k: Keys, now: int): int {
    if LockLives(k.lock, now) then (k.lock.value - now + 500) / 1000 else -2
  }

  // ------------------------------------------------------- the three calls

  function Recorded(c: Settings, k: Keys, now: int): Keys {
    var counted := Incr(k, now);
    var count := counted.failures.value.count;
    var windowed := if count == 1 then Expire(counted, now, c.lockoutSeconds) else counted;
    if count >= c.maxAttempts then DelFailures(SetLock(windowed, now, c.lockoutSeconds)) else windowed
  }

  function LockedFor(k: Keys, now: int): (seconds: nat) {
    var ttl := Ttl(k, now);
    if ttl > 0 then ttl else 0
  }

  // --------------------------------------------- what it is to be locked out

  datatype Outcome = Failure | Success

  datatype Attempt = Attempt(at: int, outcome: Outcome)

  /** A fixed window: opened by a failure, it runs for the lockout time. */
  datatype Window = Closed | Open(since: int, failures: nat)

  function StillOpen(c: Settings, w: Window, now: int): Window {
    if w.Open? && now < w.since + 1000 * c.lockoutSeconds then w else Closed
  }

  /** How many failures the window holds with this one. */
  function WithFailure(c: Settings, w: Window, now: int): Window {
    match StillOpen(c, w, now)
    case Closed => Open(now, 1)
    case Open(since, n) => Open(since, n + 1)
  }

  /** A success closes the window, and so does the failure that locks. */
  function WindowAfter(c: Settings, attempts: seq<Attempt>): Window {
    if attempts == [] then Closed
    else
      var w, a := WindowAfter(c, attempts[..|attempts| - 1]), attempts[|attempts| - 1];
      if a.outcome.Success? then Closed
      else if WithFailure(c, w, a.at).failures >= c.maxAttempts then Closed
      else WithFailure(c, w, a.at)
  }

  /** The k-th attempt is the failure that fills its window. */
  predicate LocksAt(c: Settings, attempts: seq<Attempt>, k: nat)
    requires k < |attempts|
  {
    && attempts[k].outcome.Failure?
    && WithFailure(c, WindowAfter(c, attempts[..k]), attempts[k].at).failures >= c.maxAttempts
  }

  function After(c: Settings, k: Keys, a: Attempt): Keys {
    match a.outcome
    case Failure => Recorded(c, k, a.at)
    case Success => DelFailures(k)
  }

  function KeysAfter(c: Settings, attempts: seq<Attempt>): Keys {
    if attempts == [] then NO_KEYS
    else After(c, KeysAfter(c, attempts[..|attempts| - 1]), attempts[|attempts| - 1])
  }

  /** The counter key holds the window: its failures, and its end as the expiry. */
  ghost predicate Mirrors(c: Settings, failures: Option<Counter>, w: Window) {
    match w
    case Closed => failures == None
    case Open(since, n) => failures == Some(Counter(n, Some(since + 1000 * c.lockoutSeconds)))
  }

  lemma {:induction false} KeysMirrorWindow(c: Settings, attempts: seq<Attempt>)
    requires SettingsOk(c)
    ensures Mirrors(c, KeysAfter(c, attempts).failures, WindowAfter(c, attempts))
    ensures WindowAfter(c, attempts).Open? ==> 1 <= WindowAfter(c, attempts).failures < c.maxAttempts
  {
    if attempts != [] {
      KeysMirrorWindow(c, attempts[..|attempts| - 1]);
    }
  }

  /** Between calls the stored count stays below the maximum, and always has an expiry. */
  lemma {:induction false} CountStaysBelow(c: Settings, attempts: seq<Attempt>, now: int)
    requires SettingsOk(c)
    ensures CountNow(KeysAfter(c, attempts), now) < c.maxAttempts
    ensures var f := KeysAfter(c, attempts).failures; f.Some? ==> f.value.expiresAt.Some?
  {
    KeysMirrorWindow(c, attempts);
  }

  /** When the last lock was set, if one was. */
  function LastLock(c: Settings, attempts: seq<Attempt>): Option<int> {
    if attempts == [] then None
    else if LocksAt(c, attempts, |attempts| - 1) then Some(attempts[|attempts| - 1].at)
    else LastLock(c, attempts[..|attempts| - 1])
  }

  /**
   * The lock key is exactly the last window-filling failure's: no success lifts it, no
   * other failure sets or moves it, and it lasts the lockout time.
   */
  lemma {:induction false} LockIsLastFilledWindow(c: Settings, attempts: seq<Attempt>)
    requires SettingsOk(c)
    ensures KeysAfter(c, attempts).lock
         == match LastLock(c, attempts) case None => None case Some(at) => Some(at + 1000 * c.lockoutSeconds)
  {
    if attempts != [] {
      var front := attempts[..|attempts| - 1];
      LockIsLastFilledWindow(c, front);
      KeysMirrorWindow(c, front);
    }
  }

  /** What is left of the last lock, in milliseconds. */
  function Left(c: Settings, attempts: seq<Attempt>, now: int): int {
    match LastLock(c, attempts)
    case None => 0
    case Some(at) => if now < at + 1000 * c.lockoutSeconds then at + 1000 * c.lockoutSeconds - now else 0
  }

  /**
   * The reported wait is what is left of the last lock, to the nearest second: never more than
   * the lockout, and none only without a lock or in its last half second.
   */
  lemma {:induction false} WaitIsBounded(c: Settings, attempts: seq<Attempt>, now: int)
    requires SettingsOk(c) && forall i | 0 <= i < |attempts| :: attempts[i].at <= now
    ensures var wait := LockedFor(KeysAfter(c, attempts), now);
            var last := LastLock(c, attempts);
            && 0 <= wait <= c.lockoutSeconds
            && -500 <= 1000 * wait - Left(c, attempts, now) <= 500
            && (wait > 0 <==> last.Some? && now + 500 <= last.value + 1000 * c.lockoutSeconds)
  {
    LockIsLastFilledWindow(c, attempts);
    LastLockIsAttempt(c, attempts);
  }

  /** By example: in its last half second a lock is still there and refuses no one. */
  lemma {:induction false} LockEndsEarly(c: Settings)
    requires SettingsOk(c) && c.maxAttempts == 1
    ensures var keys, now := KeysAfter(c, [Attempt(0, Failure)]), 1000 * c.lockoutSeconds - 499;
            LockLives(keys.lock, now) && LockedFor(keys, now) == 0
  {
    assert [Attempt(0, Failure)][..0] == [];
    assert KeysAfter(c, [Attempt(0, Failure)]) == Recorded(c, NO_KEYS, 0);
  }

  lemma {:induction false} LastLockIsAttempt(c: Settings, attempts: seq<Attempt>)
    ensures LastLock(c, attempts).Some? ==>
              exists i :: 0 <= i < |attempts| && attempts[i].at == LastLock(c, attempts).value
  {
    if attempts != [] && !LocksAt(c, attempts, |attempts| - 1) {
      var front := attempts[..|attempts| - 1];
      LastLockIsAttempt(c, front);
      if LastLock(c, front).Some? {
        var i :| 0 <= i < |front| && front[i].at == LastLock(c, front).value;
        assert attempts[i].at == front[i].at;
      }
    }
  }

  // ------------------------------------------- the filled window, in the open

  function FailuresIn(attempts: seq<Attempt>): nat {
    if attempts == [] then 0
    else FailuresIn(attempts[..|attempts| - 1]) + (if attempts[|attempts| - 1].outcome.Failure? then 1 else 0)
  }

  /** A failure that finds no window open. */
  predicate Opens(c: Settings, attempts: seq<Attempt>, i: nat)
    requires i < |attempts|
  {
    attempts[i].outcome.Failure? && StillOpen(c, WindowAfter(c, attempts[..i]), attempts[i].at).Closed?
  }

  /** Failures only, none of them locking, all inside the window the first of them opened. */
  ghost predicate Unbroken(c: Settings, attempts: seq<Attempt>, i: nat, k: nat)
    requires i <= k <= |attempts|
  {
    forall j | i <= j < k ::
      attempts[j].outcome.Failure? && !LocksAt(c, attempts, j) && attempts[j].at < attempts[i].at + 1000 * c.lockoutSeconds
  }

  ghost predicate WindowSince(c: Settings, attempts: seq<Attempt>, i: nat, k: nat)
    requires i < k <= |attempts|
  {
    Opens(c, attempts, i) && Unbroken(c, attempts, i, k) && FailuresIn(attempts[i..k]) < c.maxAttempts
  }

  lemma {:induction false} FailuresSnoc(attempts: seq<Attempt>, i: nat, k: nat)
    requires i <= k < |attempts|
    ensures FailuresIn(attempts[i..k + 1]) == FailuresIn(attempts[i..k]) + (if attempts[k].outcome.Failure? then 1 else 0)
  {
    assert attempts[i..k + 1][..k - i] == attempts[i..k];
  }

  lemma {:induction false} WindowStep(c: Settings, attempts: seq<Attempt>, k: nat)
    requires k < |attempts|
    ensures WindowAfter(c, attempts[..k + 1])
         == (var w, a := WindowAfter(c, attempts[..k]), attempts[k];
             if a.outcome.Success? || WithFailure(c, w, a.at).failures >= c.maxAttempts then Closed
             else WithFailure(c, w, a.at))
  {
    assert attempts[..k + 1][..k] == attempts[..k];
  }

  lemma {:induction false} NothingYet(c: Settings, attempts: seq<Attempt>)
    ensures WindowAfter(c, attempts[..0]) == Closed
  {
  }

  lemma {:induction false} OpenWindowStep(c: Settings, attempts: seq<Attempt>, k: nat)
    requires k <= |attempts| && WindowAfter(c, attempts[..k]).Open?
    ensures k > 0 && attempts[k - 1].outcome.Failure? && !LocksAt(c, attempts, k - 1)
    ensures WindowAfter(c, attempts[..k]) == WithFailure(c, WindowAfter(c, attempts[..k - 1]), attempts[k - 1].at)
    ensures WindowAfter(c, attempts[..k]).failures < c.maxAttempts
  {
    NothingYet(c, attempts);
    WindowStep(c, attempts, k - 1);
  }

  lemma {:induction false} UnbrokenMore(c: Settings, attempts: seq<Attempt>, i: nat, k: nat)
    requires i <= k < |attempts| && Unbroken(c, attempts, i, k)
    requires attempts[k].outcome.Failure? && !LocksAt(c, attempts, k)
    requires attempts[k].at < attempts[i].at + 1000 * c.lockoutSeconds
    ensures Unbroken(c, attempts, i, k + 1)
  {
  }

  /** An open window began at some failure and has counted every failure since. */
  lemma {:induction false} OpenWindowBegan(c: Settings, attempts: seq<Attempt>, k: nat) returns (i: nat)
    requires SettingsOk(c) && k <= |attempts| && WindowAfter(c, attempts[..k]).Open?
    ensures i < k && WindowSince(c, attempts, i, k)
    ensures WindowAfter(c, attempts[..k]) == Open(attempts[i].at, FailuresIn(attempts[i..k]))
  {
    OpenWindowStep(c, attempts, k);
    var w, a := WindowAfter(c, attempts[..k - 1]), attempts[k - 1];
    hide WindowAfter, FailuresIn, Unbroken, LocksAt;
    if StillOpen(c, w, a.at).Open? {
      i := OpenWindowBegan(c, attempts, k - 1);
    } else {
      i := k - 1;
      NoFailures(attempts, i);
      UnbrokenNone(c, attempts, i);
    }
    FailuresSnoc(attempts, i, k - 1);
    UnbrokenMore(c, attempts, i, k - 1);
  }

  lemma {:induction false} UnbrokenNone(c: Settings, attempts: seq<Attempt>, i: nat)
    requires i <= |attempts|
    ensures Unbroken(c, attempts, i, i)
  {
  }

  lemma {:induction false} WindowGrows(c: Settings, attempts: seq<Attempt>, k: nat)
    requires k < |attempts| && attempts[k].outcome.Failure? && !LocksAt(c, attempts, k)
    requires var w := WindowAfter(c, attempts[..k]);
             w.Open? && attempts[k].at < w.since + 1000 * c.lockoutSeconds
    ensures var w := WindowAfter(c, attempts[..k]);
            WindowAfter(c, attempts[..k + 1]) == Open(w.since, w.failures + 1)
  {
    WindowStep(c, attempts, k);
  }

  lemma {:induction false} WindowOpens(c: Settings, attempts: seq<Attempt>, k: nat)
    requires k < |attempts| && Opens(c, attempts, k) && !LocksAt(c, attempts, k)
    ensures WindowAfter(c, attempts[..k + 1]) == Open(attempts[k].at, 1)
  {
    WindowStep(c, attempts, k);
  }

  /** A stretch of failures inside one window is what the window counts. */
  lemma {:induction false} StretchIsCounted(c: Settings, attempts: seq<Attempt>, i: nat, k: nat)
    requires SettingsOk(c) && i < k <= |attempts| && Opens(c, attempts, i) && Unbroken(c, attempts, i, k)
    ensures WindowAfter(c, attempts[..k]) == Open(attempts[i].at, FailuresIn(attempts[i..k]))
    decreases k
  {
    hide *;
    UnbrokenAt(c, attempts, i, k);
    FailuresSnoc(attempts, i, k - 1);
    if k - 1 > i {
      StretchIsCounted(c, attempts, i, k - 1);
      WindowGrows(c, attempts, k - 1);
    } else {
      NoFailures(attempts, i);
      WindowOpens(c, attempts, i);
    }
  }

  lemma {:induction false} UnbrokenAt(c: Settings, attempts: seq<Attempt>, i: nat, k: nat)
    requires i < k <= |attempts| && Unbroken(c, attempts, i, k)
    ensures Unbroken(c, attempts, i, k - 1)
    ensures attempts[k - 1].outcome.Failure? && !LocksAt(c, attempts, k - 1)
    ensures attempts[k - 1].at < attempts[i].at + 1000 * c.lockoutSeconds
  {
  }

  lemma {:induction false} NoFailures(attempts: seq<Attempt>, i: nat)
    requires i <= |attempts|
    ensures FailuresIn(attempts[i..i]) == 0
  {
  }

  /**
   * A lock is set exactly on the maximum-th failure of one fixed window: opened by a
   * failure that found none open, with no success and no lock since, and not yet over.
   */
  lemma {:induction false} LocksExactly(c: Settings, attempts: seq<Attempt>, k: nat)
    requires SettingsOk(c) && k < |attempts|
    ensures LocksAt(c, attempts, k) <==>
      exists i :: Fills(c, attempts, i, k)
  {
    if LocksAt(c, attempts, k) {
      if StillOpen(c, WindowAfter(c, attempts[..k]), attempts[k].at).Open? {
        var i := OpenWindowBegan(c, attempts, k);
        FailuresSnoc(attempts, i, k);
        assert Fills(c, attempts, i, k);
      } else {
        FailuresSnoc(attempts, k, k);
        assert attempts[k..k] == [];
        assert Fills(c, attempts, k, k);
      }
    }
    if i :| Fills(c, attempts, i, k) {
      FilledLocks(c, attempts, i, k);
    }
  }

  ghost predicate Fills(c: Settings, attempts: seq<Attempt>, i: int, k: nat)
    requires k < |attempts|
  {
    && 0 <= i <= k && Opens(c, attempts, i) && Unbroken(c, attempts, i, k)
    && attempts[k].outcome.Failure? && attempts[k].at < attempts[i].at + 1000 * c.lockoutSeconds
    && FailuresIn(attempts[i..k + 1]) == c.maxAttempts
  }

  lemma {:induction false} FilledLocks(c: Settings, attempts: seq<Attempt>, i: nat, k: nat)
    requires SettingsOk(c) && k < |attempts| && Fills(c, attempts, i, k)
    ensures LocksAt(c, attempts, k)
  {
    FailuresSnoc(attempts, i, k);
    if i < k {
      StretchIsCounted(c, attempts, i, k);
    } else {
      assert attempts[i..i] == [];
    }
  }

  // ------------------------------------- calls interleaved, command by command

  /** What a call of recordFailure still has to do. */
  datatype Call =
    | ToExpire(seen: nat)
    | ToLock(seen: nat)
    | ToDelete

  /**
   * The keys and the calls under way. `started` names every call there has been, `stopped`
   * what each call that was cut off, its process gone, still had to do. Of the counter there
   * is, `stood` holds the calls that were between INCR and EXPIRE at some time since it came
   * to be, and `filled` those whose INCR brought it to the maximum or beyond.
   */
  datatype Bench = Bench(
    keys: Keys,
    now: int,
    calls: map<nat, Call>,
    started: set<nat>,
    stopped: map<nat, Call>,
    stood: set<nat>,
    filled: set<nat>)

  datatype Command =
    | Tick(to: int)
    | DoIncr(call: nat)
    | DoExpire(call: nat)
    | DoLock(call: nat)
    | DoDelete(call: nat)
    | Clear
    | Stop(call: nat)

  /** A call goes on with its next command, if it has one. */
  function Going(c: Settings, b: Bench, call: nat, seen: nat): map<nat, Call> {
    if seen >= c.maxAttempts then b.calls[call := ToLock(seen)] else b.calls - {call}
  }

  function Expiring(calls: map<nat, Call>): set<nat> {
    set k | k in calls && calls[k].ToExpire?
  }

  /** The first command of a call: a counter that comes to be starts its trail anew. */
  function Counted(c: Settings, b: Bench, call: nat): Bench {
    var keys, found := Incr(b.keys, b.now), CounterLives(b.keys.failures, b.now);
    var seen := keys.failures.value.count;
    b.(keys := keys,
       calls := if seen == 1 then b.calls[call := ToExpire(seen)] else Going(c, b, call, seen),
       started := b.started + {call},
       stood := if found then b.stood else Expiring(b.calls) + {call},
       filled := (if found then b.filled else {}) + (if seen >= c.maxAttempts then {call} else {}))
  }

  function Ran(c: Settings, b: Bench, command: Command): Bench {
    match command
    case Tick(to) => if to >= b.now then b.(now := to) else b
    case DoIncr(call) => if call in b.started then b else Counted(c, b, call)
    case DoExpire(call) =>
      if call in b.calls && b.calls[call].ToExpire? then
        b.(keys := Expire(b.keys, b.now, c.lockoutSeconds), calls := Going(c, b, call, b.calls[call].seen))
      else b
    case DoLock(call) =>
      if call in b.calls && b.calls[call].ToLock? then
        b.(keys := SetLock(b.keys, b.now, c.lockoutSeconds), calls := b.calls[call := ToDelete])
      else b
    case DoDelete(call) =>
      if call in b.calls && b.calls[call].ToDelete? then b.(keys := DelFailures(b.keys), calls := b.calls - {call}) else b
    case Clear => b.(keys := DelFailures(b.keys))
    case Stop(call) =>
      if call in b.calls then b.(calls := b.calls - {call}, stopped := b.stopped[call := b.calls[call]]) else b
  }

  function RunOf(c: Settings, start: int, commands: seq<Command>): Bench {
    if commands == [] then Bench(NO_KEYS, start, map[], {}, map[], {}, {})
    else Ran(c, RunOf(c, start, commands[..|commands| - 1]), commands[|commands| - 1])
  }

  ghost predicate TrailOk(c: Settings, b: Bench) {
    && b.calls.Keys <= b.started && b.stopped.Keys <= b.started && b.calls.Keys !! b.stopped.Keys
    && b.stood <= b.started && b.filled <= b.started
    && (b.keys.lock.Some? ==> b.keys.lock.value <= b.now + 1000 * c.lockoutSeconds)
    && (b.keys.failures.Some? ==>
          b.keys.failures.value.count >= 1 && Expiring(b.calls) <= b.stood && b.stood != {})
  }

  /** A call that was cut off, or still is, between INCR and EXPIRE. */
  ghost predicate NotExpired(b: Bench, k: nat) {
    (k in b.calls && b.calls[k].ToExpire?) || (k in b.stopped && b.stopped[k].ToExpire?)
  }

  /** No call that stood there got as far as EXPIRE: just then the counter has no expiry. */
  ghost predicate ExpiryOk(b: Bench) {
    b.keys.failures.Some? ==>
      (b.keys.failures.value.expiresAt.None? <==> forall k | k in b.stood :: NotExpired(b, k))
  }

  /** A call that counted to the maximum, or beyond, and has not deleted the counter. */
  ghost predicate NotDeleted(c: Settings, b: Bench, k: nat) {
    && (k in b.calls || k in b.stopped)
    && (k in b.calls ==> b.calls[k].ToDelete? || b.calls[k].seen >= c.maxAttempts)
  }

  ghost predicate FilledOk(c: Settings, b: Bench) {
    b.keys.failures.Some? ==>
      && (b.keys.failures.value.count >= c.maxAttempts <==> b.filled != {})
      && forall k | k in b.filled :: NotDeleted(c, b, k)
  }

  ghost predicate BenchOk(c: Settings, b: Bench) {
    TrailOk(c, b) && ExpiryOk(b) && FilledOk(c, b)
  }

  lemma {:induction false} CommandKeepsTrail(c: Settings, b: Bench, command: Command)
    requires SettingsOk(c) && TrailOk(c, b)
    ensures TrailOk(c, Ran(c, b, command))
  {
    if command.DoIncr? && command.call !in b.started {
      assert command.call in Counted(c, b, command.call).stood || CounterLives(b.keys.failures, b.now);
    }
  }

  lemma {:induction false} CommandKeepsExpiry(c: Settings, b: Bench, command: Command)
    requires SettingsOk(c) && TrailOk(c, b) && ExpiryOk(b)
    ensures ExpiryOk(Ran(c, b, command))
  {
    var after := Ran(c, b, command);
    match command
    case DoIncr(call) =>
      if call !in b.started {
        assert CounterLives(b.keys.failures, b.now) ==> forall k | k in b.stood :: NotExpired(after, k) <==> NotExpired(b, k);
        assert !CounterLives(b.keys.failures, b.now) ==> forall k | k in after.stood :: NotExpired(after, k);
      }
    case DoExpire(call) =>
      if call in Expiring(b.calls) && b.keys.failures.Some? {
        assert call in b.stood && !NotExpired(after, call);
      }
    case _ =>
      assert forall k :: NotExpired(after, k) <==> NotExpired(b, k);
  }

  lemma {:induction false} CommandKeepsFilled(c: Settings, b: Bench, command: Command)
    requires SettingsOk(c) && TrailOk(c, b) && FilledOk(c, b)
    ensures FilledOk(c, Ran(c, b, command))
  {
    var after := Ran(c, b, command);
    if after.keys.failures.Some? {
      if command.DoIncr? && command.call !in b.started {
        forall k | k in after.filled ensures NotDeleted(c, after, k) {
          assert k != command.call ==> NotDeleted(c, b, k);
        }
      } else {
        forall k | k in after.filled ensures NotDeleted(c, after, k) {
          assert NotDeleted(c, b, k);
        }
      }
    }
  }

  lemma {:induction false} EveryBenchIsOk(c: Settings, start: int, commands: seq<Command>)
    requires SettingsOk(c)
    ensures BenchOk(c, RunOf(c, start, commands))
  {
    hide Ran, TrailOk, ExpiryOk, FilledOk;
    if commands == [] {
      NothingIsOk(c, start);
    } else {
      var b, command := RunOf(c, start, commands[..|commands| - 1]), commands[|commands| - 1];
      EveryBenchIsOk(c, start, commands[..|commands| - 1]);
      CommandKeepsTrail(c, b, command);
      CommandKeepsExpiry(c, b, command);
      CommandKeepsFilled(c, b, command);
    }
  }

  lemma {:induction false} NothingIsOk(c: Settings, start: int)
    ensures BenchOk(c, RunOf(c, start, []))
  {
  }

  /**
   * However the commands of concurrent sign-ins interleave, and wherever calls are cut off:
   * a counter at rest has no expiry exactly when every call that stood between INCR and
   * EXPIRE in its time was cut off there, and is at the maximum exactly when a call that
   * counted it there was cut off.
   */
  lemma {:induction false} AtRestExactly(c: Settings, start: int, commands: seq<Command>)
    requires SettingsOk(c)
    requires var b := RunOf(c, start, commands); b.calls == map[] && b.keys.failures.Some?
    ensures var b := RunOf(c, start, commands);
            && (b.keys.failures.value.expiresAt.None?
                <==> forall k | k in b.stood :: k in b.stopped && b.stopped[k].ToExpire?)
            && (b.keys.failures.value.count >= c.maxAttempts <==> exists k :: k in b.filled && k in b.stopped)
  {
    EveryBenchIsOk(c, start, commands);
    var b := RunOf(c, start, commands);
    hide RunOf;
    if k :| k in b.filled {
      assert NotDeleted(c, b, k);
    }
  }

  /**
   * Once every call has finished the counter is below the maximum and expires, and a lock
   * never outlasts the lockout time.
   */
  lemma {:induction false} QuietMeansOpenable(c: Settings, start: int, commands: seq<Command>)
    requires SettingsOk(c)
    ensures var b := RunOf(c, start, commands);
            && LockedFor(b.keys, b.now) <= c.lockoutSeconds
            && (b.calls == map[] && b.stopped == map[] && b.keys.failures.Some? ==>
                  b.keys.failures.value.count < c.maxAttempts && b.keys.failures.value.expiresAt.Some?)
  {
    EveryBenchIsOk(c, start, commands);
    var b := RunOf(c, start, commands);
    hide RunOf;
    if b.calls == map[] && b.stopped == map[] && b.keys.failures.Some? {
      var k :| k in b.stood;
      assert !NotExpired(b, k);
      assert forall f | f in b.filled :: NotDeleted(c, b, f);
      assert b.filled == {};
    }
  }

  /** A success, whenever it comes, leaves every lock alone. */
  lemma {:induction false} ClearLeavesLock(c: Settings, start: int, commands: seq<Command>, now: int)
    ensures LockedFor(RunOf(c, start, commands + [Clear]).keys, now) == LockedFor(RunOf(c, start, commands).keys, now)
  {
    assert (commands + [Clear])[..|commands|] == commands;
  }

  /** By example: cut off between its first two commands, a call leaves a counter that never expires. */
  lemma {:induction false} CutCallLeavesNoExpiry(c: Settings, start: int, later: int)
    requires SettingsOk(c) && start <= later
    ensures var b := RunOf(c, start, [DoIncr(0), Stop(0), Tick(later)]);
            b.now == later && b.calls == map[] && CountNow(b.keys, later) == 1 && b.keys.failures.value.expiresAt.None?
  {
    var all := [DoIncr(0), Stop(0), Tick(later)];
    assert all[..2] == [DoIncr(0), Stop(0)];
    assert all[..2][..1] == [DoIncr(0)];
    assert [DoIncr(0)][..0] == [];
    assert RunOf(c, start, [DoIncr(0)]).calls == map[0 := ToExpire(1)];
    assert RunOf(c, start, all[..2]).calls == map[];
  }

  /** So many whole calls one after another, but that the last goes no further than it must. */
  function Failing(n: nat): seq<Command> {
    if n == 0 then []
    else if n == 1 then [DoIncr(0), DoExpire(0)]
    else Failing(n - 1) + [DoIncr(n - 1)]
  }

  lemma {:induction false} RunSnoc(c: Settings, start: int, commands: seq<Command>, command: Command)
    ensures RunOf(c, start, commands + [command]) == Ran(c, RunOf(c, start, commands), command)
  {
    assert (commands + [command])[..|commands|] == commands;
  }

  /** The bench after so many failures in one window, the last of them about to lock if it fills it. */
  ghost predicate Failed(c: Settings, start: int, n: nat, b: Bench) {
    && n > 0 && b.now == start && (forall k | k in b.started :: k < n)
    && b.keys.failures == Some(Counter(n, Some(start + 1000 * c.lockoutSeconds)))
    && b.calls == if n >= c.maxAttempts then map[n - 1 := ToLock(n)] else map[]
  }

  lemma {:induction false} OneMoreFailed(c: Settings, start: int, n: nat, b: Bench)
    requires SettingsOk(c) && Failed(c, start, n, b) && n < c.maxAttempts
    ensures Failed(c, start, n + 1, Ran(c, b, DoIncr(n)))
  {
    assert n !in b.started;
    assert CounterLives(b.keys.failures, b.now);
    assert b.calls[n := ToLock(n + 1)] == map[n := ToLock(n + 1)];
    assert b.calls - {n} == map[];
  }

  lemma {:induction false} FirstFailureRuns(c: Settings, start: int)
    requires SettingsOk(c)
    ensures Failed(c, start, 1, RunOf(c, start, Failing(1)))
  {
    RunSnoc(c, start, [], DoIncr(0));
    RunSnoc(c, start, [DoIncr(0)], DoExpire(0));
    assert [] + [DoIncr(0)] == [DoIncr(0)] && [DoIncr(0)] + [DoExpire(0)] == Failing(1);
    assert RunOf(c, start, [DoIncr(0)]).calls == map[0 := ToExpire(1)];
  }

  lemma {:induction false} FailingMore(n: nat)
    requires n > 1
    ensures Failing(n) == Failing(n - 1) + [DoIncr(n - 1)]
  {
  }

  lemma {:induction false} FailingRuns(c: Settings, start: int, n: nat)
    requires SettingsOk(c) && 1 <= n <= c.maxAttempts
    ensures Failed(c, start, n, RunOf(c, start, Failing(n)))
  {
    hide *;
    if n == 1 {
      FirstFailureRuns(c, start);
    } else {
      FailingMore(n);
      FailingRuns(c, start, n - 1);
      RunSnoc(c, start, Failing(n - 1), DoIncr(n - 1));
      OneMoreFailed(c, start, n - 1, RunOf(c, start, Failing(n - 1)));
    }
  }

  lemma {:induction false} LockThenStop(c: Settings, b: Bench, call: nat, n: nat)
    requires b.calls == map[call := ToLock(n)]
    ensures var stopped := Ran(c, Ran(c, b, DoLock(call)), Stop(call));
            stopped.calls == map[] && stopped.keys.lock.Some? && stopped.keys.failures == b.keys.failures
  {
    assert Ran(c, b, DoLock(call)).calls == map[call := ToDelete];
  }

  lemma {:induction false} RunTwo(c: Settings, start: int, commands: seq<Command>, one: Command, two: Command)
    ensures RunOf(c, start, commands + [one, two]) == Ran(c, Ran(c, RunOf(c, start, commands), one), two)
  {
    hide Ran, RunOf;
    RunSnoc(c, start, commands, one);
    RunSnoc(c, start, commands + [one], two);
    assert commands + [one] + [two] == commands + [one, two];
  }

  /**
   * By example, whatever the maximum: the call that fills the window is cut off between its
   * last two commands, and leaves the counter full.
   */
  lemma {:induction false} CutCallLeavesFull(c: Settings, start: int)
    requires SettingsOk(c)
    ensures var last := c.maxAttempts - 1;
            var b := RunOf(c, start, Failing(c.maxAttempts) + [DoLock(last), Stop(last)]);
            && b.calls == map[] && b.keys.lock.Some?
            && b.keys.failures == Some(Counter(c.maxAttempts, Some(start + 1000 * c.lockoutSeconds)))
  {
    var last := c.maxAttempts - 1;
    hide Ran, RunOf, Failing;
    FailingRuns(c, start, c.maxAttempts);
    RunTwo(c, start, Failing(c.maxAttempts), DoLock(last), Stop(last));
    LockThenStop(c, RunOf(c, start, Failing(c.maxAttempts)), last, c.maxAttempts);
  }

  function RecordedAll(c: Settings, k: Keys, times: seq<int>): Keys
    decreases |times|
  {
    if times == [] then k else RecordedAll(c, Recorded(c, k, times[0]), times[1..])
  }

  /** Such a counter ends with the failure that fills it, whenever that comes, or a success. */
  lemma {:induction false} LaterFailuresFill(c: Settings, k: Keys, n: nat, times: seq<int>)
    requires k.failures == Some(Counter(n, None)) && 1 <= n && times != []
    requires n + |times| <= c.maxAttempts
    ensures RecordedAll(c, k, times)
         == if n + |times| < c.maxAttempts then k.(failures := Some(Counter(n + |times|, None)))
            else Keys(None, Some(times[|times| - 1] + 1000 * c.lockoutSeconds))
    decreases |times|
  {
    if |times| > 1 {
      LaterFailuresFill(c, Recorded(c, k, times[0]), n + 1, times[1..]);
    } else {
      assert times[1..] == [];
    }
  }

  // -------------------------------------------------------------- the class

  /** What the sign-in endpoint returned: an API error's status code, or anything else. */
  datatype Returned = Fine | ApiError(status: nat)

  const UNAUTHORIZED: nat := 401

  datatype Answer = Through(returned: Returned) | TooManyRequests(retryAfter: nat)

  /** The throttle over its store; `digest` hashes an address, trimmed and in lower case. */
  class LoginThrottleStore {
    const settings: Settings
    const digest: Text -> Text
    var failures: map<Text, Counter>
    var locks: map<Text, int>

    constructor (settings: Settings, digest: Text -> Text)
      ensures this.settings == settings && this.digest == digest
      ensures forall email :: KeysOf(email) == NO_KEYS
    {
      this.settings, this.digest := settings, digest;
      failures, locks := map[], map[];
    }

    function KeysOf(email: Text): Keys
      reads this
    {
      var key := digest(email);
      Keys(if key in failures then Some(failures[key]) else None, if key in locks then Some(locks[key]) else None)
    }

    twostate predicate OthersUnchanged(email: Text)
      reads this
    {
      forall other | digest(other) != digest(email) :: KeysOf(other) == old(KeysOf(other))
    }

    method LockedForSeconds(email: Text, now: int) returns (seconds: nat)
      ensures seconds == LockedFor(KeysOf(email), now)
    {
      var ttl := Ttl(KeysOf(email), now);
      return if ttl > 0 then ttl else 0;
    }

    method RecordFailure(email: Text, now: int)
      modifies this
      ensures KeysOf(email) == Recorded(settings, old(KeysOf(email)), now)
      ensures OthersUnchanged(email)
    {
      var hash := digest(email);
      var counter := if hash in failures && CounterLives(Some(failures[hash]), now) then
        failures[hash].(count := failures[hash].count + 1) else Counter(1, None);
      failures := failures[hash := counter];
      var count := counter.count;
      if count == 1 && CounterLives(Some(failures[hash]), now) {
        failures := failures[hash := failures[hash].(expiresAt := Some(now + 1000 * settings.lockoutSeconds))];
      }
      if count >= settings.maxAttempts {
        locks := locks[hash := now + 1000 * settings.lockoutSeconds];
        failures := failures - {hash};
      }
    }

    method Clear(email: Text)
      modifies this
      ensures KeysOf(email) == DelFailures(old(KeysOf(email)))
      ensures OthersUnchanged(email)
    {
      failures := failures - {digest(email)};
    }

    /**
     * The hooks around the sign-in endpoint, which is not even asked for a locked address. A
     * body without an email, or with an empty one, passes by the throttle.
     */
    method SignIn(email: Option<Text>, returned: Returned, now: int) returns (answer: Answer)
      modifies this
      ensures email.None? || email.value == [] ==>
                answer == Through(returned) && failures == old(failures) && locks == old(locks)
      ensures email.Some? && email.value != [] ==>
                var wait := LockedFor(old(KeysOf(email.value)), now);
                && OthersUnchanged(email.value)
                && answer == (if wait > 0 then TooManyRequests(wait) else Through(returned))
                && KeysOf(email.value)
                   == (if wait > 0 then old(KeysOf(email.value))
                       else if returned == Fine then After(settings, old(KeysOf(email.value)), Attempt(now, Success))
                       else if returned == ApiError(401) then After(settings, old(KeysOf(email.value)), Attempt(now, Failure))
                       else old(KeysOf(email.value)))
    {
      if email.None? || email.value == [] {
        return Through(returned);
      }
      var lockedFor := LockedForSeconds(email.value, now);
      if lockedFor > 0 {
        return TooManyRequests(lockedFor);
      }
      match returned {
        case Fine => Clear(email.value);
        case ApiError(status) =>
          if status == UNAUTHORIZED {
            RecordFailure(email.value, now);
          }
      }
      return Through(returned);
    }
  }
}
