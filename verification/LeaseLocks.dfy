/** Lease locks under a clock that never goes back, with a cleaner running beside the requests. */
module LeaseLocks {

  datatype LockEntry = LockEntry(holder: string, expiresAt: nat)
  type Locks = map<string, LockEntry>

  datatype Acquired = Granted(expiresAt: nat) | Denied(holder: string)

  // ---- what each operation answers and leaves behind ----

  predicate Blocks(locks: Locks, path: string, requester: string, now: nat) {
    path in locks && locks[path].expiresAt > now && locks[path].holder != requester
  }

  function AnswerAcquire(locks: Locks, path: string, requester: string, ttl: nat, now: nat): Acquired {
    if Blocks(locks, path, requester, now) then Denied(locks[path].holder) else Granted(now + ttl)
  }

  predicate HeldBy(locks: Locks, path: string, requester: string) {
    path in locks && locks[path].holder == requester
  }

  datatype Op =
    | Acquire(path: string, requester: string, ttl: nat)
    | Renew(path: string, requester: string, ttl: nat)
    | Release(path: string, requester: string)
    | Cleanup(asOf: nat) // the cleaner reads the clock before it waits for the lock

  function After(locks: Locks, op: Op, now: nat): Locks {
    match op
    case Acquire(p, r, ttl) => if Blocks(locks, p, r, now) then locks else locks[p := LockEntry(r, now + ttl)]
    case Renew(p, r, ttl) => if HeldBy(locks, p, r) then locks[p := LockEntry(r, now + ttl)] else locks
    case Release(p, r) => if HeldBy(locks, p, r) then locks - {p} else locks
    case Cleanup(asOf) => map p | p in locks && locks[p].expiresAt > asOf :: locks[p]
  }

  datatype Answer = Lease(granted: Acquired) | Done(ok: bool)

  function AnswerOf(locks: Locks, op: Op, now: nat): Answer {
    match op
    case Acquire(p, r, ttl) => Lease(AnswerAcquire(locks, p, r, ttl, now))
    case Renew(p, r, _) => Done(HeldBy(locks, p, r))
    case Release(p, r) => Done(HeldBy(locks, p, r))
    case Cleanup(_) => Done(true)
  }

  class LockRegistry {
    var locks: Locks

    constructor ()
      ensures locks == map[]
    {
      locks := map[];
    }

    method TryAcquire(path: string, requester: string, ttl: nat, now: nat) returns (r: Acquired)
      modifies this
      ensures r == AnswerAcquire(old(locks), path, requester, ttl, now)
      ensures locks == After(old(locks), Acquire(path, requester, ttl), now)
    {
      if path in locks {
        var e := locks[path];
        if e.expiresAt > now && e.holder != requester { return Denied(e.holder); }
      }
      var expiresAt := now + ttl;
      locks := locks[path := LockEntry(requester, expiresAt)];
      return Granted(expiresAt);
    }

    method TryRenew(path: string, requester: string, ttl: nat, now: nat) returns (ok: bool)
      modifies this
      ensures ok == HeldBy(old(locks), path, requester)
      ensures locks == After(old(locks), Renew(path, requester, ttl), now)
    {
      ok := path in locks && locks[path].holder == requester;
      if ok { locks := locks[path := locks[path].(expiresAt := now + ttl)]; }
    }

    method TryRelease(path: string, requester: string) returns (ok: bool)
      modifies this
      ensures ok == HeldBy(old(locks), path, requester)
      ensures locks == After(old(locks), Release(path, requester), 0)
    {
      ok := path in locks && locks[path].holder == requester;
      if ok { locks := locks - {path}; }
    }

    /** One tick of the cleaner. */
    method CleanupTick(asOf: nat)
      modifies this
      ensures locks == After(old(locks), Cleanup(asOf), asOf)
    {
      locks := map p | p in locks && locks[p].expiresAt > asOf :: locks[p];
    }

    /** A timed run of requests and ticks, and the answers to its acquires. */
    method Replay(run: seq<Event>) returns (answers: seq<Acquired>)
      modifies this
      ensures locks == AfterRun(old(locks), run) && answers == Acquires(old(locks), run)
    {
      answers := [];
      var i := 0;
      while i < |run|
        invariant i <= |run|
        invariant AfterRun(old(locks), run) == AfterRun(locks, run[i..])
        invariant Acquires(old(locks), run) == answers + Acquires(locks, run[i..])
      {
        assert run[i..][1..] == run[i + 1..];
        var e := run[i];
        match e.op {
          case Acquire(path, requester, ttl) =>
            var r := TryAcquire(path, requester, ttl, e.now);
            answers := answers + [r];
          case Renew(path, requester, ttl) =>
            var _ := TryRenew(path, requester, ttl, e.now);
          case Release(path, requester) =>
            var _ := TryRelease(path, requester);
          case Cleanup(asOf) =>
            CleanupTick(asOf);
        }
        i := i + 1;
      }
    }
  }

  // ---- timed runs ----

  datatype Event = Event(op: Op, now: nat)

  /** The clock never goes back, and a cleaner's reading is never ahead of it. */
  predicate Timed(run: seq<Event>, from: nat) {
    run == [] || (run[0].now >= from && (run[0].op.Cleanup? ==> run[0].op.asOf <= run[0].now) && Timed(run[1..], run[0].now))
  }

  function AfterRun(locks: Locks, run: seq<Event>): Locks
    decreases |run|
  {
    if run == [] then locks else AfterRun(After(locks, run[0].op, run[0].now), run[1..])
  }

  function EndOf(run: seq<Event>, from: nat): nat { if run == [] then from else EndOf(run[1..], run[0].now) }

  // ---- exclusion, as the requesters themselves see it ----

  /** What each requester believes it holds, from the answers alone: path and requester to expiry. */
  type Beliefs = map<(string, string), nat>

  function Believe(b: Beliefs, op: Op, answer: Answer, now: nat): Beliefs {
    match op
    case Acquire(p, r, _) =>
      if answer.Lease? && answer.granted.Granted? then b[(p, r) := answer.granted.expiresAt] else b
    case Renew(p, r, ttl) => if answer == Done(true) then b[(p, r) := now + ttl] else b
    case Release(p, r) => if answer == Done(true) then b - {(p, r)} else b
    case Cleanup(_) => b
  }

  function BeliefsAfter(locks: Locks, b: Beliefs, run: seq<Event>): Beliefs
    decreases |run|
  {
    if run == [] then b
    else
      var e := run[0];
      BeliefsAfter(After(locks, e.op, e.now), Believe(b, e.op, AnswerOf(locks, e.op, e.now), e.now), run[1..])
  }

  predicate Holds(b: Beliefs, path: string, requester: string, now: nat) {
    (path, requester) in b && b[(path, requester)] > now
  }

  /** A lease somebody still believes in is the one on record. */
  ghost predicate Recorded(locks: Locks, b: Beliefs, now: nat) {
    forall p, r | Holds(b, p, r, now) :: p in locks && locks[p] == LockEntry(r, b[(p, r)])
  }

  lemma StepRecorded(locks: Locks, b: Beliefs, op: Op, from: nat, now: nat)
    requires Recorded(locks, b, from) && from <= now && (op.Cleanup? ==> op.asOf <= now)
    ensures Recorded(After(locks, op, now), Believe(b, op, AnswerOf(locks, op, now), now), now)
  {
    assert forall p, r | Holds(b, p, r, now) :: Holds(b, p, r, from);
  }

  lemma {:induction false} RunRecorded(locks: Locks, b: Beliefs, run: seq<Event>, from: nat)
    requires Recorded(locks, b, from) && Timed(run, from)
    ensures Recorded(AfterRun(locks, run), BeliefsAfter(locks, b, run), EndOf(run, from))
    decreases |run|
  {
    if run != [] {
      var e := run[0];
      StepRecorded(locks, b, e.op, from, e.now);
      RunRecorded(After(locks, e.op, e.now), Believe(b, e.op, AnswerOf(locks, e.op, e.now), e.now), run[1..], e.now);
    }
  }

  /**
   * Exclusion: after any timed run of acquires, renewals (late ones too), releases and cleanups, and
   * at any later moment before the next event, two requesters never both hold one path.
   */
  lemma NeverTwoHolders(run: seq<Event>, later: nat, path: string, r1: string, r2: string)
    requires Timed(run, 0) && later >= EndOf(run, 0)
    requires var b := BeliefsAfter(map[], map[], run); Holds(b, path, r1, later) && Holds(b, path, r2, later)
    ensures r1 == r2
  {
    RunRecorded(map[], map[], run, 0);
    var b := BeliefsAfter(map[], map[], run);
    assert Holds(b, path, r1, EndOf(run, 0)) && Holds(b, path, r2, EndOf(run, 0));
  }

  // ---- the cleaner does not show ----

  /**
   * Every renewal that would extend a lease comes while that lease, as the registry without a cleaner has it,
   * is alive.
   */
  ghost predicate RenewalsInTime(locks: Locks, run: seq<Event>)
    decreases |run|
  {
    run == [] ||
    var e := run[0];
    && !LateRenewal(locks, e)
    && RenewalsInTime(if e.op.Cleanup? then locks else After(locks, e.op, e.now), run[1..])
  }

  predicate LateRenewal(locks: Locks, e: Event) {
    e.op.Renew? && HeldBy(locks, e.op.path, e.op.requester) && locks[e.op.path].expiresAt <= e.now && e.op.ttl > 0
  }

  function Acquires(locks: Locks, run: seq<Event>): seq<Acquired>
    decreases |run|
  {
    if run == [] then []
    else
      var e := run[0];
      (if e.op.Acquire? then [AnswerAcquire(locks, e.op.path, e.op.requester, e.op.ttl, e.now)] else [])
      + Acquires(After(locks, e.op, e.now), run[1..])
  }

  function WithoutCleaner(run: seq<Event>): seq<Event> {
    if run == [] then []
    else if run[0].op.Cleanup? then WithoutCleaner(run[1..])
    else [run[0]] + WithoutCleaner(run[1..])
  }

  /** `swept` is `full` with some expired entries gone. */
  ghost predicate Swept(swept: Locks, full: Locks, now: nat) {
    && (forall p | p in swept :: p in full && swept[p] == full[p])
    && (forall p | p in full && full[p].expiresAt > now :: p in swept)
  }

  lemma SweptStep(swept: Locks, full: Locks, op: Op, from: nat, now: nat)
    requires Swept(swept, full, from) && from <= now && !op.Cleanup?
    requires !LateRenewal(full, Event(op, now))
    ensures Swept(After(swept, op, now), After(full, op, now), now)
    ensures op.Acquire? ==> AnswerOf(swept, op, now) == AnswerOf(full, op, now)
  {
  }

  lemma SweptCleanup(swept: Locks, full: Locks, asOf: nat, from: nat, now: nat)
    requires Swept(swept, full, from) && from <= now && asOf <= now
    ensures Swept(After(swept, Cleanup(asOf), now), full, now)
  {
  }

  /**
   * When renewals come in time, the cleaner is invisible: interleaved anywhere, even with stale clock
   * readings, it changes no answer to any acquire.
   */
  lemma {:induction false} CleanerInvisible(swept: Locks, full: Locks, run: seq<Event>, from: nat)
    requires Swept(swept, full, from) && Timed(run, from) && RenewalsInTime(full, run)
    ensures Acquires(swept, run) == Acquires(full, WithoutCleaner(run))
    decreases |run|
  {
    if run != [] {
      var e := run[0];
      if e.op.Cleanup? {
        SweptCleanup(swept, full, e.op.asOf, from, e.now);
        CleanerInvisible(After(swept, e.op, e.now), full, run[1..], e.now);
      } else {
        SweptStep(swept, full, e.op, from, e.now);
        CleanerInvisible(After(swept, e.op, e.now), After(full, e.op, e.now), run[1..], e.now);
      }
    }
  }

  lemma {:induction false} AfterConcat(locks: Locks, a: seq<Event>, b: seq<Event>)
    ensures AfterRun(locks, a + b) == AfterRun(AfterRun(locks, a), b)
    decreases |a|
  {
    if a == [] {
      assert a + b == b;
    } else {
      assert (a + b)[0] == a[0] && (a + b)[1..] == a[1..] + b;
      AfterConcat(After(locks, a[0].op, a[0].now), a[1..], b);
    }
  }

  lemma {:induction false} AcquiresConcat(locks: Locks, a: seq<Event>, b: seq<Event>)
    ensures Acquires(locks, a + b) == Acquires(locks, a) + Acquires(AfterRun(locks, a), b)
    decreases |a|
  {
    if a == [] {
      assert a + b == b;
    } else {
      var next := After(locks, a[0].op, a[0].now);
      assert (a + b)[0] == a[0] && (a + b)[1..] == a[1..] + b;
      AcquiresConcat(next, a[1..], b);
      var first := if a[0].op.Acquire? then [AnswerAcquire(locks, a[0].op.path, a[0].op.requester, a[0].op.ttl, a[0].now)] else [];
      assert Acquires(locks, a + b) == first + Acquires(next, a[1..] + b);
      assert Acquires(locks, a) == first + Acquires(next, a[1..]);
    }
  }

  lemma OneEvent(locks: Locks, e: Event)
    ensures AfterRun(locks, [e]) == After(locks, e.op, e.now)
    ensures Acquires(locks, [e]) ==
            if e.op.Acquire? then [AnswerAcquire(locks, e.op.path, e.op.requester, e.op.ttl, e.now)] else []
  {
    assert [e][1..] == [];
  }

  // ---- an acquire is refused exactly because of a lease somebody holds ----

  /** A live lease on record is one its holder believes in. */
  ghost predicate Believed(locks: Locks, b: Beliefs, now: nat) {
    forall p | p in locks && locks[p].expiresAt > now ::
      (p, locks[p].holder) in b && b[(p, locks[p].holder)] == locks[p].expiresAt
  }

  lemma StepBelieved(locks: Locks, b: Beliefs, op: Op, from: nat, now: nat)
    requires Believed(locks, b, from) && from <= now
    ensures Believed(After(locks, op, now), Believe(b, op, AnswerOf(locks, op, now), now), now)
  {
  }

  lemma {:induction false} RunBelieved(locks: Locks, b: Beliefs, run: seq<Event>, from: nat)
    requires Believed(locks, b, from) && Timed(run, from)
    ensures Believed(AfterRun(locks, run), BeliefsAfter(locks, b, run), EndOf(run, from))
    decreases |run|
  {
    if run != [] {
      var e := run[0];
      StepBelieved(locks, b, e.op, from, e.now);
      RunBelieved(After(locks, e.op, e.now), Believe(b, e.op, AnswerOf(locks, e.op, e.now), e.now), run[1..], e.now);
    }
  }

  /**
   * After any timed run an acquire is denied, in the name of `h`, exactly when `h` is somebody else who holds the
   * path at that moment; otherwise it is granted for its whole time to live.
   */
  lemma DeniedIffHeld(run: seq<Event>, path: string, requester: string, ttl: nat, now: nat)
    requires Timed(run, 0) && now >= EndOf(run, 0)
    ensures var b, a := BeliefsAfter(map[], map[], run), AnswerAcquire(AfterRun(map[], run), path, requester, ttl, now);
            && (forall h :: a == Denied(h) <==> h != requester && Holds(b, path, h, now))
            && (a.Granted? ==> a == Granted(now + ttl))
  {
    RunRecorded(map[], map[], run, 0);
    RunBelieved(map[], map[], run, 0);
    var b, end := BeliefsAfter(map[], map[], run), EndOf(run, 0);
    assert forall h | Holds(b, path, h, now) :: Holds(b, path, h, end);
  }

  /** Whoever gives back a lease it holds frees the path: the next acquire, by anyone, is granted. */
  lemma ReleaseFrees(run: seq<Event>, path: string, holder: string, freed: nat, next: string, ttl: nat, now: nat)
    requires Timed(run, 0) && EndOf(run, 0) <= freed <= now
    requires Holds(BeliefsAfter(map[], map[], run), path, holder, freed)
    ensures var release, acquire := Event(Release(path, holder), freed), Event(Acquire(path, next, ttl), now);
            Acquires(map[], run + ([release] + [acquire])) == Acquires(map[], run) + [Granted(now + ttl)]
  {
    var release, acquire := Event(Release(path, holder), freed), Event(Acquire(path, next, ttl), now);
    RunRecorded(map[], map[], run, 0);
    assert Holds(BeliefsAfter(map[], map[], run), path, holder, EndOf(run, 0));
    var locks := AfterRun(map[], run);
    AcquiresConcat(map[], run, [release] + [acquire]);
    AcquiresConcat(locks, [release], [acquire]);
    OneEvent(locks, release);
    OneEvent(After(locks, release.op, freed), acquire);
  }

  /**
   * A grant, and the next acquire of that path: denied to others until the lease ends, granted from then on,
   * and granted to the holder itself at any time.
   */
  lemma GrantThenAcquire(locks: Locks, first: Event, second: Event)
    requires first.op.Acquire? && second.op.Acquire? && second.op.path == first.op.path
    requires AnswerAcquire(locks, first.op.path, first.op.requester, first.op.ttl, first.now).Granted?
    ensures Acquires(locks, [first] + [second]) ==
            [Granted(first.now + first.op.ttl)] +
            [if second.op.requester != first.op.requester && second.now < first.now + first.op.ttl then
               Denied(first.op.requester)
             else
               Granted(second.now + second.op.ttl)]
  {
    AcquiresConcat(locks, [first], [second]);
    OneEvent(locks, first);
    OneEvent(After(locks, first.op, first.now), second);
  }

  /**
   * Any lease renewed after it expired is revived or not depending on whether the cleaner came by in between,
   * and the next requester can tell.
   */
  lemma LateRenewalShows(locks: Locks, late: Event, asOf: nat, other: string)
    requires LateRenewal(locks, late) && locks[late.op.path].expiresAt <= asOf <= late.now && other != late.op.requester
    ensures var acquire := Event(Acquire(late.op.path, other, late.op.ttl), late.now);
            && Acquires(locks, [Event(Cleanup(asOf), late.now)] + [late] + [acquire]) == [Granted(late.now + late.op.ttl)]
            && Acquires(locks, [late] + [acquire]) == [Denied(late.op.requester)]
  {
    var clean, acquire := Event(Cleanup(asOf), late.now), Event(Acquire(late.op.path, other, late.op.ttl), late.now);
    var swept := After(locks, clean.op, late.now);
    AcquiresConcat(locks, [clean] + [late], [acquire]);
    AcquiresConcat(locks, [clean], [late]);
    AfterConcat(locks, [clean], [late]);
    AcquiresConcat(locks, [late], [acquire]);
    OneEvent(locks, clean);
    OneEvent(swept, late);
    OneEvent(locks, late);
    OneEvent(After(swept, late.op, late.now), acquire);
    OneEvent(After(locks, late.op, late.now), acquire);
  }

  // ---- exactly when the cleaner does not show ----

  predicate NoCleaner(run: seq<Event>) { forall e | e in run :: !e.op.Cleanup? }

  predicate OnlyAcquires(run: seq<Event>) { forall e | e in run :: e.op.Acquire? }

  /**
   * However cleanups are put into any beginning of the run, and whatever acquires follow, no acquire is
   * answered otherwise than without the cleanups.
   */
  ghost predicate CleanerNeverShows(run: seq<Event>) {
    forall n: nat, more: seq<Event>, swept: seq<Event> ::
      n <= |run| && OnlyAcquires(more) && Timed(swept, 0) && WithoutCleaner(swept) == run[..n] + more ==>
      Acquires(map[], swept) == Acquires(map[], run[..n] + more)
  }

  lemma {:induction false} InTimeConcat(locks: Locks, a: seq<Event>, b: seq<Event>)
    requires NoCleaner(a) && OnlyAcquires(b)
    ensures RenewalsInTime(locks, a + b) <==> RenewalsInTime(locks, a)
    decreases |a| + |b|
  {
    if a == [] {
      assert a + b == b;
      if b != [] {
        assert b[0] in b && forall e | e in b[1..] :: e in b;
        assert [] + b[1..] == b[1..];
        InTimeConcat(After(locks, b[0].op, b[0].now), [], b[1..]);
      }
    } else {
      assert (a + b)[1..] == a[1..] + b;
      assert a[0] in a && forall e | e in a[1..] :: e in a;
      InTimeConcat(After(locks, a[0].op, a[0].now), a[1..], b);
    }
  }

  lemma {:induction false} InTimePrefix(locks: Locks, run: seq<Event>, n: nat)
    requires RenewalsInTime(locks, run) && NoCleaner(run) && n <= |run|
    ensures RenewalsInTime(locks, run[..n])
    decreases n
  {
    if n > 0 {
      assert run[..n][1..] == run[1..][..n - 1];
      assert run[0] in run && forall e | e in run[1..] :: e in run;
      InTimePrefix(After(locks, run[0].op, run[0].now), run[1..], n - 1);
    }
  }

  /** A run with a renewal out of time has a first one. */
  lemma {:induction false} FirstLate(locks: Locks, run: seq<Event>) returns (n: nat)
    requires !RenewalsInTime(locks, run) && NoCleaner(run)
    ensures n < |run| && LateRenewal(AfterRun(locks, run[..n]), run[n])
    decreases |run|
  {
    if LateRenewal(locks, run[0]) {
      n := 0;
    } else {
      assert run[0] in run && forall e | e in run[1..] :: e in run;
      var m := FirstLate(After(locks, run[0].op, run[0].now), run[1..]);
      n := m + 1;
      assert run[..n][1..] == run[1..][..m];
    }
  }

  lemma {:induction false} WithoutConcat(a: seq<Event>, b: seq<Event>)
    requires NoCleaner(a)
    ensures WithoutCleaner(a + b) == a + WithoutCleaner(b)
    decreases |a|
  {
    if a == [] {
      assert a + b == b;
    } else {
      assert (a + b)[1..] == a[1..] + b;
      assert a[0] in a && forall e | e in a[1..] :: e in a;
      WithoutConcat(a[1..], b);
    }
  }

  lemma {:induction false} TimedPrefix(run: seq<Event>, from: nat, n: nat)
    requires Timed(run, from) && n < |run|
    ensures Timed(run[..n], from) && EndOf(run[..n], from) <= run[n].now
    decreases n
  {
    if n > 0 {
      assert run[..n][1..] == run[1..][..n - 1];
      TimedPrefix(run[1..], run[0].now, n - 1);
    }
  }

  lemma {:induction false} TimedConcat(a: seq<Event>, b: seq<Event>, from: nat)
    requires Timed(a, from) && Timed(b, EndOf(a, from))
    ensures Timed(a + b, from)
    decreases |a|
  {
    if a == [] {
      assert a + b == b;
    } else {
      assert (a + b)[1..] == a[1..] + b;
      TimedConcat(a[1..], b, a[0].now);
    }
  }

  /** A late renewal, a cleanup put before it and an acquire put after it. */
  lemma LateShowsInRun(run: seq<Event>)
    requires Timed(run, 0) && NoCleaner(run) && !RenewalsInTime(map[], run)
    ensures !CleanerNeverShows(run)
  {
    var n := FirstLate(map[], run);
    var pre, late := run[..n], run[n];
    var other := late.op.requester + "!";
    var clean, acquire := Event(Cleanup(late.now), late.now), Event(Acquire(late.op.path, other, late.op.ttl), late.now);
    var swept := pre + ([clean] + [late] + [acquire]);
    AnswersDiffer(map[], pre, clean, late, acquire);
    CleanupFits(run, n, clean, acquire);
    assert run[..n + 1] + [acquire] == pre + ([late] + [acquire]);
    assert Acquires(map[], swept) != Acquires(map[], run[..n + 1] + [acquire]);
    assert OnlyAcquires([acquire]);
  }

  lemma CleanupFits(run: seq<Event>, n: nat, clean: Event, acquire: Event)
    requires Timed(run, 0) && NoCleaner(run) && n < |run|
    requires clean.op.Cleanup? && clean.op.asOf == clean.now == run[n].now == acquire.now && acquire.op.Acquire?
    ensures var swept := run[..n] + ([clean] + [run[n]] + [acquire]);
            Timed(swept, 0) && WithoutCleaner(swept) == run[..n] + ([run[n]] + [acquire])
  {
    assert forall e | e in run[..n] :: e in run;
    assert run[n] in run;
    WithoutConcat(run[..n], [clean] + [run[n]] + [acquire]);
    WithoutThree(clean, run[n], acquire);
    TimedPrefix(run, 0, n);
    TimedThree(clean, run[n], acquire, EndOf(run[..n], 0));
    TimedConcat(run[..n], [clean] + [run[n]] + [acquire], 0);
  }

  lemma AnswersDiffer(locks: Locks, pre: seq<Event>, clean: Event, late: Event, acquire: Event)
    requires var now := AfterRun(locks, pre);
             && LateRenewal(now, late) && clean == Event(Cleanup(late.now), late.now) && acquire.op.Acquire?
             && acquire.op.requester != late.op.requester
             && acquire == Event(Acquire(late.op.path, acquire.op.requester, late.op.ttl), late.now)
    ensures Acquires(locks, pre + ([clean] + [late] + [acquire])) != Acquires(locks, pre + ([late] + [acquire]))
  {
    LateRenewalShows(AfterRun(locks, pre), late, late.now, acquire.op.requester);
    AcquiresConcat(locks, pre, [clean] + [late] + [acquire]);
    AcquiresConcat(locks, pre, [late] + [acquire]);
    var a, x, y := Acquires(locks, pre), [Granted(late.now + late.op.ttl)], [Denied(late.op.requester)];
    assert (a + x)[|a|] != (a + y)[|a|];
  }

  lemma WithoutThree(a: Event, b: Event, c: Event)
    requires a.op.Cleanup? && !b.op.Cleanup? && !c.op.Cleanup?
    ensures WithoutCleaner([a] + [b] + [c]) == [b] + [c]
  {
    assert ([a] + [b] + [c])[1..] == [b] + [c] && ([b] + [c])[1..] == [c] && [c][1..] == [];
    assert WithoutCleaner([c]) == [c];
    assert WithoutCleaner([b] + [c]) == [b] + WithoutCleaner([c]);
  }

  lemma TimedThree(a: Event, b: Event, c: Event, from: nat)
    requires from <= a.now <= b.now <= c.now && !b.op.Cleanup? && !c.op.Cleanup? && (a.op.Cleanup? ==> a.op.asOf <= a.now)
    ensures Timed([a] + [b] + [c], from)
  {
    assert ([a] + [b] + [c])[1..] == [b] + [c] && ([b] + [c])[1..] == [c] && [c][1..] == [];
    assert Timed([c], b.now);
    assert Timed([b] + [c], a.now);
  }

  /** The cleaner never shows in a run exactly when all its renewals come in time. */
  lemma CleanerInvisibleIff(run: seq<Event>)
    requires Timed(run, 0) && NoCleaner(run)
    ensures CleanerNeverShows(run) <==> RenewalsInTime(map[], run)
  {
    if RenewalsInTime(map[], run) {
      forall n: nat, more: seq<Event>, swept: seq<Event>
        | n <= |run| && OnlyAcquires(more) && Timed(swept, 0) && WithoutCleaner(swept) == run[..n] + more
        ensures Acquires(map[], swept) == Acquires(map[], run[..n] + more)
      {
        InTimePrefix(map[], run, n);
        assert forall e | e in run[..n] :: e in run;
        InTimeConcat(map[], run[..n], more);
        InTimeWithoutCleaner(map[], swept);
        CleanerInvisible(map[], map[], swept, 0);
      }
    } else {
      LateShowsInRun(run);
    }
  }

  lemma {:induction false} InTimeWithoutCleaner(locks: Locks, run: seq<Event>)
    ensures RenewalsInTime(locks, WithoutCleaner(run)) <==> RenewalsInTime(locks, run)
    decreases |run|
  {
    if run != [] {
      InTimeWithoutCleaner(if run[0].op.Cleanup? then locks else After(locks, run[0].op, run[0].now), run[1..]);
      if !run[0].op.Cleanup? {
        assert WithoutCleaner(run)[1..] == WithoutCleaner(run[1..]);
      }
    }
  }
}
