/** Leases as a session reports them: every renewal is answered as granted, whatever the registry says. */
module LeaseWire {
  import opened LeaseLocks

  /** What the requesters believe from the frames they get; a release gets none. */
  function WireBelieve(b: Beliefs, op: Op, answer: Answer, now: nat): Beliefs {
    match op
    case Renew(p, r, ttl) => b[(p, r) := now + ttl]
    case Release(p, r) => b - {(p, r)}
    case _ => Believe(b, op, answer, now)
  }

  function WireAfter(locks: Locks, b: Beliefs, run: seq<Event>): Beliefs
    decreases |run|
  {
    if run == [] then b
    else
      var e := run[0];
      WireAfter(After(locks, e.op, e.now), WireBelieve(b, e.op, AnswerOf(locks, e.op, e.now), e.now), run[1..])
  }

  /** A renewal that the registry refuses, and that would last. */
  predicate Refused(locks: Locks, e: Event) { e.op.Renew? && e.op.ttl > 0 && !HeldBy(locks, e.op.path, e.op.requester) }

  predicate NoneRefused(locks: Locks, run: seq<Event>)
    decreases |run|
  {
    run == [] || (!Refused(locks, run[0]) && NoneRefused(After(locks, run[0].op, run[0].now), run[1..]))
  }

  lemma StepWire(locks: Locks, b: Beliefs, e: Event, from: nat)
    requires Recorded(locks, b, from) && from <= e.now && (e.op.Cleanup? ==> e.op.asOf <= e.now) && !Refused(locks, e)
    ensures Recorded(After(locks, e.op, e.now), WireBelieve(b, e.op, AnswerOf(locks, e.op, e.now), e.now), e.now)
  {
    assert forall p, r | Holds(b, p, r, e.now) :: Holds(b, p, r, from);
  }

  lemma {:induction false} RunWire(locks: Locks, b: Beliefs, run: seq<Event>, from: nat)
    requires Recorded(locks, b, from) && Timed(run, from) && NoneRefused(locks, run)
    ensures Recorded(AfterRun(locks, run), WireAfter(locks, b, run), EndOf(run, from))
    decreases |run|
  {
    if run != [] {
      var e := run[0];
      StepWire(locks, b, e, from);
      RunWire(After(locks, e.op, e.now), WireBelieve(b, e.op, AnswerOf(locks, e.op, e.now), e.now), run[1..], e.now);
    }
  }

  predicate BothHold(b: Beliefs, path: string, r1: string, r2: string, now: nat) {
    Holds(b, path, r1, now) && Holds(b, path, r2, now)
  }

  /** At no moment from the last event on do two requesters both believe that they hold one path. */
  ghost predicate OneHolder(run: seq<Event>) {
    forall later: nat, p, r1, r2 ::
      BothHold(WireAfter(map[], map[], run), p, r1, r2, later) && later >= EndOf(run, 0) ==> r1 == r2
  }

  /** A beginning of the run can go on with these acquires. */
  predicate GoesOn(run: seq<Event>, n: nat, more: seq<Event>) {
    n <= |run| && OnlyAcquires(more) && Timed(run[..n] + more, 0)
  }

  /** Nor after any beginning of the run that goes on with whatever acquires. */
  ghost predicate Exclusive(run: seq<Event>) {
    forall n: nat, more: seq<Event> | GoesOn(run, n, more) :: OneHolder(run[..n] + more)
  }

  lemma HeldIsExclusive(run: seq<Event>)
    requires Timed(run, 0) && NoneRefused(map[], run)
    ensures OneHolder(run)
  {
    RunWire(map[], map[], run, 0);
    var b, end := WireAfter(map[], map[], run), EndOf(run, 0);
    assert forall later, p, r | later >= end && Holds(b, p, r, later) :: Holds(b, p, r, end);
  }

  lemma {:induction false} RefusedConcat(locks: Locks, a: seq<Event>, b: seq<Event>)
    requires OnlyAcquires(b) && NoneRefused(locks, a)
    ensures NoneRefused(locks, a + b)
    decreases |a| + |b|
  {
    if a == [] {
      assert a + b == b;
      if b != [] {
        assert b[0] in b && forall e | e in b[1..] :: e in b;
        assert [] + b[1..] == b[1..];
        RefusedConcat(After(locks, b[0].op, b[0].now), [], b[1..]);
      }
    } else {
      assert (a + b)[0] == a[0] && (a + b)[1..] == a[1..] + b;
      RefusedConcat(After(locks, a[0].op, a[0].now), a[1..], b);
    }
  }

  lemma {:induction false} RefusedPrefix(locks: Locks, run: seq<Event>, n: nat)
    requires NoneRefused(locks, run) && n <= |run|
    ensures NoneRefused(locks, run[..n])
    decreases n
  {
    if n > 0 {
      assert run[..n][1..] == run[1..][..n - 1];
      RefusedPrefix(After(locks, run[0].op, run[0].now), run[1..], n - 1);
    }
  }

  lemma {:induction false} FirstRefused(locks: Locks, run: seq<Event>) returns (n: nat)
    requires !NoneRefused(locks, run)
    ensures n < |run| && Refused(AfterRun(locks, run[..n]), run[n])
    decreases |run|
  {
    if Refused(locks, run[0]) {
      n := 0;
    } else {
      var m := FirstRefused(After(locks, run[0].op, run[0].now), run[1..]);
      n := m + 1;
      assert run[..n][1..] == run[1..][..m];
    }
  }

  lemma {:induction false} WireConcat(locks: Locks, b: Beliefs, x: seq<Event>, y: seq<Event>)
    ensures WireAfter(locks, b, x + y) == WireAfter(AfterRun(locks, x), WireAfter(locks, b, x), y)
    decreases |x|
  {
    if x == [] {
      assert x + y == y;
    } else {
      assert (x + y)[0] == x[0] && (x + y)[1..] == x[1..] + y;
      var e := x[0];
      WireConcat(After(locks, e.op, e.now), WireBelieve(b, e.op, AnswerOf(locks, e.op, e.now), e.now), x[1..], y);
    }
  }

  lemma WireTwo(locks: Locks, b: Beliefs, x: Event, y: Event)
    ensures var mid := WireBelieve(b, x.op, AnswerOf(locks, x.op, x.now), x.now);
            var next := After(locks, x.op, x.now);
            WireAfter(locks, b, [x] + [y]) == WireBelieve(mid, y.op, AnswerOf(next, y.op, y.now), y.now)
  {
    assert ([x] + [y])[1..] == [y];
    WireOne(After(locks, x.op, x.now), WireBelieve(b, x.op, AnswerOf(locks, x.op, x.now), x.now), y);
  }

  lemma WireOne(locks: Locks, b: Beliefs, e: Event)
    ensures WireAfter(locks, b, [e]) == WireBelieve(b, e.op, AnswerOf(locks, e.op, e.now), e.now)
  {
    assert [e][1..] == [];
  }

  /** Somebody else whom the registry would grant the path: the one on record, or anybody if there is none. */
  function Rival(locks: Locks, path: string, requester: string): string {
    if path in locks then locks[path].holder else requester + "!"
  }

  /** After a refused renewal the rival's acquire is granted, and both believe that they hold the path. */
  lemma RivalHolds(locks: Locks, b: Beliefs, late: Event)
    requires Refused(locks, late)
    ensures var p, r, other := late.op.path, late.op.requester, Rival(locks, late.op.path, late.op.requester);
            var w := WireAfter(locks, b, [late] + [Event(Acquire(p, other, late.op.ttl), late.now)]);
            other != r && BothHold(w, p, r, other, late.now)
  {
    WireTwo(locks, b, late, Event(Acquire(late.op.path, Rival(locks, late.op.path, late.op.requester), late.op.ttl), late.now));
  }

  lemma {:induction false} EndOfConcat(a: seq<Event>, b: seq<Event>, from: nat)
    ensures EndOf(a + b, from) == EndOf(b, EndOf(a, from))
    decreases |a|
  {
    if a == [] {
      assert a + b == b;
    } else {
      assert (a + b)[0] == a[0] && (a + b)[1..] == a[1..] + b;
      EndOfConcat(a[1..], b, a[0].now);
    }
  }

  lemma RefusedShows(run: seq<Event>, n: nat)
    requires Timed(run, 0) && n < |run| && Refused(AfterRun(map[], run[..n]), run[n])
    ensures !Exclusive(run)
  {
    var pre, late, locks := run[..n], run[n], AfterRun(map[], run[..n]);
    var acquire := Event(Acquire(late.op.path, Rival(locks, late.op.path, late.op.requester), late.op.ttl), late.now);
    var more := run[..n + 1] + [acquire];
    assert more == pre + ([late] + [acquire]);
    RivalFits(run, n, acquire);
    WireConcat(map[], map[], pre, [late] + [acquire]);
    RivalHolds(locks, WireAfter(map[], map[], pre), late);
    assert OnlyAcquires([acquire]) && GoesOn(run, n + 1, [acquire]) && !OneHolder(more);
  }

  lemma EndOfOne(e: Event, from: nat)
    ensures EndOf([e], from) == e.now
  {
    var none := [e][1..];
    assert none == [];
    assert EndOf([e], from) == EndOf(none, e.now);
  }

  lemma RivalFits(run: seq<Event>, n: nat, acquire: Event)
    requires Timed(run, 0) && n < |run| && run[n].op.Renew? && acquire.op.Acquire? && acquire.now == run[n].now
    ensures var all := run[..n] + ([run[n]] + [acquire]); Timed(all, 0) && EndOf(all, 0) == run[n].now
  {
    var two, end := [run[n]] + [acquire], EndOf(run[..n], 0);
    TimedPrefix(run, 0, n);
    assert two[1..] == [acquire] && [acquire][1..] == [];
    assert Timed([acquire], run[n].now);
    EndOfOne(acquire, run[n].now);
    TimedConcat(run[..n], two, 0);
    EndOfConcat(run[..n], two, 0);
  }

  /**
   * As the requesters are told, leases exclude each other over every beginning of a run, whatever acquires follow,
   * exactly when the registry refuses no renewal in the run.
   */
  lemma ExclusiveIff(run: seq<Event>)
    requires Timed(run, 0)
    ensures Exclusive(run) <==> NoneRefused(map[], run)
  {
    if NoneRefused(map[], run) {
      forall n: nat, more: seq<Event> | GoesOn(run, n, more)
        ensures OneHolder(run[..n] + more)
      {
        RefusedPrefix(map[], run, n);
        RefusedConcat(map[], run[..n], more);
        HeldIsExclusive(run[..n] + more);
      }
    } else {
      var n := FirstRefused(map[], run);
      RefusedShows(run, n);
    }
  }
}
