/** Closing the pool while it is in use: exactly when the promised bound can be broken afterwards. */
module PoolClosing {
  import opened Prelude
  import opened Pool

  predicate NoClose(steps: seq<Step>) {
    forall i :: 0 <= i < |steps| ==> !steps[i].CloseAll?
  }

  /** Some continuation without a further close has more live connections than the maximum. */
  ghost predicate CanOverfill(p: Pool) {
    exists steps :: NoClose(steps) && Legal(p, steps) && Live(Run(p, steps)) > p.max
  }

  // ---------- too few threads: the bound holds anyway ----------

  /** At most one client, idle or held, per thread. */
  predicate OnePerThread(p: Pool) {
    |p.queue| + Sum(p.threads, Claim) <= |p.threads|
  }

  lemma {:induction false} ClaimsPerThread(threads: seq<Thread>)
    ensures Sum(threads, HoldsClient) <= Sum(threads, Claim) <= |threads|
  {
    if threads == [] {
    } else {
      ClaimsPerThread(threads[1..]);
    }
  }

  lemma {:induction false} StepKeepsOnePerThread(p: Pool, step: Step)
    requires OnePerThread(p) && Enabled(p, step) && !step.CloseAll?
    ensures OnePerThread(Next(p, step)) && |Next(p, step).threads| == |p.threads|
  {
    var i, q := step.thread, Next(p, step);
    assert p.threads[i := p.threads[i]] == p.threads;
    SumUpdate(p.threads, i, q.threads[i], Claim);
    ClaimsPerThread(q.threads);
    hide Sum;
  }

  lemma {:induction false} RunKeepsOnePerThread(p: Pool, steps: seq<Step>)
    requires OnePerThread(p) && Legal(p, steps) && NoClose(steps)
    ensures Live(Run(p, steps)) <= |p.threads|
    decreases |steps|
  {
    if steps == [] {
      ClaimsPerThread(p.threads);
    } else {
      StepKeepsOnePerThread(p, steps[0]);
      hide OnePerThread, Live;
      RunKeepsOnePerThread(Next(p, steps[0]), steps[1..]);
    }
  }

  // ---------- enough threads: filling the pool beyond its maximum ----------

  lemma {:induction false} RunFirst(p: Pool, step: Step, rest: seq<Step>)
    requires Enabled(p, step) && !step.CloseAll? && Legal(Next(p, step), rest)
    ensures Legal(p, [step] + rest) && Run(p, [step] + rest) == Run(Next(p, step), rest)
  {
    assert ([step] + rest)[1..] == rest;
    hide Enabled, Next;
  }

  lemma {:induction false} RunBoth(p: Pool, a: seq<Step>, b: seq<Step>)
    requires Legal(p, a) && Legal(Run(p, a), b)
    ensures Legal(p, a + b) && Run(p, a + b) == Run(Run(p, a), b)
    decreases |a|
  {
    if a == [] {
      assert a + b == b;
    } else {
      assert (a + b)[0] == a[0] && (a + b)[1..] == a[1..] + b;
      hide Enabled, Next, Quiescent;
      RunBoth(Next(p, a[0]), a[1..], b);
    }
  }

  /** How many steps a thread is away from holding a client, if a permit is to be had. */
  function Distance(t: Thread): nat {
    match t
    case Offered => 4
    case Idle => 3
    case Permitted => 2
    case FoundNone => 1
    case _ => 0
  }

  /** The next step towards holding a client. */
  function Towards(t: Thread, i: nat): Step {
    match t
    case Offered => Release(i)
    case Idle => TryAcquire(i)
    case Permitted => Poll(i)
    case _ => Connect(i)
  }

  predicate Settled(p: Pool, i: nat)
    requires i < |p.threads|
  {
    HoldsClient(p.threads[i]) == 1 || (p.threads[i].Idle? && p.permits == 0)
  }

  /** What filling one thread leaves alone. */
  predicate Filled(p: Pool, q: Pool, i: nat) {
    && q.max == p.max && q.queue == [] && 0 <= q.permits && PermitsInPlay(q) == PermitsInPlay(p)
    && |q.threads| == |p.threads|
    && forall j :: 0 <= j < |p.threads| && j != i ==> q.threads[j] == p.threads[j]
  }

  lemma {:induction false} OneStepTowards(p: Pool, i: nat)
    requires i < |p.threads| && p.queue == [] && 0 <= p.permits && !Settled(p, i)
    ensures var step := Towards(p.threads[i], i);
      && Enabled(p, step) && !step.CloseAll?
      && Filled(p, Next(p, step), i)
      && Distance(Next(p, step).threads[i]) < Distance(p.threads[i])
      && Next(p, step).permits == p.permits
           + (if p.threads[i].Offered? then 1 else 0) - (if p.threads[i].Idle? then 1 else 0)
      && (Next(p, step).threads[i].Idle? <==> p.threads[i].Offered?)
  {
    var q := Next(p, Towards(p.threads[i], i));
    SumUpdate(p.threads, i, q.threads[i], HoldsPermit);
    hide Sum;
  }

  /** Thread `i` walks on until it holds a client or no permit is left; permits never grow by it. */
  lemma {:induction false} FillThread(p: Pool, i: nat) returns (steps: seq<Step>)
    requires i < |p.threads| && p.queue == [] && 0 <= p.permits
    ensures NoClose(steps) && Legal(p, steps)
    ensures Filled(p, Run(p, steps), i) && Settled(Run(p, steps), i)
    ensures Run(p, steps).permits == p.permits - (if p.threads[i].Idle? && p.permits > 0 then 1 else 0)
    decreases Distance(p.threads[i])
  {
    if Settled(p, i) {
      steps := [];
    } else {
      var step := Towards(p.threads[i], i);
      OneStepTowards(p, i);
      hide Sum, Enabled, Towards, Distance, HoldsClient;
      var rest := FillThread(Next(p, step), i);
      RunFirst(p, step, rest);
      steps := [step] + rest;
      hide Next, Run, Legal;
      assert NoClose(steps);
    }
  }

  /** The first `count` threads are filled one after the other. */
  lemma {:induction false} FillThreads(p: Pool, count: nat) returns (steps: seq<Step>)
    requires count <= |p.threads| && p.queue == [] && 0 <= p.permits
    ensures NoClose(steps) && Legal(p, steps)
    ensures var q := Run(p, steps);
      && q.max == p.max && q.queue == [] && 0 <= q.permits && PermitsInPlay(q) == PermitsInPlay(p)
      && |q.threads| == |p.threads|
      && forall j :: 0 <= j < count ==> Settled(q, j)
  {
    if count == 0 {
      steps := [];
    } else {
      var before := FillThreads(p, count - 1);
      var mid := Run(p, before);
      var last := FillThread(mid, count - 1);
      RunBoth(p, before, last);
      steps := before + last;
      var q := Run(p, steps);
      hide PermitsInPlay, Run, Legal, HoldsClient;
      forall j | 0 <= j < count ensures Settled(q, j) {
        assert j < count - 1 ==> Settled(mid, j);
      }
    }
  }

  /** When every thread is settled, each has a client, or every permit in play has one. */
  lemma {:induction false} SettledThreadsAreFull(threads: seq<Thread>)
    requires forall i :: 0 <= i < |threads| ==> HoldsClient(threads[i]) == 1 || threads[i].Idle?
    ensures Sum(threads, HoldsClient) == Sum(threads, HoldsPermit)
    ensures (forall i :: 0 <= i < |threads| ==> HoldsClient(threads[i]) == 1) ==> Sum(threads, HoldsClient) == |threads|
  {
    if threads == [] {
    } else {
      assert forall i :: 1 <= i < |threads| ==> threads[i] == threads[1..][i - 1];
      SettledThreadsAreFull(threads[1..]);
    }
  }

  lemma {:induction false} EnoughThreadsOverfill(p: Pool)
    requires p.queue == [] && 0 <= p.permits && PermitsInPlay(p) > p.max && |p.threads| > p.max
    ensures CanOverfill(p)
  {
    var steps := FillThreads(p, |p.threads|);
    var q := Run(p, steps);
    hide Run, Legal, CanOverfill;
    forall i | 0 <= i < |q.threads|
      ensures HoldsClient(q.threads[i]) == 1 || (q.threads[i].Idle? && q.permits == 0)
    {
      assert Settled(q, i);
    }
    SettledThreadsAreFull(q.threads);
    assert Live(q) > q.max;
    Witnessed(p, steps);
  }

  lemma Witnessed(p: Pool, steps: seq<Step>)
    requires NoClose(steps) && Legal(p, steps) && Live(Run(p, steps)) > p.max
    ensures CanOverfill(p)
  {
  }

  // ---------- the exact condition ----------

  lemma {:induction false} QuiescentCloseIsSafe(p: Pool)
    requires Inv(p) && Quiescent(p)
    ensures !CanOverfill(Next(p, CloseAll))
  {
    CloseKeepsInvExactly(p);
    var q := Next(p, CloseAll);
    forall steps | NoClose(steps) && Legal(q, steps)
      ensures Live(Run(q, steps)) <= q.max
    {
      RunKeepsInv(q, steps);
      ClaimsNeedPermits(Run(q, steps).threads);
    }
  }

  lemma {:induction false} FewThreadsAreSafe(p: Pool)
    requires OnePerThread(p) && |p.threads| <= p.max
    ensures !CanOverfill(p)
  {
    forall steps | NoClose(steps) && Legal(p, steps)
      ensures Live(Run(p, steps)) <= p.max
    {
      RunKeepsOnePerThread(p, steps);
    }
  }

  /** Right after any close the bound still stands, but it may be lost later: the pool can come to hold
      more live connections than its maximum if and only if some thread was between taking a permit and
      giving it back when it was closed, and there are more threads than the maximum. */
  lemma {:induction false} ClosingInUseBreaksTheBound(p: Pool)
    requires Inv(p)
    ensures Live(Next(p, CloseAll)) <= p.max
    ensures CanOverfill(Next(p, CloseAll)) <==> !Quiescent(p) && |p.threads| > p.max
  {
    var q := Next(p, CloseAll);
    ClaimsNeedPermits(p.threads);
    ClaimsPerThread(p.threads);
    SomePermitHeld(p.threads);
    if Quiescent(p) {
      QuiescentCloseIsSafe(p);
    } else if |p.threads| <= p.max {
      FewThreadsAreSafe(q);
    } else {
      EnoughThreadsOverfill(q);
    }
  }

  // ---------- the smallest case ----------

  const BORROW: seq<Step> := [TryAcquire(0), Poll(0), Connect(0), Increment(0)]
  const BORROW_AGAIN: seq<Step> := [TryAcquire(1), Poll(1), Connect(1)]

  /** One permit, two threads, the first holding the only client. */
  const BORROWED: Pool := Pool(1, 0, [], 1, [Holding(0), Idle], 0, 1)

  lemma {:induction false} FirstThreadBorrows()
    ensures Legal(Init(1, 2), BORROW) && Run(Init(1, 2), BORROW) == BORROWED
  {
    var p0 := Pool(1, 1, [], 0, [Idle, Idle], 0, 0);
    var p1 := Pool(1, 0, [], 0, [Permitted, Idle], 0, 0);
    var p2 := Pool(1, 0, [], 0, [FoundNone, Idle], 0, 0);
    var p3 := Pool(1, 0, [], 0, [Connected(0), Idle], 0, 1);
    assert Init(1, 2) == p0 && Next(p0, TryAcquire(0)) == p1 && Next(p1, Poll(0)) == p2;
    assert Next(p2, Connect(0)) == p3 && Next(p3, Increment(0)) == BORROWED;
    RunFirst(p3, Increment(0), []);
    RunFirst(p2, Connect(0), [Increment(0)]);
    RunFirst(p1, Poll(0), [Connect(0), Increment(0)]);
    RunFirst(p0, TryAcquire(0), [Poll(0), Connect(0), Increment(0)]);
    hide Next, Init;
    assert [Increment(0)] + [] == [Increment(0)] && [Connect(0)] + [Increment(0)] == [Connect(0), Increment(0)];
    assert [Poll(0)] + [Connect(0), Increment(0)] == [Poll(0), Connect(0), Increment(0)];
    assert [TryAcquire(0)] + [Poll(0), Connect(0), Increment(0)] == BORROW;
  }

  lemma {:induction false} SecondThreadConnects()
    ensures var closed := Next(BORROWED, CloseAll);
      Legal(closed, BORROW_AGAIN)
      && Run(closed, BORROW_AGAIN) == Pool(1, 0, [], 0, [Holding(0), Connected(1)], 0, 2)
  {
    var q0 := Pool(1, 1, [], 0, [Holding(0), Idle], 0, 1);
    var q1 := Pool(1, 0, [], 0, [Holding(0), Permitted], 0, 1);
    var q2 := Pool(1, 0, [], 0, [Holding(0), FoundNone], 0, 1);
    var q3 := Pool(1, 0, [], 0, [Holding(0), Connected(1)], 0, 2);
    assert Next(BORROWED, CloseAll) == q0 && Next(q0, TryAcquire(1)) == q1;
    assert Next(q1, Poll(1)) == q2 && Next(q2, Connect(1)) == q3;
    RunFirst(q2, Connect(1), []);
    RunFirst(q1, Poll(1), [Connect(1)]);
    RunFirst(q0, TryAcquire(1), [Poll(1), Connect(1)]);
    hide Next;
    assert [Connect(1)] + [] == [Connect(1)] && [Poll(1)] + [Connect(1)] == [Poll(1), Connect(1)];
    assert [TryAcquire(1)] + [Poll(1), Connect(1)] == BORROW_AGAIN;
  }

  /** A pool for one connection, closed while it is borrowed, then holds two live ones. */
  lemma {:induction false} TwoThreadsOnePermit()
    ensures Legal(Init(1, 2), BORROW)
    ensures var closed := Next(Run(Init(1, 2), BORROW), CloseAll);
      Legal(closed, BORROW_AGAIN) && Live(Run(closed, BORROW_AGAIN)) == 2
  {
    FirstThreadBorrows();
    SecondThreadConnects();
    var threads := [Holding(0), Connected(1)];
    assert threads[1..] == [Connected(1)] && threads[1..][1..] == [];
    hide Run, Legal, Next, Init;
    assert Sum(threads, HoldsClient) == 1 + Sum(threads[1..], HoldsClient) == 2;
  }
}
