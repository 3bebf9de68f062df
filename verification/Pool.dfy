/** The client connection pool: a semaphore, a queue of idle clients and a counter, used by any number
    of threads whose small steps interleave freely. Clients are identified by numbers. */
module Pool {
  import opened Prelude

  type ClientId = nat

  /** Where a thread stands between `getConnection` and the end of `returnConnection`. */
  datatype Thread =
    | Idle
    | Permitted                    // holds a permit, has not polled
    | FoundNone                    // polled null, must connect
    | Connected(client: ClientId)  // connected, counter not yet incremented
    | Holding(client: ClientId)    // the borrowed client is in use
    | Offered                      // client back in the queue, permit not yet released

  datatype Pool = Pool(
    max: nat,
    permits: int,
    queue: seq<ClientId>,
    active: int,
    threads: seq<Thread>,
    leaked: nat,
    nextId: ClientId)

  datatype Step =
    | TryAcquire(thread: nat)
    | Poll(thread: nat)
    | Connect(thread: nat)
    | ConnectFails(thread: nat)
    | Increment(thread: nat)
    | Offer(thread: nat)
    | Release(thread: nat)
    | CloseAll

  function Init(max: nat, threads: nat): Pool {
    Pool(max, max, [], 0, seq(threads, _ => Idle), 0, 0)
  }

  function WithThread(p: Pool, i: nat, t: Thread): Pool
    requires i < |p.threads|
  {
    p.(threads := p.threads[i := t])
  }

  predicate Enabled(p: Pool, step: Step) {
    match step
    case CloseAll => true
    case _ =>
      step.thread < |p.threads| &&
      var t := p.threads[step.thread];
      match step
      case TryAcquire(_) => t.Idle?
      case Poll(_) => t.Permitted?
      case Connect(_) => t.FoundNone?
      case ConnectFails(_) => t.FoundNone?
      case Increment(_) => t.Connected?
      case Offer(_) => t.Holding?
      case Release(_) => t.Offered?
  }

  /** One atomic step. A `tryAcquire` without permits times out and changes nothing; a failed
      connect ends the call with its permit still taken. Closing tops the semaphore up, except that a
      negative release is refused. */
  function Next(p: Pool, step: Step): Pool
    requires Enabled(p, step)
  {
    match step
    case TryAcquire(i) => if p.permits > 0 then WithThread(p, i, Permitted).(permits := p.permits - 1) else p
    case Poll(i) =>
      if p.queue == [] then WithThread(p, i, FoundNone)
      else WithThread(p, i, Holding(p.queue[0])).(queue := p.queue[1..])
    case Connect(i) => WithThread(p, i, Connected(p.nextId)).(nextId := p.nextId + 1)
    case ConnectFails(i) => WithThread(p, i, Idle).(leaked := p.leaked + 1)
    case Increment(i) => WithThread(p, i, Holding(p.threads[i].client)).(active := p.active + 1)
    case Offer(i) => WithThread(p, i, Offered).(queue := p.queue + [p.threads[i].client])
    case Release(i) => WithThread(p, i, Idle).(permits := p.permits + 1)
    case CloseAll =>
      var emptied := p.(queue := [], active := 0);
      if p.permits > p.max then emptied else emptied.(permits := p.max, leaked := 0)
  }

  // ---------- what threads hold ----------

  function HoldsPermit(t: Thread): int { if t.Idle? then 0 else 1 }

  /** A live client, or the right to open one: what counts against the bound. */
  function Claim(t: Thread): int { if t.FoundNone? || t.Connected? || t.Holding? then 1 else 0 }

  function HoldsClient(t: Thread): int { if t.Connected? || t.Holding? then 1 else 0 }

  function UsesClient(t: Thread): int { if t.Holding? then 1 else 0 }

  function Owns(c: ClientId): Thread -> int {
    (t: Thread) => if (t.Connected? || t.Holding?) && t.client == c then 1 else 0
  }

  function Is(c: ClientId): ClientId -> int {
    (id: ClientId) => if id == c then 1 else 0
  }

  /** How often client `c` is idle in the queue or in a thread's hands. */
  function Copies(p: Pool, c: ClientId): int {
    Sum(p.queue, Is(c)) + Sum(p.threads, Owns(c))
  }

  /** Live connections: idle in the queue or held by a thread. */
  function Live(p: Pool): int {
    |p.queue| + Sum(p.threads, HoldsClient)
  }

  /** Permits are conserved, the bound on clients and on threads about to open one holds, and the
      counter counts the clients that are idle or in use. */
  predicate Counted(p: Pool) {
    && 0 <= p.permits && p.permits + Sum(p.threads, HoldsPermit) + p.leaked == p.max
    && |p.queue| + Sum(p.threads, Claim) <= p.max
    && p.active == |p.queue| + Sum(p.threads, UsesClient)
  }

  /** Each client has one owner, and ids are handed out once. */
  ghost predicate OneOwner(p: Pool) {
    forall c: ClientId :: Copies(p, c) <= if c < p.nextId then 1 else 0
  }

  ghost predicate Inv(p: Pool) {
    Counted(p) && OneOwner(p)
  }

  lemma {:induction false} SumsUpdate(threads: seq<Thread>, i: nat, t: Thread)
    requires i < |threads|
    ensures Sum(threads[i := t], HoldsPermit) == Sum(threads, HoldsPermit) - HoldsPermit(threads[i]) + HoldsPermit(t)
    ensures Sum(threads[i := t], Claim) == Sum(threads, Claim) - Claim(threads[i]) + Claim(t)
    ensures Sum(threads[i := t], HoldsClient) == Sum(threads, HoldsClient) - HoldsClient(threads[i]) + HoldsClient(t)
    ensures Sum(threads[i := t], UsesClient) == Sum(threads, UsesClient) - UsesClient(threads[i]) + UsesClient(t)
  {
    SumUpdate(threads, i, t, HoldsPermit);
    SumUpdate(threads, i, t, Claim);
    SumUpdate(threads, i, t, HoldsClient);
    SumUpdate(threads, i, t, UsesClient);
  }

  lemma {:induction false} IdleThreadsHoldNothing(threads: seq<Thread>)
    requires forall i :: 0 <= i < |threads| ==> threads[i].Idle?
    ensures Sum(threads, HoldsPermit) == Sum(threads, Claim) == 0
    ensures Sum(threads, HoldsClient) == Sum(threads, UsesClient) == 0
    ensures forall c: ClientId :: Sum(threads, Owns(c)) == 0
  {
    if threads == [] {
    } else {
      IdleThreadsHoldNothing(threads[1..]);
    }
  }

  lemma {:induction false} InitHolds(max: nat, threads: nat)
    ensures Inv(Init(max, threads))
  {
    IdleThreadsHoldNothing(Init(max, threads).threads);
  }

  /** Every claim rests on a permit, every use on a client. */
  lemma {:induction false} ClaimsNeedPermits(threads: seq<Thread>)
    ensures 0 <= Sum(threads, UsesClient) <= Sum(threads, HoldsClient)
    ensures Sum(threads, HoldsClient) <= Sum(threads, Claim) <= Sum(threads, HoldsPermit)
  {
    if threads == [] {
    } else {
      ClaimsNeedPermits(threads[1..]);
    }
  }

  predicate Quiescent(p: Pool) {
    forall i :: 0 <= i < |p.threads| ==> p.threads[i].Idle?
  }

  /** The counters survive a step that moves permits, clients and the counter as thread `i` does. A step
      that raises the number of claims is safe only when it saw an empty queue. */
  lemma {:induction false} CountsAfter(p: Pool, q: Pool, i: nat, t: Thread)
    requires Counted(p) && i < |p.threads| && q.threads == p.threads[i := t] && q.max == p.max && 0 <= q.permits
    requires q.permits + q.leaked - p.permits - p.leaked == HoldsPermit(p.threads[i]) - HoldsPermit(t)
    requires q.active - p.active == |q.queue| - |p.queue| + UsesClient(t) - UsesClient(p.threads[i])
    requires q.queue == [] || |q.queue| + Claim(t) <= |p.queue| + Claim(p.threads[i])
    ensures Counted(q)
  {
    SumsUpdate(p.threads, i, t);
    ClaimsNeedPermits(q.threads);
    hide Sum;
  }

  lemma {:induction false} StepKeepsCounts(p: Pool, step: Step)
    requires Counted(p) && Enabled(p, step) && !step.CloseAll?
    ensures Counted(Next(p, step))
  {
    var i, q := step.thread, Next(p, step);
    assert p.permits >= 0;
    assert p.threads[i := p.threads[i]] == p.threads;
    hide Counted;
    CountsAfter(p, q, i, q.threads[i]);
  }

  /** A step moves clients between the queue and its thread; only connecting makes a new one. */
  lemma {:induction false} StepMovesClients(p: Pool, step: Step, c: ClientId)
    requires Enabled(p, step) && !step.CloseAll?
    ensures Copies(Next(p, step), c) == Copies(p, c) + if step.Connect? then Is(c)(p.nextId) else 0
  {
    var i, q := step.thread, Next(p, step);
    assert p.threads[i := p.threads[i]] == p.threads;
    SumUpdate(p.threads, i, q.threads[i], Owns(c));
    assert p.queue != [] ==> Sum(p.queue, Is(c)) == Is(c)(p.queue[0]) + Sum(p.queue[1..], Is(c));
    hide Sum;
    match step
    case Offer(_) => SumAppend(p.queue, p.threads[i].client, Is(c));
    case _ =>
  }

  /** Every step of every thread keeps the invariant. */
  lemma {:induction false} StepKeepsInv(p: Pool, step: Step)
    requires Inv(p) && Enabled(p, step) && !step.CloseAll?
    ensures Inv(Next(p, step))
  {
    StepKeepsCounts(p, step);
    hide Counted, Copies;
    forall c: ClientId ensures Copies(Next(p, step), c) <= if c < Next(p, step).nextId then 1 else 0 {
      StepMovesClients(p, step, c);
    }
  }

  lemma NothingQueued()
    ensures forall c: ClientId :: Sum<ClientId>([], Is(c)) == 0
  {
  }

  lemma {:induction false} SomePermitHeld(threads: seq<Thread>)
    ensures Sum(threads, HoldsPermit) == 0 <==> forall i :: 0 <= i < |threads| ==> threads[i].Idle?
  {
    if threads == [] {
    } else {
      SomePermitHeld(threads[1..]);
      ClaimsNeedPermits(threads[1..]);
      assert forall i :: 1 <= i < |threads| ==> threads[i] == threads[1..][i - 1];
    }
  }

  /** Closing restores every permit, leaked ones included; it keeps the pool's promises exactly when
      no thread is between taking a permit and giving it back. */
  lemma {:induction false} CloseKeepsInvExactly(p: Pool)
    requires Inv(p)
    ensures Inv(Next(p, CloseAll)) <==> Quiescent(p)
    ensures Next(p, CloseAll).permits == p.max
  {
    SomePermitHeld(p.threads);
    ClaimsNeedPermits(p.threads);
    if Quiescent(p) {
      IdleThreadsHoldNothing(p.threads);
    }
    NothingQueued();
    hide Sum;
  }

  // ---------- whole runs ----------

  /** Threads follow their program; the pool is closed only when nothing is borrowed. */
  predicate Legal(p: Pool, steps: seq<Step>)
    decreases |steps|
  {
    steps == [] ||
    (Enabled(p, steps[0]) && (steps[0].CloseAll? ==> Quiescent(p)) && Legal(Next(p, steps[0]), steps[1..]))
  }

  function Run(p: Pool, steps: seq<Step>): Pool
    requires Legal(p, steps)
    decreases |steps|
  {
    if steps == [] then p else Run(Next(p, steps[0]), steps[1..])
  }

  lemma {:induction false} RunKeepsInv(p: Pool, steps: seq<Step>)
    requires Inv(p) && Legal(p, steps)
    ensures Inv(Run(p, steps)) && Run(p, steps).max == p.max
    decreases |steps|
  {
    if steps == [] {
    } else {
      hide Inv, Quiescent;
      if steps[0].CloseAll? {
        CloseKeepsInvExactly(p);
      } else {
        StepKeepsInv(p, steps[0]);
      }
      RunKeepsInv(Next(p, steps[0]), steps[1..]);
    }
  }

  lemma {:induction false} OwnersCount(threads: seq<Thread>, c: ClientId)
    ensures 0 <= Sum(threads, Owns(c))
    ensures forall i :: 0 <= i < |threads| ==> Owns(c)(threads[i]) <= Sum(threads, Owns(c))
    ensures forall i, j :: 0 <= i < j < |threads| ==> Owns(c)(threads[i]) + Owns(c)(threads[j]) <= Sum(threads, Owns(c))
  {
    if threads == [] {
    } else {
      OwnersCount(threads[1..], c);
      assert forall i :: 1 <= i < |threads| ==> threads[i] == threads[1..][i - 1];
    }
  }

  lemma {:induction false} QueuedCount(queue: seq<ClientId>, c: ClientId)
    ensures 0 <= Sum(queue, Is(c)) && (c in queue ==> 1 <= Sum(queue, Is(c)))
  {
    if queue == [] {
    } else {
      QueuedCount(queue[1..], c);
    }
  }

  /** Pool safety, for any number of threads and every interleaving of their steps: live connections
      and the reported count stay within the bound, no client is held by two threads or held and
      idle at once, and permits are conserved. */
  lemma {:induction false} PoolIsSafe(max: nat, threads: nat, steps: seq<Step>)
    requires Legal(Init(max, threads), steps)
    ensures var p := Run(Init(max, threads), steps);
      && |p.queue| + Sum(p.threads, Claim) <= max
      && Live(p) <= max && 0 <= p.active <= Live(p)
      && p.permits + Sum(p.threads, HoldsPermit) + p.leaked == max
      && (forall i, j :: 0 <= i < j < |p.threads| && HoldsClient(p.threads[i]) == HoldsClient(p.threads[j]) == 1 ==>
            p.threads[i].client != p.threads[j].client)
      && (forall i :: 0 <= i < |p.threads| && HoldsClient(p.threads[i]) == 1 ==> p.threads[i].client !in p.queue)
  {
    InitHolds(max, threads);
    RunKeepsInv(Init(max, threads), steps);
    var p := Run(Init(max, threads), steps);
    ClaimsNeedPermits(p.threads);
    forall i | 0 <= i < |p.threads| && HoldsClient(p.threads[i]) == 1
      ensures p.threads[i].client !in p.queue
      ensures forall j :: i < j < |p.threads| && HoldsClient(p.threads[j]) == 1 ==>
        p.threads[i].client != p.threads[j].client
    {
      var c := p.threads[i].client;
      OwnersCount(p.threads, c);
      QueuedCount(p.queue, c);
      assert Copies(p, c) <= 1;
    }
  }

  // ---------- permits that failed connects keep ----------

  /** How many connects have failed since the last close, `before` of them before these steps. */
  function FailedConnects(steps: seq<Step>, before: nat): nat {
    if steps == [] then before
    else
      var now := if steps[0].CloseAll? then 0 else if steps[0].ConnectFails? then before + 1 else before;
      FailedConnects(steps[1..], now)
  }

  function PermitsInPlay(p: Pool): int {
    p.permits + Sum(p.threads, HoldsPermit)
  }

  lemma {:induction false} StepMovesPermits(p: Pool, step: Step)
    requires Enabled(p, step) && !step.CloseAll?
    ensures PermitsInPlay(Next(p, step)) == PermitsInPlay(p) - if step.ConnectFails? then 1 else 0
  {
    var i, q := step.thread, Next(p, step);
    assert p.threads[i := p.threads[i]] == p.threads;
    SumUpdate(p.threads, i, q.threads[i], HoldsPermit);
    hide Sum;
  }

  lemma {:induction false} PermitsLeak(p: Pool, steps: seq<Step>, before: nat)
    requires Legal(p, steps) && PermitsInPlay(p) == p.max - before
    ensures PermitsInPlay(Run(p, steps)) == p.max - FailedConnects(steps, before) && Run(p, steps).max == p.max
    decreases |steps|
  {
    if steps == [] {
    } else {
      var q := Next(p, steps[0]);
      if steps[0].CloseAll? {
        IdleThreadsHoldNothing(p.threads);
        PermitsLeak(q, steps[1..], 0);
      } else {
        StepMovesPermits(p, steps[0]);
        hide PermitsInPlay;
        PermitsLeak(q, steps[1..], if steps[0].ConnectFails? then before + 1 else before);
      }
    }
  }

  /** A connect that fails keeps its permit: after every legal run, the permits in the semaphore and in
      threads' hands are the maximum less the connects that have failed since the last close. */
  lemma {:induction false} FailedConnectsKeepPermits(max: nat, threads: nat, steps: seq<Step>)
    requires Legal(Init(max, threads), steps)
    ensures PermitsInPlay(Run(Init(max, threads), steps)) == max - FailedConnects(steps, 0)
    ensures FailedConnects(steps, 0) <= max
  {
    hide Run, Legal, FailedConnects;
    InitHolds(max, threads);
    IdleThreadsHoldNothing(Init(max, threads).threads);
    PermitsLeak(Init(max, threads), steps, 0);
    RunKeepsInv(Init(max, threads), steps);
    ClaimsNeedPermits(Run(Init(max, threads), steps).threads);
  }

  /** Once `max` connects have failed without a close, the pool is dead: no thread holds a permit, acquiring
      changes nothing and `getConnection` times out, for every thread. */
  lemma {:induction false} FailedConnectsExhaustThePool(
      max: nat, threads: nat, steps: seq<Step>, i: nat, connects: bool)
    requires Legal(Init(max, threads), steps) && FailedConnects(steps, 0) == max
    requires i < |Run(Init(max, threads), steps).threads|
    ensures var p := Run(Init(max, threads), steps);
      && Quiescent(p) && p.permits == 0
      && Next(p, TryAcquire(i)) == p && GetAlone(p, i, connects) == p
  {
    hide Run, Legal, FailedConnects;
    var p := Run(Init(max, threads), steps);
    InitHolds(max, threads);
    FailedConnectsKeepPermits(max, threads, steps);
    RunKeepsInv(Init(max, threads), steps);
    ClaimsNeedPermits(p.threads);
    SomePermitHeld(p.threads);
  }

  // ---------- the queue of idle clients ----------

  /** Clients that leave the queue: lent to a thread, or closed. */
  function Taken(p: Pool, step: Step): seq<ClientId>
    requires Enabled(p, step)
  {
    match step
    case Poll(i) => if Next(p, step).threads[i].Holding? then [Next(p, step).threads[i].client] else []
    case CloseAll => p.queue
    case _ => []
  }

  /** Clients that a thread gives back. */
  function Returned(p: Pool, step: Step): seq<ClientId>
    requires Enabled(p, step)
  {
    match step
    case Offer(i) => [p.threads[i].client]
    case _ => []
  }

  function AllTaken(p: Pool, steps: seq<Step>): seq<ClientId>
    requires Legal(p, steps)
    decreases |steps|
  {
    if steps == [] then [] else Taken(p, steps[0]) + AllTaken(Next(p, steps[0]), steps[1..])
  }

  function AllReturned(p: Pool, steps: seq<Step>): seq<ClientId>
    requires Legal(p, steps)
    decreases |steps|
  {
    if steps == [] then [] else Returned(p, steps[0]) + AllReturned(Next(p, steps[0]), steps[1..])
  }

  /** Idle clients are lent again, or closed, in the order in which they came back, and none is skipped. */
  lemma {:induction false} IdleClientsAreAQueue(p: Pool, steps: seq<Step>)
    requires Legal(p, steps)
    ensures AllTaken(p, steps) + Run(p, steps).queue == p.queue + AllReturned(p, steps)
    decreases |steps|
  {
    if steps == [] {
    } else {
      hide Next, Enabled, Taken, Returned, Quiescent;
      var q, rest := Next(p, steps[0]), steps[1..];
      QueueStep(p, steps[0]);
      IdleClientsAreAQueue(q, rest);
      Joined(Taken(p, steps[0]), AllTaken(q, rest), Run(q, rest).queue, q.queue, p.queue,
             Returned(p, steps[0]), AllReturned(q, rest));
    }
  }

  lemma {:induction false} QueueStep(p: Pool, step: Step)
    requires Enabled(p, step)
    ensures Taken(p, step) + Next(p, step).queue == p.queue + Returned(p, step)
  {
    match step
    case Poll(i) =>
      if p.queue != [] {
        assert [p.queue[0]] + p.queue[1..] == p.queue;
      }
    case _ =>
  }

  lemma Joined<T>(taken: seq<T>, later: seq<T>, last: seq<T>, mid: seq<T>, first: seq<T>, back: seq<T>, rest: seq<T>)
    requires taken + mid == first + back && later + last == mid + rest
    ensures (taken + later) + last == first + (back + rest)
  {
    assert (taken + later) + last == taken + (mid + rest) == (first + back) + rest;
  }

  /** A quiescent close returns the pool to its initial counters, whatever was leaked before. */
  lemma {:induction false} QuiescentCloseResets(p: Pool)
    requires Inv(p) && Quiescent(p)
    ensures Next(p, CloseAll) == Init(p.max, |p.threads|).(nextId := p.nextId)
  {
    ClaimsNeedPermits(p.threads);
    assert p.threads == Init(p.max, |p.threads|).threads;
  }

  // ---------- the object ----------

  /** `getConnection` by one thread that no other thread interrupts. */
  function GetAlone(p: Pool, i: nat, connects: bool): Pool
    requires i < |p.threads| && p.threads[i].Idle?
  {
    var taken := Next(p, TryAcquire(i));
    if taken.threads[i].Idle? then taken
    else
      var polled := Next(taken, Poll(i));
      if polled.threads[i].Holding? then polled
      else if connects then Next(Next(polled, Connect(i)), Increment(i))
      else Next(polled, ConnectFails(i))
  }

  class ConnectionPool {
    const maxConnections: nat
    var availableConnections: seq<ClientId>
    var currentConnections: int
    var permits: int
    ghost var state: Pool

    ghost predicate Valid()
      reads this
    {
      && state.max == maxConnections && state.queue == availableConnections
      && state.active == currentConnections && state.permits == permits
    }

    constructor (maxConnections: nat, ghost threads: nat)
      ensures Valid() && state == Init(maxConnections, threads)
    {
      this.maxConnections := maxConnections;
      availableConnections, currentConnections, permits := [], 0, maxConnections;
      state := Init(maxConnections, threads);
    }

    /** `connects` says whether a new connection can be opened, and `id` names it; `None` is an IOException. */
    method GetConnection(connects: bool, id: ClientId, ghost thread: nat) returns (client: Option<ClientId>)
      requires Valid() && thread < |state.threads| && state.threads[thread].Idle? && id == state.nextId
      modifies this
      ensures Valid() && state == GetAlone(old(state), thread, connects)
      ensures client.Some? <==> state.threads[thread].Holding?
      ensures client.Some? ==> state.threads[thread] == Holding(client.value)
    {
      state := GetAlone(state, thread, connects);
      if permits <= 0 {
        return None;
      }
      permits := permits - 1;
      if availableConnections != [] {
        client := Some(availableConnections[0]);
        availableConnections := availableConnections[1..];
        return;
      }
      if !connects {
        return None;
      }
      currentConnections := currentConnections + 1;
      client := Some(id);
    }

    method ReturnConnection(client: Option<ClientId>, ghost thread: nat)
      requires Valid() && thread < |state.threads|
      requires client.Some? ==> state.threads[thread] == Holding(client.value)
      modifies this
      ensures Valid()
      ensures state == if client.Some? then Next(Next(old(state), Offer(thread)), Release(thread)) else old(state)
    {
      if client.Some? {
        state := Next(Next(state, Offer(thread)), Release(thread));
        availableConnections := availableConnections + [client.value];
        permits := permits + 1;
      }
    }

    /** Poll until nothing is idle, then reset the counter and top up the semaphore; `ok` is false when
        the semaphore refuses a negative release with an IllegalArgumentException. */
    method CloseAllConnections() returns (closed: seq<ClientId>, ok: bool)
      requires Valid()
      modifies this
      ensures ok <==> old(permits) <= maxConnections
      ensures Valid() && state == Next(old(state), CloseAll)
      ensures closed == old(availableConnections)
    {
      closed := [];
      while availableConnections != []
        invariant closed + availableConnections == old(availableConnections)
        invariant permits == old(permits) && state == old(state)
        decreases |availableConnections|
      {
        closed := closed + [availableConnections[0]];
        availableConnections := availableConnections[1..];
      }
      currentConnections := 0;
      state := Next(state, CloseAll);
      ok := maxConnections - permits >= 0;
      if ok {
        permits := permits + (maxConnections - permits);
      }
    }
  }
}
