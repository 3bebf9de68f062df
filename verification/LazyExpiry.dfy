/** Lazy against eager expiry. The eager store drops every stale entry of every key at each
    clock reading; the real one purges only the touched key, and EXPIRE and TTL purge nothing. */
module LazyExpiry {
  import opened Keyspace

  function PurgeMap<T>(m: map<string, Entry<T>>, now: int): map<string, Entry<T>> {
    map key | key in m && !Overdue(m[key].deadline, now) :: m[key]
  }

  function PurgeStore(s: Store, now: int): Store {
    Store(PurgeMap(s.strings, now), PurgeMap(s.hashes, now), PurgeMap(s.lists, now), PurgeMap(s.sets, now))
  }

  function EagerApply(s: Store, e: Event): (Store, Reply) {
    Apply(PurgeStore(s, e.now), e)
  }

  function EagerFinal(s: Store, log: seq<Event>): Store
    decreases |log|
  {
    if log == [] then s else EagerFinal(EagerApply(s, log[0]).0, log[1..])
  }

  function EagerReplies(s: Store, log: seq<Event>): seq<Reply>
    decreases |log|
  {
    if log == [] then [] else [EagerApply(s, log[0]).1] + EagerReplies(EagerApply(s, log[0]).0, log[1..])
  }

  // ---------- when one command agrees ----------

  predicate FirstIsStale(c: Cell, now: int) {
    match First(c)
    case None => false
    case Some(f) => Overdue(DeadlineOf(c, f), now)
  }

  /** A live family whose deadline lies at or before clock zero can answer -2 to TTL without being expired. */
  predicate ReadsAsMissing(c: Cell, now: int) {
    match First(c)
    case None => true
    case Some(f) => DeadlineOf(c, f).Some? && SecondsLeft(DeadlineOf(c, f).value, now) == -2
  }

  /** EXPIRE must not find a stale entry first; TTL may, if nothing live hides behind it. */
  predicate Agreeable(c: Cell, now: int, op: Op) {
    match op
    case Expire(_) => !FirstIsStale(c, now)
    case Ttl => !FirstIsStale(c, now) || ReadsAsMissing(Purge(c, now), now)
    case _ => true
  }

  lemma {:induction false} PurgeTwice(c: Cell, t: int, u: int)
    requires t <= u
    ensures Purge(Purge(c, t), u) == Purge(c, u)
  {
  }

  lemma {:induction false} ExpireAgreement(c: Cell, now: int, seconds: int)
    ensures var lazy := SetExpiry(c, now, seconds); var eager := SetExpiry(Purge(c, now), now, seconds);
      (lazy.1 == eager.1 && Purge(lazy.0, now) == Purge(eager.0, now)) <==> !FirstIsStale(c, now)
  {
    var lazy := SetExpiry(c, now, seconds);
    var eager := SetExpiry(Purge(c, now), now, seconds);
    if FirstIsStale(c, now) && First(Purge(c, now)).Some? {
      var dead, live := First(c).value, First(Purge(c, now)).value;
      var d := DeadlineAfter(now, seconds);
      if IsExpired(d, now) {
        assert Has(Purge(lazy.0, now), live) && !Has(Purge(eager.0, now), live);
      } else {
        assert Has(Purge(lazy.0, now), dead) && !Has(Purge(eager.0, now), dead);
      }
    }
  }

  lemma {:induction false} TtlAgreement(c: Cell, now: int)
    ensures var lazy := TimeToLive(c, now); var eager := TimeToLive(Purge(c, now), now);
      && Purge(lazy.0, now) == Purge(eager.0, now)
      && (lazy.1 == eager.1 <==> Agreeable(c, now, Ttl))
  {
    hide SecondsLeft;
    match First(c)
    case None =>
    case Some(Strings) =>
    case Some(Hashes) =>
    case Some(Lists) =>
    case Some(Sets) =>
  }

  /** One command on one cell: the lazy and the eager store agree exactly when `Agreeable`. */
  lemma {:induction false} CellAgreement(c: Cell, now: int, op: Op)
    ensures var lazy := Step(c, now, op); var eager := Step(Purge(c, now), now, op);
      (lazy.1 == eager.1 && Purge(lazy.0, now) == Purge(eager.0, now)) <==> Agreeable(c, now, op)
  {
    PurgeTwice(c, now, now);
    match op
    case Expire(seconds) => ExpireAgreement(c, now, seconds);
    case Ttl => TtlAgreement(c, now);
    case _ =>
  }

  // ---------- lifting to stores ----------

  lemma {:induction false} CellOfPurged(s: Store, now: int, key: string)
    ensures CellAt(PurgeStore(s, now), key) == Purge(CellAt(s, key), now)
  {
  }

  lemma {:induction false} PurgeLater(s: Store, t: int, u: int)
    requires t <= u
    ensures PurgeStore(PurgeStore(s, t), u) == PurgeStore(s, u)
  {
    forall key
      ensures CellAt(PurgeStore(PurgeStore(s, t), u), key) == CellAt(PurgeStore(s, u), key)
    {
      CellOfPurged(s, t, key);
      CellOfPurged(PurgeStore(s, t), u, key);
      CellOfPurged(s, u, key);
      PurgeTwice(CellAt(s, key), t, u);
    }
    SameCellsSameStore(PurgeStore(PurgeStore(s, t), u), PurgeStore(s, u));
  }

  /** Two stores that look alike once purged keep doing so as time passes. */
  lemma {:induction false} AlikeLater(s: Store, r: Store, t: int, u: int)
    requires t <= u && PurgeStore(s, t) == PurgeStore(r, t)
    ensures PurgeStore(s, u) == PurgeStore(r, u)
  {
    PurgeLater(s, t, u);
    PurgeLater(r, t, u);
  }

  /** Stores that differ from a common base in one cell are alike exactly when that cell is. */
  lemma {:induction false} AlikeAfterPut(s: Store, r: Store, now: int, key: string, c: Cell, d: Cell)
    requires PurgeStore(s, now) == PurgeStore(r, now)
    ensures PurgeStore(PutCell(s, key, c), now) == PurgeStore(PutCell(r, key, d), now)
       <==> Purge(c, now) == Purge(d, now)
  {
    hide Purge, PutCell, PurgeStore, CellAt;
    var s', r' := PutCell(s, key, c), PutCell(r, key, d);
    forall k
      ensures CellAt(PurgeStore(s', now), k) == Purge(if k == key then c else CellAt(s, k), now)
      ensures CellAt(PurgeStore(r', now), k) == Purge(if k == key then d else CellAt(r, k), now)
      ensures Purge(CellAt(s, k), now) == Purge(CellAt(r, k), now)
    {
      CellOfPurged(s, now, k);
      CellOfPurged(r, now, k);
      CellOfPurged(s', now, k);
      CellOfPurged(r', now, k);
      CellAfterPut(s, key, c, k);
      CellAfterPut(r, key, d, k);
    }
    assert CellAt(PurgeStore(s', now), key) == Purge(c, now) && CellAt(PurgeStore(r', now), key) == Purge(d, now);
    if Purge(c, now) == Purge(d, now) {
      SameCellsSameStore(PurgeStore(s', now), PurgeStore(r', now));
    }
  }

  lemma {:induction false} EventAgreement(lazy: Store, eager: Store, e: Event)
    requires PurgeStore(lazy, e.now) == PurgeStore(eager, e.now)
    ensures (Apply(lazy, e).1 == EagerApply(eager, e).1
             && PurgeStore(Apply(lazy, e).0, e.now) == PurgeStore(EagerApply(eager, e).0, e.now))
       <==> Agreeable(CellAt(lazy, e.key), e.now, e.op)
  {
    var c := CellAt(lazy, e.key);
    var base := PurgeStore(eager, e.now);
    CellOfPurged(lazy, e.now, e.key);
    CellAgreement(c, e.now, e.op);
    PurgeLater(eager, e.now, e.now);
    AlikeAfterPut(lazy, base, e.now, e.key, Step(c, e.now, e.op).0, Step(Purge(c, e.now), e.now, e.op).0);
  }

  // ---------- whole runs ----------

  ghost predicate AllAgreeable(lazy: Store, log: seq<Event>)
    decreases |log|
  {
    log == [] ||
    (Agreeable(CellAt(lazy, log[0].key), log[0].now, log[0].op) && AllAgreeable(Apply(lazy, log[0]).0, log[1..]))
  }

  /** After every command: same reply so far, and the same store once both are purged. */
  ghost predicate AgreeThroughout(lazy: Store, eager: Store, log: seq<Event>)
    decreases |log|
  {
    log == [] ||
    var e := log[0];
    && Apply(lazy, e).1 == EagerApply(eager, e).1
    && PurgeStore(Apply(lazy, e).0, e.now) == PurgeStore(EagerApply(eager, e).0, e.now)
    && AgreeThroughout(Apply(lazy, e).0, EagerApply(eager, e).0, log[1..])
  }

  /** Over every run with a clock that never goes back, the store that purges lazily is
      indistinguishable from the eager one exactly when every command is agreeable. */
  lemma {:induction false} LazyRefinesEager(lazy: Store, eager: Store, log: seq<Event>, from: int)
    requires InOrder(log, from) && PurgeStore(lazy, from) == PurgeStore(eager, from)
    ensures AgreeThroughout(lazy, eager, log) <==> AllAgreeable(lazy, log)
    decreases |log|
  {
    if log == [] {
    } else {
      hide Apply, EagerApply, PurgeStore, Agreeable, CellAt;
      var e := log[0];
      AlikeLater(lazy, eager, from, e.now);
      EventAgreement(lazy, eager, e);
      if Agreeable(CellAt(lazy, e.key), e.now, e.op) {
        LazyRefinesEager(Apply(lazy, e).0, EagerApply(eager, e).0, log[1..], e.now);
      }
    }
  }

  function EndTime(log: seq<Event>, from: int): int {
    if log == [] then from else log[|log| - 1].now
  }

  lemma {:induction false} AgreementMeansEqualReplies(lazy: Store, eager: Store, log: seq<Event>, from: int, t: int)
    requires InOrder(log, from) && PurgeStore(lazy, from) == PurgeStore(eager, from)
    requires AgreeThroughout(lazy, eager, log) && EndTime(log, from) <= t
    ensures Replies(lazy, log) == EagerReplies(eager, log)
    ensures PurgeStore(Final(lazy, log), t) == PurgeStore(EagerFinal(eager, log), t)
    decreases |log|
  {
    if log == [] {
      AlikeLater(lazy, eager, from, t);
    } else {
      hide Apply, EagerApply, PurgeStore;
      var e := log[0];
      assert EndTime(log[1..], e.now) == EndTime(log, from);
      AgreementMeansEqualReplies(Apply(lazy, e).0, EagerApply(eager, e).0, log[1..], e.now, t);
    }
  }

  lemma {:induction false} NoExpiryCommandsAgree(s: Store, log: seq<Event>)
    requires forall i :: 0 <= i < |log| ==> !log[i].op.Expire? && !log[i].op.Ttl?
    ensures AllAgreeable(s, log)
    decreases |log|
  {
    if log == [] {
    } else {
      NoExpiryCommandsAgree(Apply(s, log[0]).0, log[1..]);
    }
  }

  /** Runs of the other sixteen commands need no condition: from any store, whatever is already
      stale in it, the replies are those of eager expiry and so is the store at any later time. */
  lemma {:induction false} LazyIsEagerWithoutExpiryCommands(s: Store, log: seq<Event>, from: int, t: int)
    requires InOrder(log, from) && EndTime(log, from) <= t
    requires forall i :: 0 <= i < |log| ==> !log[i].op.Expire? && !log[i].op.Ttl?
    ensures Replies(s, log) == EagerReplies(s, log)
    ensures PurgeStore(Final(s, log), t) == PurgeStore(EagerFinal(s, log), t)
  {
    NoExpiryCommandsAgree(s, log);
    LazyRefinesEager(s, s, log, from);
    AgreementMeansEqualReplies(s, s, log, from, t);
  }
}
