/** Inputs on which the code departs from its documentation. Every lemma starts from an empty store;
    `TypedCommandsRun` says that sessions really receive such commands. */
module Witnesses {
  import opened Prelude
  import opened Decimal
  import opened Keyspace
  import LazyExpiry
  import Money
  import Payments
  import ReachableSnapshots
  import Session
  import S = Snapshot
  import SnapshotRoundTrip
  import Storage
  import Text
  import Wire

  // ---------- commands as a session receives them ----------

  function Typed(log: seq<Event>): seq<(int, string)> {
    if log == [] then []
    else [(log[0].now, Wire.Request(log[0].key, log[0].op) + "\n")] + Typed(log[1..])
  }

  predicate AllSendable(log: seq<Event>) {
    forall i :: 0 <= i < |log| ==> Wire.Sendable(log[i].key, log[i].op)
  }

  /** Every run of sendable commands is what the server does on the lines that a client prints. */
  lemma {:induction false} TypedCommandsRun(s: Store, log: seq<Event>)
    requires AllSendable(log)
    ensures Wire.ServerRun(s, Typed(log)) == Final(s, log)
    decreases |log|
  {
    if log == [] {
    } else {
      hide Wire.Sendable, Apply, Wire.Request;
      var e := log[0];
      Wire.RequestsArriveIntact(e.key, e.op);
      assert Typed(log)[1..] == Typed(log[1..]);
      TypedCommandsRun(Apply(s, e).0, log[1..]);
    }
  }

  lemma {:induction false} AfterFirst(s: Store, e: Event, rest: seq<Event>)
    ensures Final(s, [e] + rest) == Final(Apply(s, e).0, rest)
    ensures CellAt(Apply(s, e).0, e.key) == Step(CellAt(s, e.key), e.now, e.op).0
  {
    assert ([e] + rest)[1..] == rest;
    CellAfterPut(s, e.key, Step(CellAt(s, e.key), e.now, e.op).0, e.key);
    hide Step;
  }

  // ---------- expiry ----------

  /** A string that expired a second after clock zero is set to expire in five seconds, two seconds
      too late: it is back, and the run is not that of a store that drops what has expired. */
  lemma {:induction false} ExpireRevives(key: string, value: string)
    ensures var log := [Event(0, key, Set(value)), Event(0, key, Expire(1)),
                        Event(3 * NANOS_PER_SECOND, key, Expire(5))];
      && CellAt(Final(EMPTY_STORE, log), key).str == Some(Entry(value, Some(8 * NANOS_PER_SECOND)))
      && !LazyExpiry.AllAgreeable(EMPTY_STORE, log)
      && !LazyExpiry.AgreeThroughout(EMPTY_STORE, EMPTY_STORE, log)
  {
    var late := 3 * NANOS_PER_SECOND;
    var e1, e2, e3 := Event(0, key, Set(value)), Event(0, key, Expire(1)), Event(late, key, Expire(5));
    var s1 := Apply(EMPTY_STORE, e1).0;
    var s2 := Apply(s1, e2).0;
    AfterFirst(EMPTY_STORE, e1, [e2, e3]);
    AfterFirst(s1, e2, [e3]);
    AfterFirst(s2, e3, []);
    var log := [e1, e2, e3];
    assert log == [e1] + [e2, e3] && log[1..] == [e2] + [e3] && log[1..][1..] == [e3] + [];
    assert CellAt(s2, key).str == Some(Entry(value, Some(NANOS_PER_SECOND)));
    hide Apply, CellAt;
    assert !LazyExpiry.Agreeable(CellAt(s2, key), late, Expire(5));
    assert !LazyExpiry.AllAgreeable(s2, [e3]);
    assert !LazyExpiry.AllAgreeable(s1, log[1..]);
    assert log[1..][0] == e2 && log[1..][1..] == [e3];
    assert InOrder([e3], 0);
    assert InOrder(log[1..], 0);
    LazyExpiry.LazyRefinesEager(EMPTY_STORE, EMPTY_STORE, log, 0);
  }

  /** A string with one second to live and a lasting hash under the same key. */
  function Shadowed(value: string, field: string): Cell {
    Cell(Some(Entry(value, Some(NANOS_PER_SECOND))), Lasting(map[field := value]), None, None)
  }

  lemma {:induction false} ShadowedHash(value: string, field: string)
    ensures var c := Step(Step(EMPTY_CELL, 0, Set(value)).0, 0, HSet(field, value)).0;
      Step(c, 0, Expire(1)).0 == Shadowed(value, field)
    ensures Step(Shadowed(value, field), 3 * NANOS_PER_SECOND, Ttl).1 == Number(-2)
    ensures Step(Shadowed(value, field), 3 * NANOS_PER_SECOND, HGet(field)).1 == Reply.Text(Some(value))
  {
  }

  /** TTL says that the key does not exist while its hash can still be read. */
  lemma {:induction false} TtlDeniesALiveHash(key: string, value: string, field: string)
    ensures var log := [Event(0, key, Set(value)), Event(0, key, HSet(field, value)), Event(0, key, Expire(1))];
      var s := Final(EMPTY_STORE, log);
      && Apply(s, Event(3 * NANOS_PER_SECOND, key, Ttl)).1 == Number(-2)
      && Apply(s, Event(3 * NANOS_PER_SECOND, key, HGet(field))).1 == Reply.Text(Some(value))
  {
    assert CellAt(EMPTY_STORE, key) == EMPTY_CELL;
    hide Step, CellAt, PutCell, Shadowed;
    var e1, e2, e3 := Event(0, key, Set(value)), Event(0, key, HSet(field, value)), Event(0, key, Expire(1));
    var s1 := Apply(EMPTY_STORE, e1).0;
    var s2 := Apply(s1, e2).0;
    AfterFirst(EMPTY_STORE, e1, [e2, e3]);
    AfterFirst(s1, e2, [e3]);
    AfterFirst(s2, e3, []);
    assert [e1, e2, e3] == [e1] + [e2, e3] && [e2, e3] == [e2] + [e3] && [e3] == [e3] + [];
    ShadowedHash(value, field);
  }

  // ---------- sets ----------

  /** SADD of the same member twice claims two additions and makes a set of one. */
  lemma {:induction false} RepeatedMemberCountsTwice(key: string, name: string, t: int, u: int)
    ensures var (s, reply) := Apply(EMPTY_STORE, Event(t, key, SAdd([name, name])));
      reply == Number(2) && Apply(s, Event(u, key, SCard)).1 == Number(1)
  {
    AfterFirst(EMPTY_STORE, Event(t, key, SAdd([name, name])), []);
    assert {} + SetOf([name, name]) == {name};
    hide PutCell, AddTo, Slice;
  }

  // ---------- the wire ----------

  /** The store in which `key` holds one lasting string. */
  function Holding(key: string, value: string): Store {
    Store(map[key := Entry(value, None)], map[], map[], map[])
  }

  lemma {:induction false} OneSet(key: string, value: string, t: int, u: int)
    requires Text.IsWord(key) && Text.IsWord(value)
    ensures Wire.ServerRun(EMPTY_STORE, Typed([Event(t, key, Set(value))])) == Holding(key, value)
    ensures Apply(Holding(key, value), Event(u, key, Get)).1 == Reply.Text(Some(value))
  {
    var e := Event(t, key, Set(value));
    TypedCommandsRun(EMPTY_STORE, [e]);
    AfterFirst(EMPTY_STORE, e, []);
    assert [e] == [e] + [];
    assert Apply(EMPTY_STORE, e).0 == Holding(key, value);
  }

  /** A client that stores "(nil)" reads a missing value, although the store holds the text. */
  lemma {:induction false} StoredNilReadsAsMissing(key: string, t: int, u: int, response: string)
    requires Text.IsWord(key)
    ensures var s := Wire.ServerRun(EMPTY_STORE, Typed([Event(t, key, Set(Wire.NIL_RESPONSE))]));
      && Apply(s, Event(u, key, Get)).1 == Reply.Text(Some(Wire.NIL_RESPONSE))
      && (Session.Answers(s, u, Wire.ActionOf(Wire.Request(key, Get) + "\n"), response) ==>
            Wire.Decode(Get, response) == Wire.Word(None))
  {
    hide Wire.TidyStore, Session.Answers, Wire.ActionOf, Wire.Request, Wire.Decode, Wire.ServerRun;
    hide Typed, Apply, Holding;
    var inputs := Typed([Event(t, key, Set(Wire.NIL_RESPONSE))]);
    OneSet(key, Wire.NIL_RESPONSE, t, u);
    Wire.EmptyStoreIsTidy();
    Wire.ReachableStoresAreTidy(EMPTY_STORE, inputs);
    if Session.Answers(Holding(key, Wire.NIL_RESPONSE), u, Wire.ActionOf(Wire.Request(key, Get) + "\n"), response) {
      Wire.WireRefinement(Holding(key, Wire.NIL_RESPONSE), u, key, Get, response);
    }
  }

  // ---------- the snapshot ----------

  /** One SET of a key with '=' in it, or of a pair like `[a` and `b]`, makes a store that its own
      snapshot does not restore. */
  lemma {:induction false} SnapshotLosesAString(
      key: string, value: string, t: int, at: S.Readings, o: S.Orders, clock: nat -> int)
    requires Text.IsWord(key) && Text.IsWord(value)
    requires '=' in key || (key[0] == '[' && value[|value| - 1] == ']')
    requires S.ValidOrders(o, Wire.ServerRun(EMPTY_STORE, Typed([Event(t, key, Set(value))])), at)
    ensures var s := Wire.ServerRun(EMPTY_STORE, Typed([Event(t, key, Set(value))]));
      && SnapshotRoundTrip.LiveStrings(s, at) == map[key := value]
      && S.LoadLines(EMPTY_STORE, clock, 0, S.GetLines(S.Joined(S.SnapshotLines(s, at, o))), "")
         != SnapshotRoundTrip.Plain(map[key := value])
  {
    hide S.ValidOrders, S.LoadLines, S.GetLines, S.Joined, S.SnapshotLines, Wire.ServerRun, Typed;
    OneSet(key, value, t, t);
    var s := Holding(key, value);
    assert SnapshotRoundTrip.LiveStrings(s, at) == map[key := value];
    assert !ReachableSnapshots.PlainlyNamed(s, at);
    hide SnapshotRoundTrip.LiveStrings, ReachableSnapshots.PlainlyNamed;
    ReachableSnapshots.ReachableSnapshotRoundTrip(Typed([Event(t, key, Set(value))]), at, o, clock);
  }

  // ---------- payments ----------

  /** Asked to pay -1, a player with nothing takes it from a payee who has nothing either. */
  lemma {:induction false} NegativeSumOverdraws(payer: string, payee: string, times: seq<int>)
    requires |times| == 4 && payer != payee
    ensures var (s, outcome) := Payments.SequentialPay(EMPTY_STORE, payer, payee, "-1", times);
      && outcome == Money.Transferred
      && Money.Balance(s, Money.Account(payer)) == 1
      && Money.Balance(s, Money.Account(payee)) == -1
  {
    Storage.UnitTexts();
    NumberRoundTrip(-1);
    hide ToString, ParseLong, Payments.SequentialPay, Money.Account;
    assert Payments.Moved(EMPTY_STORE, payer, "-1") == Some(-1);
    Money.AccountsAreDistinct(payer, payee);
    Payments.SequentialPayBalances(EMPTY_STORE, payer, payee, "-1", times, Money.Account(payer));
    Payments.SequentialPayBalances(EMPTY_STORE, payer, payee, "-1", times, Money.Account(payee));
  }
}
