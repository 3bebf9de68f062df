/** Commands touch one key only. Consequences: runs can be read key by key, commands on
    different keys commute, and a store can be sharded by hash slot. */
module Locality {
  import opened Prelude
  import opened Keyspace
  import Cluster

  // ---------- one key's view of a log ----------

  function Project(log: seq<Event>, key: string): seq<Event> {
    if log == [] then []
    else (if log[0].key == key then [log[0]] else []) + Project(log[1..], key)
  }

  /** The cell of one key after its own commands. */
  function CellFinal(c: Cell, log: seq<Event>): Cell
    decreases |log|
  {
    if log == [] then c else CellFinal(Step(c, log[0].now, log[0].op).0, log[1..])
  }

  function CellReplies(c: Cell, log: seq<Event>): seq<Reply>
    decreases |log|
  {
    if log == [] then []
    else [Step(c, log[0].now, log[0].op).1] + CellReplies(Step(c, log[0].now, log[0].op).0, log[1..])
  }

  /** The replies that the commands on one key got in a run of the whole store. */
  function RepliesFor(s: Store, log: seq<Event>, key: string): seq<Reply>
    decreases |log|
  {
    if log == [] then []
    else (if log[0].key == key then [Apply(s, log[0]).1] else []) + RepliesFor(Apply(s, log[0]).0, log[1..], key)
  }

  /** What a key goes through in a run of the whole store is what its own commands do to its own cell. */
  lemma {:induction false} RunsAreLocal(s: Store, log: seq<Event>, key: string)
    ensures CellAt(Final(s, log), key) == CellFinal(CellAt(s, key), Project(log, key))
    ensures RepliesFor(s, log, key) == CellReplies(CellAt(s, key), Project(log, key))
    decreases |log|
  {
    if log == [] {
    } else {
      var e := log[0];
      RunsAreLocal(Apply(s, e).0, log[1..], key);
      CellAfterPut(s, e.key, Step(CellAt(s, e.key), e.now, e.op).0, key);
      if e.key == key {
        assert Project(log, key) == [e] + Project(log[1..], key);
        assert ([e] + Project(log[1..], key))[1..] == Project(log[1..], key);
      } else {
        assert Project(log, key) == Project(log[1..], key);
      }
    }
  }

  /** Only the order of commands on the same key matters: two logs with the same projections
      leave the same store and give every command the same reply. */
  lemma {:induction false} SameProjectionsSameRun(s: Store, log: seq<Event>, other: seq<Event>)
    requires forall key :: Project(log, key) == Project(other, key)
    ensures Final(s, log) == Final(s, other)
    ensures forall key :: RepliesFor(s, log, key) == RepliesFor(s, other, key)
  {
    forall key
      ensures CellAt(Final(s, log), key) == CellAt(Final(s, other), key)
      ensures RepliesFor(s, log, key) == RepliesFor(s, other, key)
    {
      RunsAreLocal(s, log, key);
      RunsAreLocal(s, other, key);
    }
    SameCellsSameStore(Final(s, log), Final(s, other));
  }

  /** Commands on different keys commute: same replies, same store, whatever their clock readings. */
  lemma {:induction false} DifferentKeysCommute(s: Store, a: Event, b: Event)
    requires a.key != b.key
    ensures Apply(Apply(s, a).0, b).0 == Apply(Apply(s, b).0, a).0
    ensures Apply(Apply(s, a).0, b).1 == Apply(s, b).1
    ensures Apply(Apply(s, b).0, a).1 == Apply(s, a).1
  {
    var ca, cb := Step(CellAt(s, a.key), a.now, a.op).0, Step(CellAt(s, b.key), b.now, b.op).0;
    CellAfterPut(s, a.key, ca, b.key);
    CellAfterPut(s, b.key, cb, a.key);
    var ab, ba := Apply(Apply(s, a).0, b).0, Apply(Apply(s, b).0, a).0;
    forall key ensures CellAt(ab, key) == CellAt(ba, key) {
      CellAfterPut(s, a.key, ca, key);
      CellAfterPut(s, b.key, cb, key);
      CellAfterPut(Apply(s, a).0, b.key, cb, key);
      CellAfterPut(Apply(s, b).0, a.key, ca, key);
    }
    SameCellsSameStore(ab, ba);
  }

  // ---------- sharding ----------

  /** The node that `findNodeForSlot(calculateHashSlot(key))` selects. */
  function Route(key: string, nodes: nat): (node: nat)
    requires nodes > 0
    ensures node < nodes
    ensures Cluster.NodeForSlot(Cluster.SlotOf(key), nodes) == Some(node)
  {
    Cluster.SlotOf(key) % nodes
  }

  function ShardApply(shards: seq<Store>, e: Event): (r: (seq<Store>, Reply))
    requires shards != []
    ensures |r.0| == |shards|
  {
    var i := Route(e.key, |shards|);
    var (s, reply) := Apply(shards[i], e);
    (shards[i := s], reply)
  }

  function ShardFinal(shards: seq<Store>, log: seq<Event>): (r: seq<Store>)
    requires shards != []
    ensures |r| == |shards|
    decreases |log|
  {
    if log == [] then shards else ShardFinal(ShardApply(shards, log[0]).0, log[1..])
  }

  function ShardReplies(shards: seq<Store>, log: seq<Event>): seq<Reply>
    requires shards != []
    decreases |log|
  {
    if log == [] then [] else [ShardApply(shards, log[0]).1] + ShardReplies(ShardApply(shards, log[0]).0, log[1..])
  }

  /** Each key lives on the shard it is routed to and nowhere else. */
  ghost predicate Sharded(shards: seq<Store>, s: Store)
    requires shards != []
  {
    forall i, key :: 0 <= i < |shards| ==>
      CellAt(shards[i], key) == if i == Route(key, |shards|) then CellAt(s, key) else EMPTY_CELL
  }

  lemma {:induction false} ShardStep(shards: seq<Store>, s: Store, e: Event)
    requires shards != [] && Sharded(shards, s)
    ensures ShardApply(shards, e).1 == Apply(s, e).1
    ensures Sharded(ShardApply(shards, e).0, Apply(s, e).0)
  {
    var home := Route(e.key, |shards|);
    assert CellAt(shards[home], e.key) == CellAt(s, e.key);
    var c := Step(CellAt(s, e.key), e.now, e.op).0;
    var after := ShardApply(shards, e).0;
    forall i, key | 0 <= i < |after|
      ensures CellAt(after[i], key) == if i == Route(key, |after|) then CellAt(Apply(s, e).0, key) else EMPTY_CELL
    {
      CellAfterPut(s, e.key, c, key);
      CellAfterPut(shards[home], e.key, c, key);
      assert CellAt(shards[i], key) == if i == Route(key, |shards|) then CellAt(s, key) else EMPTY_CELL;
    }
  }

  function Overlay(a: Store, b: Store): Store {
    Store(a.strings + b.strings, a.hashes + b.hashes, a.lists + b.lists, a.sets + b.sets)
  }

  function Merged(shards: seq<Store>): Store {
    if shards == [] then EMPTY_STORE else Overlay(shards[0], Merged(shards[1..]))
  }

  lemma {:induction false} MergedCell(shards: seq<Store>, key: string, home: nat)
    requires forall i :: 0 <= i < |shards| && i != home ==> CellAt(shards[i], key) == EMPTY_CELL
    ensures CellAt(Merged(shards), key) == if home < |shards| then CellAt(shards[home], key) else EMPTY_CELL
    decreases |shards|
  {
    if shards == [] {
    } else {
      assert forall i :: 0 <= i < |shards[1..]| ==> shards[1..][i] == shards[i + 1];
      MergedCell(shards[1..], key, if home == 0 then |shards| else home - 1);
    }
  }

  predicate DisjointKeys(a: Store, b: Store) {
    && a.strings.Keys !! b.strings.Keys && a.hashes.Keys !! b.hashes.Keys
    && a.lists.Keys !! b.lists.Keys && a.sets.Keys !! b.sets.Keys
  }

  lemma EmptyCellsDisjointKeys(a: Store, b: Store)
    requires forall key :: CellAt(a, key) == EMPTY_CELL || CellAt(b, key) == EMPTY_CELL
    ensures DisjointKeys(a, b)
  {
    forall key
      ensures key !in a.strings || key !in b.strings
      ensures key !in a.hashes || key !in b.hashes
      ensures key !in a.lists || key !in b.lists
      ensures key !in a.sets || key !in b.sets
    {
      assert CellAt(a, key) == EMPTY_CELL || CellAt(b, key) == EMPTY_CELL;
    }
  }

  lemma {:induction false} ShardsMerge(shards: seq<Store>, s: Store)
    requires shards != [] && Sharded(shards, s)
    ensures Merged(shards) == s
    ensures forall i, j :: 0 <= i < j < |shards| ==> DisjointKeys(shards[i], shards[j])
  {
    forall key ensures CellAt(Merged(shards), key) == CellAt(s, key) {
      MergedCell(shards, key, Route(key, |shards|));
    }
    SameCellsSameStore(Merged(shards), s);
    forall i, j | 0 <= i < j < |shards|
      ensures DisjointKeys(shards[i], shards[j])
    {
      forall key
        ensures CellAt(shards[i], key) == EMPTY_CELL || CellAt(shards[j], key) == EMPTY_CELL
      {
        assert i != Route(key, |shards|) || j != Route(key, |shards|);
      }
      EmptyCellsDisjointKeys(shards[i], shards[j]);
    }
  }

  /** Sharding by hash slot is invisible: for every log on any number of shards, the replies are
      those of one store and the shards' contents are a disjoint union equal to its contents. */
  lemma {:induction false} ShardingRefinesOneStore(shards: seq<Store>, s: Store, log: seq<Event>)
    requires shards != [] && Sharded(shards, s)
    ensures ShardReplies(shards, log) == Replies(s, log)
    ensures Sharded(ShardFinal(shards, log), Final(s, log))
    ensures Merged(ShardFinal(shards, log)) == Final(s, log)
    ensures forall i, j :: 0 <= i < j < |shards| ==>
      DisjointKeys(ShardFinal(shards, log)[i], ShardFinal(shards, log)[j])
    decreases |log|
  {
    if log == [] {
      ShardsMerge(shards, s);
    } else {
      ShardStep(shards, s, log[0]);
      ShardingRefinesOneStore(ShardApply(shards, log[0]).0, Apply(s, log[0]).0, log[1..]);
    }
  }

  function Routed(log: seq<Event>, node: nat, nodes: nat): seq<Event>
    requires nodes > 0
  {
    if log == [] then []
    else (if Route(log[0].key, nodes) == node then [log[0]] else []) + Routed(log[1..], node, nodes)
  }

  /** Shards are independent: each ends where running only its own part of the log ends. */
  lemma {:induction false} ShardsAreIndependent(shards: seq<Store>, log: seq<Event>, node: nat)
    requires node < |shards|
    ensures ShardFinal(shards, log)[node] == Final(shards[node], Routed(log, node, |shards|))
    decreases |log|
  {
    if log == [] {
    } else {
      ShardsAreIndependent(ShardApply(shards, log[0]).0, log[1..], node);
      var rest := Routed(log[1..], node, |shards|);
      if Route(log[0].key, |shards|) == node {
        assert ([log[0]] + rest)[1..] == rest;
      } else {
        assert [] + rest == rest;
      }
    }
  }
}
