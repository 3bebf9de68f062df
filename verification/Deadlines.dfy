/** Deadlines set by EXPIRE: which commands keep them, and what GET-like reads and TTL see. */
module Deadlines {
  import opened Prelude
  import opened Decimal
  import opened Keyspace
  import opened Locality
  import opened Histories

  predicate HasDeadline(c: Cell, f: Family, d: int) {
    Has(c, f) && DeadlineOf(c, f) == Some(d)
  }

  /** What a caller can check before the command: SET and a counter command on non-numeric text replace
      the string, an SREM that empties the set drops it, EXPIRE re-times the first family. */
  predicate KeepsDeadline(c: Cell, f: Family, d: int, now: int, op: Op) {
    match op
    case Set(_) => f != Strings
    case Incr => f == Strings ==> Numeric(c.str).Some?
    case Decr => f == Strings ==> Numeric(c.str).Some?
    case IncrBy(_) => f == Strings ==> Numeric(c.str).Some?
    case SRem(names) => f == Sets ==> !(MembersOf(c) <= SetOf(names))
    case Expire(seconds) => First(c) == Some(f) ==> DeadlineAfter(now, seconds) == d
    case _ => true
  }

  /** Until the deadline, one command leaves it in force exactly when `KeepsDeadline` says so. */
  lemma {:induction false} DeadlineKeptExactly(c: Cell, f: Family, d: int, now: int, op: Op)
    requires HasDeadline(c, f, d) && now <= d
    ensures HasDeadline(Step(c, now, op).0, f, d) <==> KeepsDeadline(c, f, d, now, op)
  {
    hide *;
    match op
    case Expire(seconds) => RetimingKeeps(c, f, d, now, seconds);
    case Ttl => LookingKeeps(c, f, d, now);
    case Incr => CountingKeeps(c, f, d, now, op);
    case Decr => CountingKeeps(c, f, d, now, op);
    case IncrBy(_) => CountingKeeps(c, f, d, now, op);
    case SRem(names) => ErasingKeeps(c, f, d, now, names);
    case _ => OthersKeep(c, f, d, now, op);
  }

  lemma {:induction false} CountingKeeps(c: Cell, f: Family, d: int, now: int, op: Op)
    requires HasDeadline(c, f, d) && now <= d && (op.Incr? || op.Decr? || op.IncrBy?)
    ensures HasDeadline(Step(c, now, op).0, f, d) <==> KeepsDeadline(c, f, d, now, op)
  {
    hide Wrap64, ToString, Stoll;
  }

  lemma {:induction false} ErasingKeeps(c: Cell, f: Family, d: int, now: int, names: seq<string>)
    requires HasDeadline(c, f, d) && now <= d
    ensures HasDeadline(Step(c, now, SRem(names)).0, f, d) <==> KeepsDeadline(c, f, d, now, SRem(names))
  {
    EmptyDifference(MembersOf(Purge(c, now)), SetOf(names));
  }

  lemma {:induction false} OthersKeep(c: Cell, f: Family, d: int, now: int, op: Op)
    requires HasDeadline(c, f, d) && now <= d
    requires !op.Incr? && !op.Decr? && !op.IncrBy? && !op.SRem? && !op.Expire? && !op.Ttl?
    ensures HasDeadline(Step(c, now, op).0, f, d) <==> KeepsDeadline(c, f, d, now, op)
  {
    hide Slice;
  }

  lemma EmptyDifference<T>(a: set<T>, b: set<T>)
    ensures a - b == {} <==> a <= b
  {
    if a - b == {} {
      forall x | x in a ensures x in b {
        assert x !in a - b;
      }
    }
  }

  lemma {:induction false} RetimingKeeps(c: Cell, f: Family, d: int, now: int, seconds: int)
    requires HasDeadline(c, f, d)
    ensures HasDeadline(Step(c, now, Expire(seconds)).0, f, d) <==> KeepsDeadline(c, f, d, now, Expire(seconds))
  {
    hide DeadlineAfter;
  }

  lemma {:induction false} LookingKeeps(c: Cell, f: Family, d: int, now: int)
    requires HasDeadline(c, f, d) && now <= d
    ensures HasDeadline(Step(c, now, Ttl).0, f, d) && KeepsDeadline(c, f, d, now, Ttl)
  {
    hide SecondsLeft;
  }

  ghost predicate AllKeepDeadline(c: Cell, f: Family, d: int, log: seq<Event>)
    decreases |log|
  {
    log == [] ||
    (KeepsDeadline(c, f, d, log[0].now, log[0].op)
     && AllKeepDeadline(Step(c, log[0].now, log[0].op).0, f, d, log[1..]))
  }

  ghost predicate DeadlineThroughout(c: Cell, f: Family, d: int, log: seq<Event>)
    decreases |log|
  {
    HasDeadline(c, f, d) &&
    (log == [] || DeadlineThroughout(Step(c, log[0].now, log[0].op).0, f, d, log[1..]))
  }

  predicate AllBy(log: seq<Event>, d: int) {
    forall i :: 0 <= i < |log| ==> log[i].now <= d
  }

  /** Over a run that ends by the deadline, the deadline stays in force throughout exactly when
      every command keeps it. */
  lemma {:induction false} DeadlineStable(c: Cell, f: Family, d: int, log: seq<Event>)
    requires HasDeadline(c, f, d) && AllBy(log, d)
    ensures DeadlineThroughout(c, f, d, log) <==> AllKeepDeadline(c, f, d, log)
    ensures DeadlineThroughout(c, f, d, log) ==> HasDeadline(CellFinal(c, log), f, d)
    decreases |log|
  {
    if log == [] {
    } else {
      hide Step, KeepsDeadline, HasDeadline;
      var e := log[0];
      DeadlineKeptExactly(c, f, d, e.now, e.op);
      if KeepsDeadline(c, f, d, e.now, e.op) {
        DeadlineStable(Step(c, e.now, e.op).0, f, d, log[1..]);
      }
    }
  }

  /** Whether a command that reads family `f` at time `t` finds the key. */
  predicate Visible(c: Cell, f: Family, t: int) {
    Has(Purge(c, t), f)
  }

  /** What TTL answers. */
  function TtlAnswer(c: Cell, t: int): int {
    TimeToLive(c, t).1.number
  }

  /** EXPIRE sets an exact deadline: after any commands that keep it, the key is found at `t` iff
      `t <= now + seconds * 10^9`, and TTL is the whole seconds left, then -2. A stale first
      family is revived like any other. */
  lemma {:induction false} DeadlineIsExact(c: Cell, f: Family, now: int, seconds: int, log: seq<Event>, t: int)
    requires First(c) == Some(f)
    requires 0 < now + seconds * NANOS_PER_SECOND <= INT64_MAX && 0 <= t
    requires var d := now + seconds * NANOS_PER_SECOND;
      AllBy(log, d) && AllKeepDeadline(Step(c, now, Expire(seconds)).0, f, d, log)
    ensures var d := now + seconds * NANOS_PER_SECOND;
      var last := CellFinal(Step(c, now, Expire(seconds)).0, log);
      && (Visible(last, f, t) <==> t <= d)
      && (First(last) == Some(f) ==>
            TtlAnswer(last, t) == if t <= d then (d - t) / NANOS_PER_SECOND else -2)
  {
    var d := now + seconds * NANOS_PER_SECOND;
    var first := Step(c, now, Expire(seconds)).0;
    assert DeadlineAfter(now, seconds) == d;
    assert HasDeadline(first, f, d);
    DeadlineStable(first, f, d, log);
    DeadlineIsSeen(CellFinal(first, log), f, d, t);
  }

  lemma {:induction false} DeadlineIsSeen(c: Cell, f: Family, d: int, t: int)
    requires HasDeadline(c, f, d) && 0 < d <= INT64_MAX && 0 <= t
    ensures Visible(c, f, t) <==> t <= d
    ensures First(c) == Some(f) ==> TtlAnswer(c, t) == if t <= d then (d - t) / NANOS_PER_SECOND else -2
  {
    if t <= d {
      assert InInt64(d - t);
      assert SecondsLeft(d, t) == (d - t) / NANOS_PER_SECOND;
    }
    hide SecondsLeft;
  }

  /** Seconds left never grow while the deadline stands. */
  lemma {:induction false} TtlNeverGrows(c: Cell, f: Family, d: int, t: int, u: int)
    requires HasDeadline(c, f, d) && First(c) == Some(f) && 0 < d <= INT64_MAX && 0 <= t <= u
    ensures TtlAnswer(c, u) <= TtlAnswer(c, t)
  {
    DeadlineIsSeen(c, f, d, t);
    DeadlineIsSeen(c, f, d, u);
    hide TtlAnswer;
  }

  // ---------- what EXPIRE and TTL reply and leave alone ----------

  /** EXPIRE and TTL look at strings, then hashes, then lists, then sets. */
  predicate NothingBefore(c: Cell, f: Family) {
    match f
    case Strings => true
    case Hashes => c.str.None?
    case Lists => c.str.None? && c.hash.None?
    case Sets => c.str.None? && c.hash.None? && c.list.None?
  }

  /** EXPIRE replies whether the key is there at all, keeps every content, and gives its deadline to the
      first family and to no other. */
  lemma {:induction false} ExpireChangesOneDeadline(c: Cell, now: int, seconds: int)
    ensures var (after, reply) := Step(c, now, Expire(seconds));
      && reply == Flag(c != EMPTY_CELL)
      && TextOf(after) == TextOf(c) && FieldsOf(after) == FieldsOf(c)
      && ListOf(after) == ListOf(c) && MembersOf(after) == MembersOf(c)
      && (forall f :: Has(after, f) <==> Has(c, f))
      && forall f :: Has(c, f) ==>
           (DeadlineOf(after, f) == if NothingBefore(c, f) then Some(DeadlineAfter(now, seconds)) else DeadlineOf(c, f))
  {
    hide DeadlineAfter;
  }

  /** TTL replies -2 for no key at all, -1 for a lasting first family and the whole seconds left for one
      with a deadline; it changes nothing, except that it drops a first family found stale. */
  lemma {:induction false} TtlLooksAtOneFamily(c: Cell, f: Family, now: int)
    requires Has(c, f) && NothingBefore(c, f)
    ensures Step(EMPTY_CELL, now, Ttl) == (EMPTY_CELL, Number(-2))
    ensures DeadlineOf(c, f) == None ==> Step(c, now, Ttl) == (c, Number(-1))
    ensures StaleIn(c, f, now) ==>
      var (after, reply) := Step(c, now, Ttl);
      reply == Number(-2) && !Has(after, f) && forall g :: g != f && Has(c, g) ==> Has(after, g)
    ensures !StaleIn(c, f, now) ==> Step(c, now, Ttl).0 == c
    ensures DeadlineOf(c, f).Some? && 0 <= DeadlineOf(c, f).value - now <= INT64_MAX && !StaleIn(c, f, now) ==>
      Step(c, now, Ttl).1 == Number((DeadlineOf(c, f).value - now) / 1_000_000_000)
    ensures DeadlineOf(c, f).Some? && 0 <= now - DeadlineOf(c, f).value <= INT64_MAX && !StaleIn(c, f, now) ==>
      Step(c, now, Ttl).1 == Number(-((now - DeadlineOf(c, f).value) / 1_000_000_000))
  {
    if DeadlineOf(c, f).Some? {
      var d := DeadlineOf(c, f).value;
      assert 0 <= d - now <= INT64_MAX ==> SecondsLeft(d, now) == (d - now) / NANOS_PER_SECOND;
      assert 0 <= now - d <= INT64_MAX ==> SecondsLeft(d, now) == -((now - d) / NANOS_PER_SECOND);
    }
    hide SecondsLeft;
  }

  // ---------- temporary bans ----------

  function BanKey(player: string): string {
    "ban:" + player
  }

  lemma {:induction false} BanKeysAreDistinct(a: string, b: string)
    ensures BanKey(a) == BanKey(b) <==> a == b
  {
    assert BanKey(a)[4..] == a && BanKey(b)[4..] == b;
  }

  /** The two commands `handleTempBanCommand` sends. */
  function BanCommands(player: string, seconds: int, setAt: int, expireAt: int): seq<Event> {
    [Event(setAt, BanKey(player), Set("true")), Event(expireAt, BanKey(player), Expire(seconds))]
  }

  /** `isPlayerBanned` reads the TTL reply. */
  predicate SaysBanned(reply: Reply) {
    reply.Number? && reply.number >= 0
  }

  predicate OnlyPolled(log: seq<Event>) {
    forall i :: 0 <= i < |log| ==> log[i].op == Ttl && 0 <= log[i].now
  }

  /** A cell holding only the ban flag, or nothing once a poll has found it expired. */
  predicate BanCell(c: Cell, d: int, from: int) {
    && c.hash == None && c.list == None && c.members == None
    && (c.str.Some? ==> c.str.value.deadline == Some(d))
    && (c.str.None? ==> d < from)
  }

  lemma {:induction false} PollsSeeTheDeadline(c: Cell, d: int, log: seq<Event>, from: int)
    requires BanCell(c, d, from) && 0 < d <= INT64_MAX && InOrder(log, from) && OnlyPolled(log)
    ensures |CellReplies(c, log)| == |log|
    ensures forall i :: 0 <= i < |log| ==> (SaysBanned(CellReplies(c, log)[i]) <==> log[i].now <= d)
    decreases |log|
  {
    if log == [] {
    } else {
      var e := log[0];
      if c.str.Some? {
        DeadlineIsSeen(c, Strings, d, e.now);
      }
      hide SecondsLeft;
      assert Step(c, e.now, e.op) == TimeToLive(c, e.now);
      PollsSeeTheDeadline(Step(c, e.now, e.op).0, d, log[1..], e.now);
    }
  }

  lemma {:induction false} ProjectKeepsOrder(log: seq<Event>, key: string, from: int)
    requires InOrder(log, from)
    ensures InOrder(Project(log, key), from)
    decreases |log|
  {
    if log == [] {
    } else {
      ProjectKeepsOrder(log[1..], key, log[0].now);
      var rest := Project(log[1..], key);
      if log[0].key == key {
        assert ([log[0]] + rest)[1..] == rest;
      } else {
        assert [] + rest == rest;
        assert rest == [] || rest[0].now >= log[0].now;
      }
    }
  }

  /** A temporary ban holds exactly until its deadline: whatever runs on other keys, however often
      the ban is polled, each poll says banned iff its clock reading is not past the deadline. */
  lemma {:induction false} BanHoldsUntilDeadline(
      s: Store, player: string, seconds: int, setAt: int, expireAt: int, log: seq<Event>)
    requires var d := expireAt + seconds * NANOS_PER_SECOND;
      0 < d <= INT64_MAX && 0 <= seconds && setAt <= expireAt
    requires var c := CellAt(s, BanKey(player)); c.hash == None && c.list == None && c.members == None
    requires InOrder(log, expireAt) && OnlyPolled(Project(log, BanKey(player)))
    ensures var d := expireAt + seconds * NANOS_PER_SECOND;
      var polls := Project(log, BanKey(player));
      var replies := RepliesFor(Final(s, BanCommands(player, seconds, setAt, expireAt)), log, BanKey(player));
      |replies| == |polls| && forall i :: 0 <= i < |polls| ==> (SaysBanned(replies[i]) <==> polls[i].now <= d)
  {
    var key := BanKey(player);
    var commands := BanCommands(player, seconds, setAt, expireAt);
    var d := expireAt + seconds * NANOS_PER_SECOND;
    RunsAreLocal(s, commands, key);
    BothCommandsAreOnTheKey(player, seconds, setAt, expireAt);
    BanCommandsLeaveBanCell(CellAt(s, key), player, seconds, setAt, expireAt);
    RunsAreLocal(Final(s, commands), log, key);
    ProjectKeepsOrder(log, key, expireAt);
    hide CellFinal, CellReplies, Project;
    PollsSeeTheDeadline(CellFinal(CellAt(s, key), commands), d, Project(log, key), expireAt);
  }

  /** Banning one player changes nothing for another: the other's ban key holds what it held, and every poll
      of it in any later run gets the same reply. */
  lemma {:induction false} BansAreIndependent(
      s: Store, player: string, other: string, seconds: int, setAt: int, expireAt: int, log: seq<Event>)
    requires player != other
    ensures var after := Final(s, BanCommands(player, seconds, setAt, expireAt));
      && CellAt(after, BanKey(other)) == CellAt(s, BanKey(other))
      && RepliesFor(after, log, BanKey(other)) == RepliesFor(s, log, BanKey(other))
  {
    var commands, key := BanCommands(player, seconds, setAt, expireAt), BanKey(other);
    BanKeysAreDistinct(player, other);
    assert commands[1..] == [commands[1]] && [commands[1]][1..] == [];
    assert Project([commands[1]], key) == [];
    assert Project(commands, key) == [];
    RunsAreLocal(s, commands, key);
    RunsAreLocal(s, log, key);
    RunsAreLocal(Final(s, commands), log, key);
    hide Step;
  }

  lemma {:induction false} BothCommandsAreOnTheKey(player: string, seconds: int, setAt: int, expireAt: int)
    ensures var commands := BanCommands(player, seconds, setAt, expireAt);
      Project(commands, BanKey(player)) == commands
  {
    var commands := BanCommands(player, seconds, setAt, expireAt);
    assert commands[1..] == [commands[1]];
    assert Project(commands[1..], BanKey(player)) == [commands[1]];
  }

  lemma {:induction false} BanCommandsLeaveBanCell(c: Cell, player: string, seconds: int, setAt: int, expireAt: int)
    requires c.hash == None && c.list == None && c.members == None
    requires InInt64(expireAt + seconds * NANOS_PER_SECOND)
    ensures var d := expireAt + seconds * NANOS_PER_SECOND;
      BanCell(CellFinal(c, BanCommands(player, seconds, setAt, expireAt)), d, expireAt)
  {
    var commands := BanCommands(player, seconds, setAt, expireAt);
    var flagged := Step(c, setAt, Set("true")).0;
    assert commands[1..] == [commands[1]];
    assert CellFinal(c, commands) == CellFinal(flagged, [commands[1]]) == Step(flagged, expireAt, Expire(seconds)).0;
    assert DeadlineAfter(expireAt, seconds) == expireAt + seconds * NANOS_PER_SECOND;
  }
}
