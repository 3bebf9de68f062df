/** What reads reply, told from the history of writes alone: the last write to a key, a field or a member
    decides, lists are queues. Logs are one key's own commands, as in `Histories`; deadlines may come and
    go, as long as no command before the read finds the entry stale. */
module LastWrites {
  import opened Prelude
  import opened Decimal
  import opened Keyspace
  import opened Locality
  import opened Histories
  import opened ListRange
  import opened Deadlines

  /** The value of the last SET. */
  function LastSet(log: seq<Event>): Option<string> {
    if log == [] then None
    else
      var later := LastSet(log[1..]);
      if later == None && log[0].op.Set? then Some(log[0].op.value) else later
  }

  /** The value of the last HSET on `field`. */
  function LastHSet(log: seq<Event>, field: string): Option<string> {
    if log == [] then None
    else
      var later := LastHSet(log[1..], field);
      if later == None && log[0].op.HSet? && log[0].op.field == field then Some(log[0].op.value) else later
  }

  /** Whether the last SADD or SREM that mentions `name` added it. */
  function LastVerdict(log: seq<Event>, name: string): Option<bool> {
    if log == [] then None
    else
      var later := LastVerdict(log[1..], name);
      if later == None && log[0].op.SAdd? && name in log[0].op.members then Some(true)
      else if later == None && log[0].op.SRem? && name in log[0].op.members then Some(false)
      else later
  }

  function OrElse<T>(first: Option<T>, second: Option<T>): Option<T> {
    if first.Some? then first else second
  }

  function FieldOf(c: Cell, field: string): Option<string> {
    if field in FieldsOf(c) then Some(FieldsOf(c)[field]) else None
  }

  predicate NoCounting(log: seq<Event>) {
    forall i :: 0 <= i < |log| ==> !Counts(log[i].op)
  }

  // ---------- strings ----------

  lemma {:induction false} TextStep(c: Cell, e: Event)
    requires Survives(c, Strings, e) && !Counts(e.op)
    ensures TextOf(After(c, e)) == if e.op.Set? then Some(e.op.value) else TextOf(c)
  {
    if !e.op.Set? {
      OthersKeepText(c, e);
    }
  }

  /** GET replies with the last SET of the run, or what was there, or nothing once it is stale. */
  lemma {:induction false} GetReturnsLastSet(c: Cell, log: seq<Event>, now: int)
    requires NeverStale(c, Strings, log) && NoCounting(log)
    ensures Step(CellFinal(c, log), now, Get).1 == Text(
      if StaleIn(CellFinal(c, log), Strings, now) then None else OrElse(LastSet(log), TextOf(c)))
    decreases |log|
  {
    if log == [] {
    } else {
      hide Step, Survives, StaleIn, TextOf;
      TextStep(c, log[0]);
      GetReturnsLastSet(After(c, log[0]), log[1..], now);
    }
  }

  lemma {:induction false} FinalOfBoth(c: Cell, a: seq<Event>, b: seq<Event>)
    ensures CellFinal(c, a + b) == CellFinal(CellFinal(c, a), b)
    decreases |a|
  {
    if a == [] {
      assert a + b == b;
    } else {
      assert (a + b)[0] == a[0] && (a + b)[1..] == a[1..] + b;
      hide Step;
      FinalOfBoth(After(c, a[0]), a[1..], b);
    }
  }

  /** The number that counter commands start from after SET. */
  function NumberIn(text: string): int {
    if Stoll(text).Some? then Stoll(text).value else 0
  }

  /** After a SET, counters included: whatever was there and whatever ran before, with or without expiry,
      GET replies with the value of the last SET, or its number plus all increments since. */
  lemma {:induction false} GetAfterSet(c: Cell, before: seq<Event>, write: Event, after: seq<Event>, now: int)
    requires write.op.Set? && NeverStale(After(CellFinal(c, before), write), Strings, after)
    requires NoSet(after) && InRangeIncrements(after)
    ensures var last := CellFinal(c, before + [write] + after);
      var sum := Wrap64(NumberIn(write.op.value) + Increments(after));
      Step(last, now, Get).1 == Text(
        if StaleIn(last, Strings, now) then None
        else Some(if SomeCounting(after) then ToString(sum) else write.op.value))
  {
    hide Wrap64, ToString, Stoll, Increments;
    var mid := After(CellFinal(c, before), write);
    FinalOfBoth(c, before + [write], after);
    FinalOfBoth(c, before, [write]);
    assert [write][1..] == [];
    assert mid.str == Lasting(write.op.value);
    if SomeCounting(after) {
      CounterConservation(mid, after);
      CounterTextIsCanonical(mid, after);
    } else {
      KeepsText(mid, after);
    }
    hide NeverStale, CellFinal, SomeCounting;
  }

  // ---------- hashes ----------

  lemma {:induction false} FieldStep(c: Cell, e: Event, field: string)
    requires Survives(c, Hashes, e)
    ensures FieldOf(After(c, e), field) ==
      if e.op.HSet? && e.op.field == field then Some(e.op.value) else FieldOf(c, field)
  {
    hide Wrap64, ToString, Stoll, Slice, SecondsLeft;
  }

  lemma {:induction false} FieldsFollowLastHSet(c: Cell, log: seq<Event>, field: string)
    requires NeverStale(c, Hashes, log)
    ensures FieldOf(CellFinal(c, log), field) == OrElse(LastHSet(log, field), FieldOf(c, field))
    decreases |log|
  {
    if log == [] {
    } else {
      hide Step, Survives, FieldOf;
      FieldStep(c, log[0], field);
      FieldsFollowLastHSet(After(c, log[0]), log[1..], field);
    }
  }

  /** HGET replies with the last HSET on that field, or what was there: other fields do not interfere. */
  lemma {:induction false} HGetReturnsLastHSet(c: Cell, log: seq<Event>, field: string, now: int)
    requires NeverStale(c, Hashes, log)
    ensures Step(CellFinal(c, log), now, HGet(field)).1 == Text(
      if StaleIn(CellFinal(c, log), Hashes, now) then None else OrElse(LastHSet(log, field), FieldOf(c, field)))
  {
    FieldsFollowLastHSet(c, log, field);
    hide NeverStale, CellFinal, LastHSet;
  }

  /** HGETALL replies with exactly the fields that were ever set or there before, each with its last value. */
  lemma {:induction false} HGetAllReturnsLastHSets(c: Cell, log: seq<Event>, now: int)
    requires NeverStale(c, Hashes, log)
    ensures var reply := Step(CellFinal(c, log), now, HGetAll).1;
      && reply.Fields?
      && forall f :: (if f in reply.fields then Some(reply.fields[f]) else None) ==
           if StaleIn(CellFinal(c, log), Hashes, now) then None else OrElse(LastHSet(log, f), FieldOf(c, f))
  {
    forall f {
      FieldsFollowLastHSet(c, log, f);
    }
    hide NeverStale, CellFinal, LastHSet;
  }

  // ---------- lists ----------

  /** What the commands of the log leave in the queue, told from the log. */
  function QueueLeft(c: Cell, log: seq<Event>): seq<string> {
    var all, gone := Pushed(log) + ListOf(c), Pops(log, |ListOf(c)|);
    if gone <= |all| then all[..|all| - gone] else []
  }

  lemma {:induction false} ListReplies(c: Cell, now: int, batch: seq<string>, start: int, end: int)
    ensures var list := if StaleIn(c, Lists, now) then [] else ListOf(c);
      && Step(c, now, RPop).1 == Text(if list == [] then None else Some(list[|list| - 1]))
      && Step(c, now, LPush(batch)).1 == Number(|batch| + |list|)
      && Step(c, now, LRange(start, end)).1 == Items(Slice(list, start, end))
  {
    hide Slice;
    assert ListOf(Purge(c, now)) == if StaleIn(c, Lists, now) then [] else ListOf(c);
    hide Purge, ListOf;
  }

  /** RPOP replies with the oldest element that is left, LPUSH with how many are left and pushed, and
      LRANGE with the left ones that its indices show. */
  lemma {:induction false} ListRepliesFollowQueue(
      c: Cell, log: seq<Event>, now: int, batch: seq<string>, start: int, end: int)
    requires NeverStale(c, Lists, log)
    ensures var last := CellFinal(c, log);
      var left := if StaleIn(last, Lists, now) then [] else QueueLeft(c, log);
      && Step(last, now, RPop).1 == Text(if left == [] then None else Some(left[|left| - 1]))
      && Step(last, now, LPush(batch)).1 == Number(|batch| + |left|)
      && Step(last, now, LRange(start, end)).1 == Items(Shown(left, start, end, |left|))
  {
    hide NeverStale, CellFinal, Pops, Pushed, Slice, Shown, Popped, Step, StaleIn, ListOf;
    ListIsAQueue(c, log);
    var left := if StaleIn(CellFinal(c, log), Lists, now) then [] else QueueLeft(c, log);
    SliceIsShown(left, start, end);
    ListReplies(CellFinal(c, log), now, batch, start, end);
  }

  // ---------- sets ----------

  /** Whether `name` is a member after `e`, given whether it was before. */
  predicate MemberAfter(e: Event, name: string, before: bool) {
    if e.op.SAdd? && name in e.op.members then true
    else if e.op.SRem? && name in e.op.members then false
    else before
  }

  predicate TracksMember(c: Cell, e: Event, name: string) {
    name in MembersOf(After(c, e)) <==> MemberAfter(e, name, name in MembersOf(c))
  }

  lemma {:induction false} AddingTracksMember(c: Cell, e: Event, name: string)
    requires Survives(c, Sets, e) && e.op.SAdd?
    ensures TracksMember(c, e, name)
  {
    assert Purge(c, e.now).members == c.members;
    hide Purge;
  }

  lemma {:induction false} RemovingTracksMember(c: Cell, e: Event, name: string)
    requires Survives(c, Sets, e) && e.op.SRem?
    ensures TracksMember(c, e, name)
  {
    assert Purge(c, e.now).members == c.members;
    hide Purge;
    var left := MembersOf(c) - SetOf(e.op.members);
    assert name in left ==> left != {};
  }

  lemma {:induction false} OthersTrackMember(c: Cell, e: Event, name: string)
    requires Survives(c, Sets, e) && !e.op.SAdd? && !e.op.SRem?
    ensures TracksMember(c, e, name)
  {
    SetStep(c, e);
    hide Step;
  }

  lemma {:induction false} MemberStep(c: Cell, e: Event, name: string)
    requires Survives(c, Sets, e)
    ensures TracksMember(c, e, name)
  {
    hide *;
    if e.op.SAdd? {
      AddingTracksMember(c, e, name);
    } else if e.op.SRem? {
      RemovingTracksMember(c, e, name);
    } else {
      OthersTrackMember(c, e, name);
    }
  }

  lemma {:induction false} MembersFollowVerdicts(c: Cell, log: seq<Event>, name: string)
    requires NeverStale(c, Sets, log)
    ensures name in MembersOf(CellFinal(c, log))
       <==> OrElse(LastVerdict(log, name), Some(name in MembersOf(c))).value
    decreases |log|
  {
    if log == [] {
    } else {
      hide Step, Survives, MembersOf;
      MemberStep(c, log[0], name);
      MembersFollowVerdicts(After(c, log[0]), log[1..], name);
    }
  }

  /** SISMEMBER follows the last SADD or SREM that mentions the member, or what was there. */
  lemma {:induction false} MembershipFollowsLastVerdict(c: Cell, log: seq<Event>, name: string, now: int)
    requires NeverStale(c, Sets, log)
    ensures Step(CellFinal(c, log), now, SIsMember(name)).1 == Flag(
      !StaleIn(CellFinal(c, log), Sets, now) && OrElse(LastVerdict(log, name), Some(name in MembersOf(c))).value)
  {
    MembersFollowVerdicts(c, log, name);
    hide NeverStale, CellFinal, LastVerdict;
  }

  /** SMEMBERS replies with exactly the names whose last verdict is in favour, and SCARD with the balance
      of the replies to SADD and SREM. */
  lemma {:induction false} SetRepliesFollowVerdicts(c: Cell, log: seq<Event>, now: int)
    requires NeverStale(c, Sets, log)
    ensures var last := CellFinal(c, log);
      var reply := Step(last, now, SMembers).1;
      && reply.Members?
      && (forall name :: name in reply.names <==>
            (!StaleIn(last, Sets, now) && OrElse(LastVerdict(log, name), Some(name in MembersOf(c))).value))
      && Step(last, now, SCard).1 == Number(
           if StaleIn(last, Sets, now) then 0
           else |MembersOf(c)| + NetAdded(c, log) - CreationDuplicates(c, log))
  {
    forall name {
      MembersFollowVerdicts(c, log, name);
    }
    SetConservation(c, log);
    hide NeverStale, CellFinal, LastVerdict, NetAdded, CreationDuplicates;
  }

  // ---------- reads under a deadline ----------

  lemma {:induction false} KeptDeadlinesAreNeverPassed(c: Cell, f: Family, d: int, log: seq<Event>)
    requires HasDeadline(c, f, d) && AllBy(log, d) && AllKeepDeadline(c, f, d, log)
    ensures NeverStale(c, f, log)
    decreases |log|
  {
    if log == [] {
    } else {
      var e := log[0];
      assert Survives(c, f, e);
      hide Step, KeepsDeadline, HasDeadline, Survives;
      DeadlineKeptExactly(c, f, d, e.now, e.op);
      KeptDeadlinesAreNeverPassed(After(c, e), f, d, log[1..]);
    }
  }

  /** EXPIRE on the first family, then any commands that keep its deadline: the family is never stale on
      the way, and stale at `t` exactly when the deadline has passed. */
  lemma {:induction false} ExpiryDecides(c: Cell, f: Family, e: Event, log: seq<Event>, t: int)
    requires First(c) == Some(f) && e.op.Expire?
    requires var d := e.now + e.op.seconds * NANOS_PER_SECOND;
      0 < d <= INT64_MAX && AllBy(log, d) && AllKeepDeadline(After(c, e), f, d, log)
    ensures NeverStale(c, f, [e] + log)
    ensures StaleIn(CellFinal(c, [e] + log), f, t) <==> t > e.now + e.op.seconds * NANOS_PER_SECOND
  {
    var d := e.now + e.op.seconds * NANOS_PER_SECOND;
    assert DeadlineAfter(e.now, e.op.seconds) == d;
    assert ([e] + log)[0] == e && ([e] + log)[1..] == log;
    assert HasDeadline(After(c, e), f, d);
    KeptDeadlinesAreNeverPassed(After(c, e), f, d, log);
    hide Step, KeepsDeadline, DeadlineAfter;
    DeadlineStable(After(c, e), f, d, log);
  }

  /** What reads reply under a deadline, for the family that EXPIRE acted on: until it, what the writes
      left; afterwards nothing. */
  lemma {:induction false} ReadsUnderDeadline(c: Cell, f: Family, e: Event, log: seq<Event>, t: int, name: string)
    requires First(c) == Some(f) && e.op.Expire?
    requires var d := e.now + e.op.seconds * NANOS_PER_SECOND;
      0 < d <= INT64_MAX && AllBy(log, d) && AllKeepDeadline(After(c, e), f, d, log)
    ensures var last, run := CellFinal(c, [e] + log), [e] + log;
      var alive := t <= e.now + e.op.seconds * NANOS_PER_SECOND;
      match f
      case Strings => NoCounting(log) ==>
        Step(last, t, Get).1 == Text(if alive then OrElse(LastSet(run), TextOf(c)) else None)
      case Hashes =>
        Step(last, t, HGet(name)).1 == Text(if alive then OrElse(LastHSet(run, name), FieldOf(c, name)) else None)
      case Lists =>
        var left := if alive then QueueLeft(c, run) else [];
        Step(last, t, RPop).1 == Text(if left == [] then None else Some(left[|left| - 1]))
      case Sets =>
        Step(last, t, SIsMember(name)).1
          == Flag(alive && OrElse(LastVerdict(run, name), Some(name in MembersOf(c))).value)
  {
    hide Step, NeverStale, CellFinal, StaleIn, AllKeepDeadline, LastSet, LastHSet, LastVerdict, QueueLeft;
    ExpiryDecides(c, f, e, log, t);
    match f
    case Strings =>
      if NoCounting(log) {
        GetReturnsLastSet(c, [e] + log, t);
      }
    case Hashes => HGetReturnsLastHSet(c, [e] + log, name, t);
    case Lists => ListRepliesFollowQueue(c, [e] + log, t, [], 0, 0);
    case Sets => MembershipFollowsLastVerdict(c, [e] + log, name, t);
  }

  /** SET, then EXPIRE, then anything that leaves the string and its deadline alone: GET replies with the
      value until the deadline, whatever the key was before, and with nothing afterwards. */
  lemma {:induction false} GetUnderDeadline(c: Cell, write: Event, expire: Event, log: seq<Event>, t: int)
    requires write.op.Set? && expire.op.Expire? && NoSet(log) && NoCounting(log)
    requires var d := expire.now + expire.op.seconds * 1_000_000_000;
      && 0 < d <= INT64_MAX && AllBy(log, d)
      && AllKeepDeadline(After(After(c, write), expire), Strings, d, log)
    ensures var d := expire.now + expire.op.seconds * 1_000_000_000;
      Step(CellFinal(After(c, write), [expire] + log), t, Get).1
        == Text(if t <= d then Some(write.op.value) else None)
  {
    var mid := After(c, write);
    assert First(mid) == Some(Strings) && TextOf(mid) == Some(write.op.value);
    hide Step, First, AllKeepDeadline, CellFinal, TextOf, LastSet;
    ReadsUnderDeadline(mid, Strings, expire, log, t, "");
    NoSetMeansNone([expire] + log);
  }

  lemma {:induction false} NoSetMeansNone(log: seq<Event>)
    requires NoSet(log)
    ensures LastSet(log) == None
  {
    if log == [] {
    } else {
      NoSetMeansNone(log[1..]);
    }
  }
}
