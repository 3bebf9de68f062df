/** Conservation over whole runs of the commands on one key, with or without deadlines. The logs are
    those `Locality.Project` yields, so by `Locality.RunsAreLocal` the laws hold inside any run of the
    whole store. */
module Histories {
  import opened Prelude
  import opened Decimal
  import opened Keyspace
  import opened Locality

  predicate NoExpire(log: seq<Event>) {
    forall i :: 0 <= i < |log| ==> !log[i].op.Expire?
  }

  predicate NoSet(log: seq<Event>) {
    forall i :: 0 <= i < |log| ==> !log[i].op.Set?
  }

  predicate Permanent<T>(entry: Option<Entry<T>>) {
    entry.Some? ==> entry.value.deadline == None
  }

  function After(c: Cell, e: Event): Cell {
    Step(c, e.now, e.op).0
  }

  function Answer(c: Cell, e: Event): Reply {
    Step(c, e.now, e.op).1
  }

  // ---------- entries that are never found stale ----------

  /** The key is in family `f` and its deadline there has passed. */
  predicate StaleIn(c: Cell, f: Family, now: int) {
    Has(c, f) && Overdue(DeadlineOf(c, f), now)
  }

  /** A stale entry counts as absent: every command but EXPIRE and TTL does and replies what it would
      without it. */
  lemma {:induction false} StaleIsAbsent(c: Cell, f: Family, now: int, op: Op)
    requires StaleIn(c, f, now) && !op.Expire? && !op.Ttl?
    ensures Step(c, now, op) == Step(Without(c, f), now, op)
  {
    assert Purge(c, now) == Purge(Without(c, f), now);
    hide Purge, Touch;
  }

  /** `e` does not find family `f` stale, or is EXPIRE, which does not mind. */
  predicate Survives(c: Cell, f: Family, e: Event) {
    e.op.Expire? || !StaleIn(c, f, e.now)
  }

  /** The family is never dropped for its deadline, although EXPIRE may set and move deadlines at will. */
  ghost predicate NeverStale(c: Cell, f: Family, log: seq<Event>)
    decreases |log|
  {
    log == [] || (Survives(c, f, log[0]) && NeverStale(After(c, log[0]), f, log[1..]))
  }

  /** No command invents a deadline: it is the old one, or the one that EXPIRE sets, or none. */
  lemma {:induction false} DeadlineComesFrom(c: Cell, f: Family, e: Event)
    requires Has(After(c, e), f)
    ensures var d := DeadlineOf(After(c, e), f);
      || d == None || (Has(c, f) && d == DeadlineOf(c, f))
      || (e.op.Expire? && d == Some(DeadlineAfter(e.now, e.op.seconds)))
  {
    hide Wrap64, ToString, Stoll, Slice, SecondsLeft, DeadlineAfter;
  }

  /** What a caller can check: no deadline, neither the present one nor any that EXPIRE sets, passes
      before `until`, and nothing runs later. */
  predicate InTime(c: Cell, f: Family, log: seq<Event>, until: int) {
    && !StaleIn(c, f, until)
    && (forall i :: 0 <= i < |log| ==> log[i].now <= until)
    && (forall i :: 0 <= i < |log| && log[i].op.Expire? ==>
          !IsExpired(DeadlineAfter(log[i].now, log[i].op.seconds), until))
  }

  lemma {:induction false} InTimeIsNeverStale(c: Cell, f: Family, log: seq<Event>, until: int)
    requires InTime(c, f, log, until)
    ensures NeverStale(c, f, log) && !StaleIn(CellFinal(c, log), f, until)
    decreases |log|
  {
    if log == [] {
    } else {
      hide Step, DeadlineAfter;
      if Has(After(c, log[0]), f) {
        DeadlineComesFrom(c, f, log[0]);
      }
      InTimeIsNeverStale(After(c, log[0]), f, log[1..], until);
    }
  }

  /** Lasting entries are never stale as long as EXPIRE is not used. */
  lemma {:induction false} LastingIsNeverStale(c: Cell, f: Family, log: seq<Event>, now: int)
    requires (Has(c, f) ==> DeadlineOf(c, f) == None) && NoExpire(log)
    ensures NeverStale(c, f, log) && !StaleIn(CellFinal(c, log), f, now)
    decreases |log|
  {
    if log == [] {
    } else {
      hide Step;
      if Has(After(c, log[0]), f) {
        DeadlineComesFrom(c, f, log[0]);
      }
      LastingIsNeverStale(After(c, log[0]), f, log[1..], now);
    }
  }

  // ---------- lists ----------

  /** The pushed batches, latest first. */
  function Pushed(log: seq<Event>): seq<string> {
    if log == [] then []
    else Pushed(log[1..]) + (if log[0].op.LPush? then log[0].op.values else [])
  }

  function PoppedBy(c: Cell, e: Event): seq<string> {
    if e.op.RPop? && Answer(c, e) != Text(None) then [Answer(c, e).text.value] else []
  }

  /** The values that RPOP handed out, in time order. */
  function Popped(c: Cell, log: seq<Event>): seq<string>
    decreases |log|
  {
    if log == [] then [] else PoppedBy(c, log[0]) + Popped(After(c, log[0]), log[1..])
  }

  lemma {:induction false} ListStep(c: Cell, e: Event)
    requires Survives(c, Lists, e)
    ensures Permanent(c.list) && !e.op.Expire? ==> Permanent(After(c, e).list)
    ensures ListOf(After(c, e)) + PoppedBy(c, e) == (if e.op.LPush? then e.op.values else []) + ListOf(c)
  {
  }

  /** Nothing is lost, duplicated or reordered: over any run that never finds the list stale, what is
      left followed by the popped values, latest first, is what was pushed followed by what was there. */
  lemma {:induction false} ListConservation(c: Cell, log: seq<Event>)
    requires NeverStale(c, Lists, log)
    ensures Permanent(c.list) && NoExpire(log) ==> Permanent(CellFinal(c, log).list)
    ensures ListOf(CellFinal(c, log)) + Reverse(Popped(c, log)) == Pushed(log) + ListOf(c)
    decreases |log|
  {
    if log == [] {
    } else {
      hide Step, ListOf, Survives;
      var d, one, rest := After(c, log[0]), PoppedBy(c, log[0]), Popped(After(c, log[0]), log[1..]);
      var batch := if log[0].op.LPush? then log[0].op.values else [];
      ListStep(c, log[0]);
      ListConservation(d, log[1..]);
      ReverseAppend(one, rest);
      Regroup(ListOf(CellFinal(c, log)), Reverse(rest), one, Pushed(log[1..]), ListOf(d), batch, ListOf(c));
    }
  }

  lemma {:induction false} ReverseAppend<T>(one: seq<T>, rest: seq<T>)
    requires |one| <= 1
    ensures Reverse(one + rest) == Reverse(rest) + one
  {
    if one == [] {
      assert one + rest == rest;
    } else {
      assert (one + rest)[1..] == rest;
    }
  }

  lemma Regroup<T>(left: seq<T>, popped: seq<T>, one: seq<T>, pushed: seq<T>, mid: seq<T>, batch: seq<T>, init: seq<T>)
    requires left + popped == pushed + mid && mid + one == batch + init
    ensures left + (popped + one) == (pushed + batch) + init
  {
    assert left + (popped + one) == (left + popped) + one == pushed + (mid + one);
    assert pushed + (batch + init) == (pushed + batch) + init;
  }

  lemma {:induction false} ReverseLength<T>(s: seq<T>)
    ensures |Reverse(s)| == |s|
  {
    if s == [] {
    } else {
      ReverseLength(s[1..]);
    }
  }

  /** Every LPUSH reply is the initial length plus everything pushed minus everything popped. */
  lemma {:induction false} PushRepliesCount(c: Cell, log: seq<Event>, now: int, batch: seq<string>)
    requires NeverStale(c, Lists, log) && !StaleIn(CellFinal(c, log), Lists, now)
    ensures Step(CellFinal(c, log), now, LPush(batch)).1
         == Number(|ListOf(c)| + |Pushed(log)| + |batch| - |Popped(c, log)|)
  {
    ListConservation(c, log);
    ReverseLength(Popped(c, log));
    assert |ListOf(CellFinal(c, log)) + Reverse(Popped(c, log))| == |Pushed(log) + ListOf(c)|;
  }

  /** How many RPOPs of the log find an element, starting from `held` elements: told from the log alone. */
  function Pops(log: seq<Event>, held: nat): (n: nat) {
    if log == [] then 0
    else if log[0].op.LPush? then Pops(log[1..], held + |log[0].op.values|)
    else if log[0].op.RPop? && held > 0 then 1 + Pops(log[1..], held - 1)
    else Pops(log[1..], held)
  }

  lemma {:induction false} ListLengthStep(c: Cell, e: Event)
    requires Survives(c, Lists, e)
    ensures |PoppedBy(c, e)| == if e.op.RPop? && ListOf(c) != [] then 1 else 0
    ensures |ListOf(After(c, e))| + |PoppedBy(c, e)| == |ListOf(c)| + if e.op.LPush? then |e.op.values| else 0
  {
    ListStep(c, e);
    assert |ListOf(After(c, e)) + PoppedBy(c, e)| == |(if e.op.LPush? then e.op.values else []) + ListOf(c)|;
    hide SetExpiry, TimeToLive, Slice;
  }

  /** RPOP answers a value whenever there is one. */
  lemma {:induction false} PopsHappen(c: Cell, log: seq<Event>)
    requires NeverStale(c, Lists, log)
    ensures |Popped(c, log)| == Pops(log, |ListOf(c)|)
    decreases |log|
  {
    if log == [] {
    } else {
      hide Step, ListOf, PoppedBy, Survives;
      ListLengthStep(c, log[0]);
      PopsHappen(After(c, log[0]), log[1..]);
    }
  }

  lemma {:induction false} ReverseAt<T>(s: seq<T>, i: nat)
    requires i < |s|
    ensures |Reverse(s)| == |s| && Reverse(s)[i] == s[|s| - 1 - i]
  {
    ReverseLength(s);
    if i == |s| - 1 {
    } else {
      ReverseAt(s[1..], i);
    }
  }

  /** First in, first out: of everything ever pushed, latest first, followed by what was there, the RPOPs
      that find an element take the last ones, in order, and the list is the rest. */
  lemma {:induction false} ListIsAQueue(c: Cell, log: seq<Event>)
    requires NeverStale(c, Lists, log)
    ensures var all, gone := Pushed(log) + ListOf(c), Pops(log, |ListOf(c)|);
      && gone <= |all| && ListOf(CellFinal(c, log)) == all[..|all| - gone]
      && |Popped(c, log)| == gone && forall i :: 0 <= i < gone ==> Popped(c, log)[i] == all[|all| - 1 - i]
  {
    hide CellFinal, ListOf, Pushed;
    ListConservation(c, log);
    PopsHappen(c, log);
    var all, popped, left := Pushed(log) + ListOf(c), Popped(c, log), ListOf(CellFinal(c, log));
    ReverseLength(popped);
    assert all == left + Reverse(popped);
    forall i | 0 <= i < |popped| ensures popped[i] == all[|all| - 1 - i] {
      ReverseAt(popped, |popped| - 1 - i);
      assert all[|all| - 1 - i] == Reverse(popped)[|popped| - 1 - i];
    }
    hide Reverse, Popped;
  }

  // ---------- sets ----------

  /** SADD replies minus SREM replies. */
  function NetAdded(c: Cell, log: seq<Event>): int
    decreases |log|
  {
    if log == [] then 0
    else
      (if log[0].op.SAdd? then Answer(c, log[0]).number
       else if log[0].op.SRem? then -Answer(c, log[0]).number
       else 0) + NetAdded(After(c, log[0]), log[1..])
  }

  /** Repeated members inside the batches that created the set; the server counts them as added. */
  function CreationDuplicates(c: Cell, log: seq<Event>): int
    decreases |log|
  {
    if log == [] then 0
    else
      (if log[0].op.SAdd? && c.members == None then |log[0].op.members| - |SetOf(log[0].op.members)| else 0)
      + CreationDuplicates(After(c, log[0]), log[1..])
  }

  /** Cardinality is the replies' balance, less the duplicates of key-creating batches. */
  lemma {:induction false} SetConservation(c: Cell, log: seq<Event>)
    requires NeverStale(c, Sets, log)
    ensures |MembersOf(CellFinal(c, log))| == |MembersOf(c)| + NetAdded(c, log) - CreationDuplicates(c, log)
    decreases |log|
  {
    if log == [] {
    } else {
      var e := log[0];
      SetStep(c, e);
      SetConservation(After(c, e), log[1..]);
    }
  }

  lemma {:induction false} SetStep(c: Cell, e: Event)
    requires Survives(c, Sets, e)
    ensures Permanent(c.members) && !e.op.Expire? ==> Permanent(After(c, e).members)
    ensures match e.op
      case SAdd(names) =>
        |MembersOf(After(c, e))| == |MembersOf(c)| + Answer(c, e).number
          - (if c.members == None then |names| - |SetOf(names)| else 0)
      case SRem(names) => |MembersOf(After(c, e))| == |MembersOf(c)| - Answer(c, e).number
      case _ => MembersOf(After(c, e)) == MembersOf(c)
  {
    if e.op.SAdd? && c.members == None {
      assert {} + SetOf(e.op.members) == SetOf(e.op.members);
    }
  }

  lemma {:induction false} SetOfBound<T(!new)>(s: seq<T>)
    ensures |SetOf(s)| <= |s|
    ensures s != [] ==> SetOf(s) != {}
  {
    if s == [] {
    } else {
      SetOfBound(s[1..]);
      assert SetOf(s) == {s[0]} + SetOf(s[1..]);
    }
  }

  predicate NoRepeats(names: seq<string>) {
    forall i, j :: 0 <= i < j < |names| ==> names[i] != names[j]
  }

  lemma {:induction false} RepeatsShrinkTheSet(names: seq<string>)
    ensures |SetOf(names)| == |names| <==> NoRepeats(names)
    ensures |SetOf(names)| <= |names|
  {
    if names == [] {
    } else {
      var head, rest := names[0], names[1..];
      RepeatsShrinkTheSet(rest);
      assert SetOf(names) == {head} + SetOf(rest);
      if head in rest {
        assert SetOf(names) == SetOf(rest);
        var j :| 0 <= j < |rest| && rest[j] == head;
        assert names[j + 1] == names[0];
      } else {
        assert forall i, j :: 0 <= i < j < |rest| ==> rest[i] == names[i + 1] && rest[j] == names[j + 1];
        assert forall j :: 1 <= j < |names| ==> names[j] == rest[j - 1];
      }
    }
  }

  /** SADD replies with the number of members that were really added exactly when the set existed
      or the batch names nobody twice. */
  lemma {:induction false} SAddReplyIsExact(c: Cell, now: int, names: seq<string>)
    ensures var (after, reply) := Step(c, now, SAdd(names)); var before := Purge(c, now);
      reply.number == |MembersOf(after)| - |MembersOf(before)| <==> before.members.Some? || NoRepeats(names)
  {
    RepeatsShrinkTheSet(names);
    assert {} + SetOf(names) == SetOf(names);
    hide NoRepeats;
  }

  /** SADD batches that carry at least one member, as the parser guarantees. */
  predicate NonEmptyBatches(log: seq<Event>) {
    forall i :: 0 <= i < |log| ==> log[i].op.SAdd? ==> log[i].op.members != []
  }

  predicate NoEmptySet(c: Cell) {
    c.members.Some? ==> c.members.value.value != {}
  }

  lemma {:induction false} ExpiryKeepsMembers(c: Cell, e: Event)
    requires NoEmptySet(c) && (e.op.Expire? || e.op.Ttl?)
    ensures NoEmptySet(After(c, e))
  {
    hide SecondsLeft, DeadlineAfter;
  }

  lemma {:induction false} StepKeepsNonEmpty(c: Cell, e: Event)
    requires NoEmptySet(c) && (e.op.SAdd? ==> e.op.members != [])
    ensures NoEmptySet(After(c, e))
  {
    hide Wrap64, ToString, Stoll, Slice, FieldsOf, ListOf, SetExpiry, TimeToLive;
    if e.op.Expire? || e.op.Ttl? {
      ExpiryKeepsMembers(c, e);
    }
    if e.op.SAdd? {
      SetOfBound(e.op.members);
      assert e.op.members[0] in MembersOf(Purge(c, e.now)) + SetOf(e.op.members);
    }
  }

  /** An empty set is never stored: with or without expiry, SREM drops the key instead. */
  lemma {:induction false} StoredSetsStayNonEmpty(c: Cell, log: seq<Event>)
    requires NoEmptySet(c) && NonEmptyBatches(log)
    ensures NoEmptySet(CellFinal(c, log))
    decreases |log|
  {
    if log == [] {
    } else {
      hide Step, NoEmptySet;
      StepKeepsNonEmpty(c, log[0]);
      StoredSetsStayNonEmpty(After(c, log[0]), log[1..]);
    }
  }

  // ---------- counters ----------

  /** The number a counter command starts from. */
  function Count(c: Cell): (n: int)
    ensures InInt64(n)
  {
    if Numeric(c.str).Some? then Numeric(c.str).value else 0
  }

  function Delta(op: Op): int {
    match op
    case Incr => 1
    case Decr => -1
    case IncrBy(n) => n
    case _ => 0
  }

  predicate Counts(op: Op) {
    op.Incr? || op.Decr? || op.IncrBy?
  }

  function Increments(log: seq<Event>): int {
    if log == [] then 0 else Delta(log[0].op) + Increments(log[1..])
  }

  predicate InRangeIncrements(log: seq<Event>) {
    forall i :: 0 <= i < |log| && log[i].op.IncrBy? ==> InInt64(log[i].op.increment)
  }

  function TextOf(c: Cell): Option<string> {
    if c.str.Some? then Some(c.str.value.value) else None
  }

  /** The sum a counter command stores and replies. */
  lemma {:induction false} AddToSum(c: Cell, k: int)
    requires InInt64(k)
    ensures AddTo(c, k).1 == Number(Wrap64(Count(c) + k))
    ensures AddTo(c, k).0.str == Revised(if Numeric(c.str).Some? then c.str else None, ToString(Wrap64(Count(c) + k)))
  {
  }

  lemma {:induction false} PrintedCount(c: Cell, n: int)
    requires InInt64(n) && c.str.Some? && c.str.value.value == ToString(n)
    ensures Count(c) == n
  {
    NumberRoundTrip(n);
  }

  lemma {:induction false} AddToCounts(c: Cell, k: int)
    requires InInt64(k)
    ensures Count(AddTo(c, k).0) == Wrap64(Count(c) + k)
  {
    AddToSum(c, k);
    var sum := Wrap64(Count(c) + k);
    PrintedCount(AddTo(c, k).0, sum);
  }

  lemma {:induction false} CountStep(c: Cell, e: Event)
    requires Survives(c, Strings, e) && !e.op.Set? && InInt64(Delta(e.op))
    ensures Permanent(c.str) && !e.op.Expire? ==> Permanent(After(c, e).str)
    ensures Count(After(c, e)) == Wrap64(Count(c) + Delta(e.op))
    ensures Counts(e.op) ==> TextOf(After(c, e)) == Some(ToString(Count(After(c, e))))
    ensures Counts(e.op) ==> Answer(c, e) == Number(Count(After(c, e)))
  {
    hide Wrap64, ToString, Stoll;
    if Counts(e.op) {
      AddToSum(Purge(c, e.now), Delta(e.op));
      AddToCounts(Purge(c, e.now), Delta(e.op));
    } else {
      OthersKeepText(c, e);
    }
  }

  lemma {:induction false} OthersKeepText(c: Cell, e: Event)
    requires Survives(c, Strings, e) && !e.op.Set? && !Counts(e.op)
    ensures TextOf(After(c, e)) == TextOf(c)
    ensures !e.op.Expire? ==> After(c, e).str == c.str
  {
  }

  /** After any run without SET that never finds the counter stale, it holds the initial numeric prefix
      plus all increments (modulo 2^64). */
  lemma {:induction false} CounterConservation(c: Cell, log: seq<Event>)
    requires NeverStale(c, Strings, log) && NoSet(log) && InRangeIncrements(log)
    ensures Permanent(c.str) && NoExpire(log) ==> Permanent(CellFinal(c, log).str)
    ensures Count(CellFinal(c, log)) == Wrap64(Count(c) + Increments(log))
    decreases |log|
  {
    hide Step, Wrap64, ToString, Stoll, Count;
    if log == [] {
    } else {
      CountStep(c, log[0]);
      CounterConservation(After(c, log[0]), log[1..]);
      WrapWraps(Count(c) + Delta(log[0].op), Increments(log[1..]));
    }
  }

  predicate SomeCounting(log: seq<Event>) {
    exists i :: 0 <= i < |log| && Counts(log[i].op)
  }

  /** One counter command is enough to make the stored text the canonical decimal of its number. */
  lemma {:induction false} CounterTextIsCanonical(c: Cell, log: seq<Event>)
    requires NeverStale(c, Strings, log) && NoSet(log) && InRangeIncrements(log) && SomeCounting(log)
    ensures TextOf(CellFinal(c, log)) == Some(ToString(Count(CellFinal(c, log))))
    decreases |log|
  {
    hide Step, Wrap64, ToString, Stoll, Count, TextOf, Survives;
    CountStep(c, log[0]);
    if SomeCounting(log[1..]) {
      CounterTextIsCanonical(After(c, log[0]), log[1..]);
    } else {
      assert forall i :: 1 <= i < |log| ==> log[i] == log[1..][i - 1];
      KeepsText(After(c, log[0]), log[1..]);
      SameTextSameCount(After(c, log[0]), CellFinal(c, log));
    }
  }

  lemma SameTextSameCount(c: Cell, d: Cell)
    requires TextOf(c) == TextOf(d)
    ensures Count(c) == Count(d)
  {
  }

  lemma {:induction false} KeepsText(c: Cell, log: seq<Event>)
    requires NeverStale(c, Strings, log) && NoSet(log)
    requires forall i :: 0 <= i < |log| ==> !Counts(log[i].op)
    ensures TextOf(CellFinal(c, log)) == TextOf(c)
    decreases |log|
  {
    if log == [] {
    } else {
      hide Step, TextOf, Survives;
      OthersKeepText(c, log[0]);
      KeepsText(After(c, log[0]), log[1..]);
    }
  }

  /** No addition on the way leaves the 64-bit range, so none is undefined in C++. */
  ghost predicate PrefixSumsFit(total: int, log: seq<Event>)
    decreases |log|
  {
    log == [] || (InInt64(total + Delta(log[0].op)) && PrefixSumsFit(total + Delta(log[0].op), log[1..]))
  }

  /** After every command the counter holds, and counter commands reply, the true sum so far. */
  ghost predicate ExactThroughout(c: Cell, log: seq<Event>, total: int)
    decreases |log|
  {
    log == [] ||
    var sum := total + Delta(log[0].op);
    && Count(After(c, log[0])) == sum
    && (Counts(log[0].op) ==> Answer(c, log[0]) == Number(sum))
    && ExactThroughout(After(c, log[0]), log[1..], sum)
  }

  /** Counters are exact after every command if and only if no addition overflows. */
  lemma {:induction false} CounterRunsAreExactThroughout(c: Cell, log: seq<Event>)
    requires NeverStale(c, Strings, log) && NoSet(log) && InRangeIncrements(log)
    ensures ExactThroughout(c, log, Count(c)) <==> PrefixSumsFit(Count(c), log)
    decreases |log|
  {
    if log == [] {
    } else {
      hide Step, Wrap64, ToString, Stoll, Count;
      CountStep(c, log[0]);
      if InInt64(Count(c) + Delta(log[0].op)) {
        CounterRunsAreExactThroughout(After(c, log[0]), log[1..]);
      }
    }
  }

  /** The last value alone: read with wrap-around, it is the decimal of the true total if and only if that
      total fits in 64 bits, whatever overflows on the way. */
  lemma {:induction false} CounterRunsAreExact(c: Cell, log: seq<Event>)
    requires NeverStale(c, Strings, log) && NoSet(log) && InRangeIncrements(log)
    requires SomeCounting(log)
    ensures TextOf(CellFinal(c, log)) == Some(ToString(Count(c) + Increments(log)))
       <==> InInt64(Count(c) + Increments(log))
  {
    hide Wrap64, ToString, Stoll, CellFinal, Increments;
    CounterConservation(c, log);
    CounterTextIsCanonical(c, log);
    var total := Count(c) + Increments(log);
    if ToString(Wrap64(total)) == ToString(total) {
      PrintingIsInjective(Wrap64(total), total);
    }
  }

  lemma {:induction false} PrintingIsInjective(a: int, b: int)
    requires ToString(a) == ToString(b)
    ensures a == b
  {
    assert Unsigned(ToString(a)) == Digits(if a < 0 then -a else a);
    assert Unsigned(ToString(b)) == Digits(if b < 0 then -b else b);
  }

  /** INCRBY a then INCRBY b is INCRBY a+b, on a cell that nothing is purged from in between. */
  lemma {:induction false} AdditionsCompose(c: Cell, a: int, b: int)
    requires InInt64(a) && InInt64(b)
    ensures AddTo(AddTo(c, a).0, b) == AddTo(c, Wrap64(a + b))
  {
    hide Wrap64, ToString, Stoll;
    var sum, mid := Wrap64(a + b), AddTo(c, a).0;
    AddToSum(c, a);
    AddToSum(c, sum);
    AddToSum(mid, b);
    AddToCounts(c, a);
    PrintedCount(mid, Count(mid));
    NumberRoundTrip(Count(mid));
    WrapWraps(Count(c) + a, b);
    WrapWraps(a + b, Count(c));
  }

  /** INCRBY a then INCRBY b is INCRBY a+b as a state transformer, expiry included, unless the
      deadline falls between the two commands. */
  lemma {:induction false} IncrementsCompose(c: Cell, t: int, u: int, a: int, b: int)
    requires t <= u && InInt64(a) && InInt64(b)
    requires Purge(c, u) == Purge(c, t)
    ensures Step(Step(c, t, IncrBy(a)).0, u, IncrBy(b)) == Step(c, t, IncrBy(Wrap64(a + b)))
  {
    assert Purge(Purge(c, t), u) == Purge(c, t);
    var p := Purge(c, t);
    AdditionsCompose(p, a, b);
    AdditionStaysLive(p, u, a);
    hide AddTo, Purge, Wrap64;
  }

  lemma {:induction false} AdditionStaysLive(c: Cell, u: int, a: int)
    requires Purge(c, u) == c
    ensures Purge(AddTo(c, a).0, u) == AddTo(c, a).0
  {
    hide Wrap64, ToString, Stoll;
  }

  // ---------- inside runs of the whole store ----------

  /** All three laws, for one key inside an arbitrary run of commands on all keys. */
  lemma {:induction false} ConservationInTheStore(s: Store, log: seq<Event>, key: string)
    requires var c, own := CellAt(s, key), Project(log, key);
      NeverStale(c, Lists, own) && NeverStale(c, Sets, own) && NeverStale(c, Strings, own)
    requires NoSet(Project(log, key)) && InRangeIncrements(Project(log, key))
    ensures var c, last, own := CellAt(s, key), CellAt(Final(s, log), key), Project(log, key);
      && ListOf(last) + Reverse(Popped(c, own)) == Pushed(own) + ListOf(c)
      && |MembersOf(last)| == |MembersOf(c)| + NetAdded(c, own) - CreationDuplicates(c, own)
      && Count(last) == Wrap64(Count(c) + Increments(own))
  {
    hide *;
    var c, own := CellAt(s, key), Project(log, key);
    RunsAreLocal(s, log, key);
    ListConservation(c, own);
    SetConservation(c, own);
    CounterConservation(c, own);
  }
}
