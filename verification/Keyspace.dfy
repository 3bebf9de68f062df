/** What each storage command means for the four entries of its own key.
    A `Cell` gathers the entries of one key in the string, hash, list and set families;
    a `Store` is the four maps. The class `Storage.Storage` is proved against `Apply`. */
module Keyspace {
  import opened Prelude
  import opened Decimal

  const NANOS_PER_SECOND: int := 1_000_000_000

  /** A stored item; `deadline` is `Some(expiry)` when the item's expiry flag is set. */
  datatype Entry<+T> = Entry(value: T, deadline: Option<int>)

  datatype Cell = Cell(
    str: Option<Entry<string>>,
    hash: Option<Entry<map<string, string>>>,
    list: Option<Entry<seq<string>>>,
    members: Option<Entry<set<string>>>)

  datatype Family = Strings | Hashes | Lists | Sets

  datatype Op =
    | Set(value: string) | Get | Incr | Decr | IncrBy(increment: int)
    | HSet(field: string, value: string) | HGet(field: string) | HGetAll
    | LPush(values: seq<string>) | RPop | LRange(start: int, end: int)
    | SAdd(members: seq<string>) | SRem(members: seq<string>) | SIsMember(member: string) | SMembers | SCard
    | Expire(seconds: int) | Ttl

  datatype Reply =
    | Done
    | Flag(flag: bool)
    | Text(text: Option<string>)
    | Number(number: int)
    | Fields(fields: map<string, string>)
    | Items(items: seq<string>)
    | Members(names: set<string>)

  // ---------- expiry ----------

  predicate IsExpired(expiry: int, now: int) {
    expiry > 0 && now > expiry
  }

  predicate Overdue(deadline: Option<int>, now: int) {
    deadline.Some? && IsExpired(deadline.value, now)
  }

  predicate Stale<T>(entry: Option<Entry<T>>, now: int) {
    entry.Some? && Overdue(entry.value.deadline, now)
  }

  function Live<T>(entry: Option<Entry<T>>, now: int): Option<Entry<T>> {
    if Stale(entry, now) then None else entry
  }

  function Purge(c: Cell, now: int): Cell {
    Cell(Live(c.str, now), Live(c.hash, now), Live(c.list, now), Live(c.members, now))
  }

  /** A new entry never expires until EXPIRE says so. */
  function Lasting<T>(value: T): Option<Entry<T>> {
    Some(Entry(value, None))
  }

  /** The same item with another value: its expiry flag and deadline stay. */
  function Revised<T>(entry: Option<Entry<T>>, value: T): Option<Entry<T>> {
    Some(Entry(value, if entry.Some? then entry.value.deadline else None))
  }

  // ---------- one cell, one command ----------

  /** What a counter command starts from: the numeric prefix of the stored text. */
  function Numeric(entry: Option<Entry<string>>): Option<int> {
    if entry.Some? then Stoll(entry.value.value) else None
  }

  /** A number is revised in place; a missing or non-numeric item is replaced by a lasting one. */
  function AddTo(c: Cell, increment: int): (Cell, Reply) {
    match Numeric(c.str)
    case Some(n) =>
      var sum := Wrap64(n + increment);
      (c.(str := Revised(c.str, ToString(sum))), Number(sum))
    case None =>
      (c.(str := Lasting(ToString(increment))), Number(increment))
  }

  function FieldsOf(c: Cell): map<string, string> {
    if c.hash.Some? then c.hash.value.value else map[]
  }

  function ListOf(c: Cell): seq<string> {
    if c.list.Some? then c.list.value.value else []
  }

  function MembersOf(c: Cell): set<string> {
    if c.members.Some? then c.members.value.value else {}
  }

  function Clamp(i: int, size: nat): int
    requires size > 0
  {
    if i < 0 then 0 else if i >= size then size - 1 else i
  }

  function Absolute(i: int, size: nat): int {
    if i < 0 then size + i else i
  }

  /** The elements whose positions lie between the two clamped indices. */
  function Slice(list: seq<string>, start: int, end: int): seq<string> {
    if list == [] then []
    else
      var a := Clamp(Absolute(start, |list|), |list|);
      var b := Clamp(Absolute(end, |list|), |list|);
      if a > b then [] else list[a..b + 1]
  }

  /** Every command but EXPIRE and TTL, on a cell whose stale entries are gone. */
  function Touch(c: Cell, op: Op): (Cell, Reply)
    requires !op.Expire? && !op.Ttl?
  {
    match op
    case Set(value) => (c.(str := Lasting(value)), Done)
    case Get => (c, Text(if c.str.Some? then Some(c.str.value.value) else None))
    case Incr => AddTo(c, 1)
    case Decr => AddTo(c, -1)
    case IncrBy(increment) => AddTo(c, increment)
    case HSet(field, value) => (c.(hash := Revised(c.hash, FieldsOf(c)[field := value])), Done)
    case HGet(field) => (c, Text(if field in FieldsOf(c) then Some(FieldsOf(c)[field]) else None))
    case HGetAll => (c, Fields(FieldsOf(c)))
    case LPush(values) =>
      (c.(list := Revised(c.list, values + ListOf(c))), Number(|values| + |ListOf(c)|))
    case RPop =>
      var list := ListOf(c);
      if list == [] then (c, Text(None))
      else (c.(list := Revised(c.list, list[..|list| - 1])), Text(Some(list[|list| - 1])))
    case LRange(start, end) => (c, Items(Slice(ListOf(c), start, end)))
    case SAdd(names) =>
      var after := MembersOf(c) + SetOf(names);
      (c.(members := Revised(c.members, after)),
       Number(if c.members.Some? then |after| - |MembersOf(c)| else |names|))
    case SRem(names) =>
      var after := MembersOf(c) - SetOf(names);
      (c.(members := if after == {} then None else Revised(c.members, after)),
       Number(|MembersOf(c)| - |after|))
    case SIsMember(name) => (c, Flag(name in MembersOf(c)))
    case SMembers => (c, Members(MembersOf(c)))
    case SCard => (c, Number(|MembersOf(c)|))
  }

  /** The family EXPIRE and TTL act on: the first that holds the key, stale or not. */
  function First(c: Cell): Option<Family> {
    if c.str.Some? then Some(Strings)
    else if c.hash.Some? then Some(Hashes)
    else if c.list.Some? then Some(Lists)
    else if c.members.Some? then Some(Sets)
    else None
  }

  predicate Has(c: Cell, f: Family) {
    match f
    case Strings => c.str.Some?
    case Hashes => c.hash.Some?
    case Lists => c.list.Some?
    case Sets => c.members.Some?
  }

  function DeadlineOf(c: Cell, f: Family): Option<int>
    requires Has(c, f)
  {
    match f
    case Strings => c.str.value.deadline
    case Hashes => c.hash.value.deadline
    case Lists => c.list.value.deadline
    case Sets => c.members.value.deadline
  }

  function WithDeadline(c: Cell, f: Family, deadline: int): Cell
    requires Has(c, f)
  {
    match f
    case Strings => c.(str := Some(c.str.value.(deadline := Some(deadline))))
    case Hashes => c.(hash := Some(c.hash.value.(deadline := Some(deadline))))
    case Lists => c.(list := Some(c.list.value.(deadline := Some(deadline))))
    case Sets => c.(members := Some(c.members.value.(deadline := Some(deadline))))
  }

  function Without(c: Cell, f: Family): Cell {
    match f
    case Strings => c.(str := None)
    case Hashes => c.(hash := None)
    case Lists => c.(list := None)
    case Sets => c.(members := None)
  }

  /** `now + seconds` on the 64-bit nanosecond clock. */
  function DeadlineAfter(now: int, seconds: int): int {
    Wrap64(now + seconds * NANOS_PER_SECOND)
  }

  /** Division of `duration_cast`: towards zero. */
  function Truncated(n: int, d: int): int
    requires d > 0
  {
    if n >= 0 then n / d else -(-n / d)
  }

  function SecondsLeft(deadline: int, now: int): int {
    Truncated(Wrap64(deadline - now), NANOS_PER_SECOND)
  }

  function SetExpiry(c: Cell, now: int, seconds: int): (Cell, Reply) {
    match First(c)
    case None => (c, Flag(false))
    case Some(f) => (WithDeadline(c, f, DeadlineAfter(now, seconds)), Flag(true))
  }

  function TimeToLive(c: Cell, now: int): (Cell, Reply) {
    match First(c)
    case None => (c, Number(-2))
    case Some(f) =>
      match DeadlineOf(c, f)
      case None => (c, Number(-1))
      case Some(d) =>
        if IsExpired(d, now) then (Without(c, f), Number(-2)) else (c, Number(SecondsLeft(d, now)))
  }

  function Step(c: Cell, now: int, op: Op): (Cell, Reply) {
    match op
    case Expire(seconds) => SetExpiry(c, now, seconds)
    case Ttl => TimeToLive(c, now)
    case _ => Touch(Purge(c, now), op)
  }

  // ---------- the whole store ----------

  datatype Store = Store(
    strings: map<string, Entry<string>>,
    hashes: map<string, Entry<map<string, string>>>,
    lists: map<string, Entry<seq<string>>>,
    sets: map<string, Entry<set<string>>>)

  const EMPTY_STORE: Store := Store(map[], map[], map[], map[])
  const EMPTY_CELL: Cell := Cell(None, None, None, None)

  function Find<T>(m: map<string, Entry<T>>, key: string): Option<Entry<T>> {
    if key in m then Some(m[key]) else None
  }

  function Place<T>(m: map<string, Entry<T>>, key: string, entry: Option<Entry<T>>): map<string, Entry<T>> {
    if entry.Some? then m[key := entry.value] else m - {key}
  }

  function CellAt(s: Store, key: string): Cell {
    Cell(Find(s.strings, key), Find(s.hashes, key), Find(s.lists, key), Find(s.sets, key))
  }

  function PutCell(s: Store, key: string, c: Cell): Store {
    Store(Place(s.strings, key, c.str), Place(s.hashes, key, c.hash),
          Place(s.lists, key, c.list), Place(s.sets, key, c.members))
  }

  /** One timed command on one key. */
  datatype Event = Event(now: int, key: string, op: Op)

  function Apply(s: Store, e: Event): (Store, Reply) {
    var (c, reply) := Step(CellAt(s, e.key), e.now, e.op);
    (PutCell(s, e.key, c), reply)
  }

  function Final(s: Store, log: seq<Event>): Store
    decreases |log|
  {
    if log == [] then s else Final(Apply(s, log[0]).0, log[1..])
  }

  function Replies(s: Store, log: seq<Event>): seq<Reply>
    decreases |log|
  {
    if log == [] then [] else [Apply(s, log[0]).1] + Replies(Apply(s, log[0]).0, log[1..])
  }

  /** The clock never goes back. */
  predicate InOrder(log: seq<Event>, from: int) {
    log == [] || (from <= log[0].now && InOrder(log[1..], log[0].now))
  }

  lemma CellAfterPut(s: Store, key: string, c: Cell, other: string)
    ensures CellAt(PutCell(s, key, c), other) == if other == key then c else CellAt(s, other)
  {
  }

  /** A store is determined by its cells. */
  lemma {:induction false} SameCellsSameStore(s: Store, t: Store)
    requires forall key :: CellAt(s, key) == CellAt(t, key)
    ensures s == t
  {
    forall key
      ensures Find(s.strings, key) == Find(t.strings, key) && Find(s.hashes, key) == Find(t.hashes, key)
      ensures Find(s.lists, key) == Find(t.lists, key) && Find(s.sets, key) == Find(t.sets, key)
    {
      assert CellAt(s, key) == CellAt(t, key);
    }
    SameEntriesSameMap(s.strings, t.strings);
    SameEntriesSameMap(s.hashes, t.hashes);
    SameEntriesSameMap(s.lists, t.lists);
    SameEntriesSameMap(s.sets, t.sets);
  }

  lemma SameEntriesSameMap<T>(m: map<string, Entry<T>>, n: map<string, Entry<T>>)
    requires forall key :: Find(m, key) == Find(n, key)
    ensures m == n
  {
    forall key ensures key in m <==> key in n
      ensures key in m ==> m[key] == n[key]
    {
      assert Find(m, key) == Find(n, key);
    }
  }

  lemma PlaceLaws<T>(m: map<string, Entry<T>>, key: string, a: Option<Entry<T>>, b: Option<Entry<T>>)
    ensures Place(m, key, Find(m, key)) == m
    ensures Place(Place(m, key, a), key, b) == Place(m, key, b)
  {
  }

  lemma PlaceLive<T>(m: map<string, Entry<T>>, key: string, now: int)
    ensures Place(m, key, Live(Find(m, key), now)) == if key in m && Overdue(m[key].deadline, now) then m - {key} else m
  {
  }

  /** Writing back what is there changes nothing, and a later write wins. */
  lemma {:induction false} PutCellLaws(s: Store, key: string, c: Cell, d: Cell)
    ensures PutCell(s, key, CellAt(s, key)) == s
    ensures PutCell(PutCell(s, key, c), key, d) == PutCell(s, key, d)
  {
    PlaceLaws(s.strings, key, c.str, d.str);
    PlaceLaws(s.hashes, key, c.hash, d.hash);
    PlaceLaws(s.lists, key, c.list, d.list);
    PlaceLaws(s.sets, key, c.members, d.members);
  }

  /** Writing one family of a cell is writing one of the four maps. */
  lemma {:induction false} PutOneFamily(s: Store, key: string, c: Cell)
    requires c == CellAt(s, key)
    ensures forall e :: PutCell(s, key, c.(str := e)) == s.(strings := Place(s.strings, key, e))
    ensures forall e :: PutCell(s, key, c.(hash := e)) == s.(hashes := Place(s.hashes, key, e))
    ensures forall e :: PutCell(s, key, c.(list := e)) == s.(lists := Place(s.lists, key, e))
    ensures forall e :: PutCell(s, key, c.(members := e)) == s.(sets := Place(s.sets, key, e))
  {
    PlaceLaws(s.strings, key, c.str, c.str);
    PlaceLaws(s.hashes, key, c.hash, c.hash);
    PlaceLaws(s.lists, key, c.list, c.list);
    PlaceLaws(s.sets, key, c.members, c.members);
  }

  /** Purging the key first and then running the command in place is the command. */
  lemma {:induction false} ApplyAfterPurge(s: Store, e: Event)
    requires !e.op.Expire? && !e.op.Ttl?
    ensures var purged := PutCell(s, e.key, Purge(CellAt(s, e.key), e.now));
      && CellAt(purged, e.key) == Purge(CellAt(s, e.key), e.now)
      && var (c, reply) := Touch(CellAt(purged, e.key), e.op);
      && Apply(s, e) == (PutCell(purged, e.key, c), reply)
  {
    var c := Purge(CellAt(s, e.key), e.now);
    CellAfterPut(s, e.key, c, e.key);
    PutCellLaws(s, e.key, c, Touch(c, e.op).0);
  }
}
