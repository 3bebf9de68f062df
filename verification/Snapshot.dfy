/** The text snapshot: what saving prints and what loading reads back. */
module Snapshot {
  import opened Prelude
  import opened Decimal
  import opened Keyspace
  import Storage

  // ---------- printing ----------

  /** The snapshot writer's test, `expiry > now`; it is not the negation of `is_expired`. */
  predicate Saved(deadline: Option<int>, now: int) {
    deadline == None || deadline.value > now
  }

  /** An entry that commands still see is left out of the snapshot exactly when it is read at its
      deadline or its deadline is not after clock zero. */
  lemma {:induction false} VisibleButNotSaved(deadline: Option<int>, now: int)
    requires now >= 0
    ensures (!Overdue(deadline, now) && !Saved(deadline, now))
       <==> deadline.Some? && (deadline.value == now || deadline.value <= 0)
    ensures Saved(deadline, now) ==> !Overdue(deadline, now)
  {
  }

  /** The clock readings the writer takes, one per entry it looks at. */
  datatype Readings = Readings(
    strings: string -> int, hashes: string -> int, lists: string -> int, sets: string -> int)

  /** The orders in which the nested loops visit the maps. */
  datatype Orders = Orders(
    strings: seq<string>, hashes: seq<string>, fields: map<string, seq<string>>,
    lists: seq<string>, sets: seq<string>, names: map<string, seq<string>>)

  ghost predicate ValidOrders(o: Orders, s: Store, at: Readings) {
    && IsOrdering(o.strings, s.strings.Keys) && IsOrdering(o.hashes, s.hashes.Keys)
    && IsOrdering(o.lists, s.lists.Keys) && IsOrdering(o.sets, s.sets.Keys)
    && (forall k :: k in s.hashes && Saved(s.hashes[k].deadline, at.hashes(k)) ==>
          k in o.fields && IsOrdering(o.fields[k], s.hashes[k].value.Keys))
    && (forall k :: k in s.sets && Saved(s.sets[k].deadline, at.sets(k)) ==>
          k in o.names && IsOrdering(o.names[k], s.sets[k].value))
  }

  /** The lines that a loop over `order` writes, a few per element. */
  function FlatMap(order: seq<string>, lines: string -> seq<string>): seq<string> {
    if order == [] then [] else lines(order[0]) + FlatMap(order[1..], lines)
  }

  function StringLine(key: string, value: string): string {
    key + "=" + value
  }

  function StringLines(s: Store, at: Readings): string -> seq<string> {
    key =>
      if key in s.strings && Saved(s.strings[key].deadline, at.strings(key))
      then [StringLine(key, s.strings[key].value)] else []
  }

  function FieldLine(key: string, fields: map<string, string>): string -> seq<string> {
    field => [key + "." + field + "=" + (if field in fields then fields[field] else "")]
  }

  function HashLines(s: Store, at: Readings, fields: map<string, seq<string>>): string -> seq<string> {
    key =>
      if key in s.hashes && Saved(s.hashes[key].deadline, at.hashes(key)) && key in fields
      then FlatMap(fields[key], FieldLine(key, s.hashes[key].value)) else []
  }

  function ItemLine(key: string, i: nat, item: string): string {
    key + "[" + ToString(i) + "]=" + item
  }

  function ItemLines(key: string, items: seq<string>, count: nat): seq<string>
    requires count <= |items|
  {
    if count == 0 then [] else ItemLines(key, items, count - 1) + [ItemLine(key, count - 1, items[count - 1])]
  }

  function ListLines(s: Store, at: Readings): string -> seq<string> {
    key =>
      if key in s.lists && Saved(s.lists[key].deadline, at.lists(key))
      then ItemLines(key, s.lists[key].value, |s.lists[key].value|) else []
  }

  function MemberLine(key: string): string -> seq<string> {
    name => [key + "." + name + "=1"]
  }

  function SetLines(s: Store, at: Readings, names: map<string, seq<string>>): string -> seq<string> {
    key =>
      if key in s.sets && Saved(s.sets[key].deadline, at.sets(key)) && key in names
      then FlatMap(names[key], MemberLine(key)) else []
  }

  function Section(header: string, lines: seq<string>): seq<string> {
    [header] + lines
  }

  /** Everything after the string section. */
  function RestLines(s: Store, at: Readings, o: Orders): seq<string> {
    Section("[HASHES]", FlatMap(o.hashes, HashLines(s, at, o.fields)))
    + (Section("[LISTS]", FlatMap(o.lists, ListLines(s, at)))
       + Section("[SETS]", FlatMap(o.sets, SetLines(s, at, o.names))))
  }

  function SnapshotLines(s: Store, at: Readings, o: Orders): seq<string> {
    Section("[STRINGS]", FlatMap(o.strings, StringLines(s, at))) + RestLines(s, at, o)
  }

  function Joined(lines: seq<string>): string {
    if lines == [] then "" else lines[0] + "\n" + Joined(lines[1..])
  }

  // ---------- what the snapshot says ----------

  predicate SavedString(s: Store, at: Readings, k: string) {
    k in s.strings && Saved(s.strings[k].deadline, at.strings(k))
  }

  predicate SavedField(s: Store, at: Readings, k: string, f: string) {
    k in s.hashes && Saved(s.hashes[k].deadline, at.hashes(k)) && f in s.hashes[k].value
  }

  predicate SavedItem(s: Store, at: Readings, k: string, i: nat) {
    k in s.lists && Saved(s.lists[k].deadline, at.lists(k)) && i < |s.lists[k].value|
  }

  predicate SavedMember(s: Store, at: Readings, k: string, n: string) {
    k in s.sets && Saved(s.sets[k].deadline, at.sets(k)) && n in s.sets[k].value
  }

  lemma {:induction false} InFlatMap(order: seq<string>, lines: string -> seq<string>, line: string)
    ensures line in FlatMap(order, lines) <==> exists k :: k in order && line in lines(k)
  {
    if order == [] {
    } else {
      InFlatMap(order[1..], lines, line);
      assert forall k :: k in order <==> k == order[0] || k in order[1..];
    }
  }

  lemma {:induction false} InItemLines(key: string, items: seq<string>, count: nat, line: string)
    requires count <= |items|
    ensures line in ItemLines(key, items, count)
       <==> exists i: nat :: i < count && line == key + "[" + ToString(i) + "]=" + items[i]
  {
    if count == 0 {
    } else {
      InItemLines(key, items, count - 1, line);
      assert ItemLine(key, count - 1, items[count - 1]) == key + "[" + ToString(count - 1) + "]=" + items[count - 1];
    }
  }

  /** The STRINGS section has a line `key=value` for each saved string and no other. */
  lemma {:induction false} StringSection(s: Store, at: Readings, o: Orders, line: string)
    requires ValidOrders(o, s, at)
    ensures line in FlatMap(o.strings, StringLines(s, at))
       <==> exists k :: SavedString(s, at, k) && line == k + "=" + s.strings[k].value
  {
    InFlatMap(o.strings, StringLines(s, at), line);
    assert forall k :: line in StringLines(s, at)(k) <==>
      SavedString(s, at, k) && line == k + "=" + s.strings[k].value;
  }

  /** The HASHES section has a line `key.field=value` for each field of each saved hash and no other. */
  lemma {:induction false} HashSection(s: Store, at: Readings, o: Orders, line: string)
    requires ValidOrders(o, s, at)
    ensures line in FlatMap(o.hashes, HashLines(s, at, o.fields))
       <==> exists k, f :: SavedField(s, at, k, f) && line == k + "." + f + "=" + s.hashes[k].value[f]
  {
    InFlatMap(o.hashes, HashLines(s, at, o.fields), line);
    forall k | k in s.hashes && Saved(s.hashes[k].deadline, at.hashes(k))
      ensures line in HashLines(s, at, o.fields)(k)
         <==> exists f :: SavedField(s, at, k, f) && line == k + "." + f + "=" + s.hashes[k].value[f]
    {
      var fields := s.hashes[k].value;
      InFlatMap(o.fields[k], FieldLine(k, fields), line);
      assert forall f :: f in fields ==> FieldLine(k, fields)(f) == [k + "." + f + "=" + fields[f]];
    }
  }

  /** The LISTS section has a line `key[i]=item` for each element of each saved list and no other. */
  lemma {:induction false} ListSection(s: Store, at: Readings, o: Orders, line: string)
    requires ValidOrders(o, s, at)
    ensures line in FlatMap(o.lists, ListLines(s, at)) <==>
      exists k, i: nat :: SavedItem(s, at, k, i) && line == k + "[" + ToString(i) + "]=" + s.lists[k].value[i]
  {
    InFlatMap(o.lists, ListLines(s, at), line);
    forall k | k in s.lists && Saved(s.lists[k].deadline, at.lists(k))
      ensures line in ListLines(s, at)(k) <==>
        exists i: nat :: SavedItem(s, at, k, i) && line == k + "[" + ToString(i) + "]=" + s.lists[k].value[i]
    {
      InItemLines(k, s.lists[k].value, |s.lists[k].value|, line);
    }
  }

  /** The SETS section has a line `key.member=1` for each member of each saved set and no other. */
  lemma {:induction false} SetSection(s: Store, at: Readings, o: Orders, line: string)
    requires ValidOrders(o, s, at)
    ensures line in FlatMap(o.sets, SetLines(s, at, o.names))
       <==> exists k, n :: SavedMember(s, at, k, n) && line == k + "." + n + "=1"
  {
    InFlatMap(o.sets, SetLines(s, at, o.names), line);
    forall k | k in s.sets && Saved(s.sets[k].deadline, at.sets(k))
      ensures line in SetLines(s, at, o.names)(k)
         <==> exists n :: SavedMember(s, at, k, n) && line == k + "." + n + "=1"
    {
      InFlatMap(o.names[k], MemberLine(k), line);
      assert forall n :: MemberLine(k)(n) == [k + "." + n + "=1"];
    }
  }

  // ---------- reading ----------

  predicate NewlineFree(s: string) {
    '\n' !in s
  }

  /** Index of the first occurrence of `c`, or the length. */
  function IndexOf(s: string, c: char): (i: nat)
    ensures i <= |s| && c !in s[..i]
    ensures i < |s| ==> s[i] == c
  {
    if s == "" || s[0] == c then 0
    else
      assert forall n: nat :: n <= |s[1..]| ==> s[..n + 1] == [s[0]] + s[1..][..n];
      1 + IndexOf(s[1..], c)
  }

  /** What repeated `std::getline` yields. */
  function GetLines(text: string): (lines: seq<string>)
    ensures forall l :: l in lines ==> NewlineFree(l)
    decreases |text|
  {
    var i := IndexOf(text, '\n');
    if text == "" then []
    else if i == |text| then assert text == text[..i]; [text]
    else [text[..i]] + GetLines(text[i + 1..])
  }

  lemma NoLines()
    ensures GetLines("") == []
  {
  }

  lemma {:induction false} GetLinesStep(text: string)
    requires text != ""
    ensures var i := IndexOf(text, '\n');
      var rest := if i < |text| then text[i + 1..] else "";
      GetLines(text) == [text[..i]] + GetLines(rest) && GetLines(text)[1..] == GetLines(rest)
  {
    var i := IndexOf(text, '\n');
    assert i == |text| ==> text[..i] == text;
  }

  predicate IsHeader(line: string) {
    line != "" && line[0] == '[' && line[|line| - 1] == ']'
  }

  function HeaderName(line: string): string
    requires IsHeader(line)
  {
    line[1..|line| - 1]
  }

  /** The loading loop over the remaining lines, with the section in force. Line number `read` is loaded
      at clock reading `clock(read)`. */
  function LoadLines(s: Store, clock: nat -> int, read: nat, lines: seq<string>, section: string): Store
    decreases |lines|
  {
    if lines == [] then s
    else
      var line, rest := lines[0], lines[1..];
      if line == "" then LoadLines(s, clock, read + 1, rest, section)
      else if IsHeader(line) then LoadLines(s, clock, read + 1, rest, HeaderName(line))
      else
        var i := IndexOf(line, '=');
        if i < |line| && section == "STRINGS" then
          LoadLines(Apply(s, Event(clock(read), line[..i], Op.Set(line[i + 1..]))).0, clock, read + 1, rest, section)
        else LoadLines(s, clock, read + 1, rest, section)
  }

  // ---------- the persistence manager ----------

  lemma {:induction false} JoinedAppend(a: seq<string>, b: seq<string>)
    ensures Joined(a + b) == Joined(a) + Joined(b)
  {
    if a == [] {
      assert a + b == b;
    } else {
      assert (a + b)[1..] == a[1..] + b;
      JoinedAppend(a[1..], b);
    }
  }

  lemma {:induction false} JoinedOne(line: string)
    ensures Joined([line]) == line + "\n"
  {
    assert [line][1..] == [];
    assert Joined([line]) == line + "\n" + Joined([]);
  }

  lemma {:induction false} FlatMapAppend(order: seq<string>, key: string, lines: string -> seq<string>)
    ensures FlatMap(order + [key], lines) == FlatMap(order, lines) + lines(key)
    ensures Joined(FlatMap(order + [key], lines)) == Joined(FlatMap(order, lines)) + Joined(lines(key))
  {
    FlatMapConcat(order, key, lines);
    JoinedAppend(FlatMap(order, lines), lines(key));
  }

  lemma {:induction false} FlatMapConcat(order: seq<string>, key: string, lines: string -> seq<string>)
    ensures FlatMap(order + [key], lines) == FlatMap(order, lines) + lines(key)
  {
    if order == [] {
      assert [key][1..] == [];
      assert FlatMap([key], lines) == lines(key) + FlatMap([], lines);
    } else {
      assert (order + [key])[1..] == order[1..] + [key];
      FlatMapConcat(order[1..], key, lines);
    }
  }

  /** The loop over the fields of one hash. */
  method WriteFields(key: string, fields: map<string, string>) returns (text: string, ghost order: seq<string>)
    ensures IsOrdering(order, fields.Keys)
    ensures text == Joined(FlatMap(order, FieldLine(key, fields)))
  {
    text, order := "", [];
    var left := fields.Keys;
    while left != {}
      invariant left <= fields.Keys && IsOrdering(order, fields.Keys - left)
      invariant text == Joined(FlatMap(order, FieldLine(key, fields)))
      decreases |left|
    {
      var field :| field in left;
      OrderingGrows(order, fields.Keys, left, field);
      FlatMapAppend(order, field, FieldLine(key, fields));
      JoinedOne(key + "." + field + "=" + fields[field]);
      text := text + (key + "." + field + "=" + fields[field] + "\n");
      order := order + [field];
      left := left - {field};
    }
    assert fields.Keys - left == fields.Keys;
  }

  /** The loop over the elements of one list. */
  method WriteItems(key: string, items: seq<string>) returns (text: string)
    ensures text == Joined(ItemLines(key, items, |items|))
  {
    text := "";
    for i := 0 to |items|
      invariant text == Joined(ItemLines(key, items, i))
    {
      JoinedAppend(ItemLines(key, items, i), [ItemLine(key, i, items[i])]);
      JoinedOne(ItemLine(key, i, items[i]));
      text := text + (key + "[" + ToString(i) + "]=" + items[i] + "\n");
    }
  }

  /** The loop over the members of one set. */
  method WriteMembers(key: string, names: set<string>) returns (text: string, ghost order: seq<string>)
    ensures IsOrdering(order, names)
    ensures text == Joined(FlatMap(order, MemberLine(key)))
  {
    text, order := "", [];
    var left := names;
    while left != {}
      invariant left <= names && IsOrdering(order, names - left)
      invariant text == Joined(FlatMap(order, MemberLine(key)))
      decreases |left|
    {
      var name :| name in left;
      OrderingGrows(order, names, left, name);
      FlatMapAppend(order, name, MemberLine(key));
      JoinedOne(key + "." + name + "=1");
      text := text + (key + "." + name + "=1" + "\n");
      order := order + [name];
      left := left - {name};
    }
    assert names - left == names;
  }

  class PersistenceManager {
    const storage: Storage.Storage

    constructor (storage: Storage.Storage)
      ensures this.storage == storage
    {
      this.storage := storage;
    }

    method LoadFromFile(file: string, clock: nat -> int)
      modifies storage
      ensures storage.Contents() == LoadLines(old(storage.Contents()), clock, 0, GetLines(file), "")
    {
      NoLines();
      hide Apply, IsHeader, HeaderName, GetLines;
      var rest := file;
      var section := "";
      var read := 0;
      while rest != ""
        invariant LoadLines(storage.Contents(), clock, read, GetLines(rest), section)
               == LoadLines(old(storage.Contents()), clock, 0, GetLines(file), "")
        decreases |rest|
      {
        var end := IndexOf(rest, '\n');
        var line := rest[..end];
        GetLinesStep(rest);
        rest := if end < |rest| then rest[end + 1..] else "";
        if line == "" {
        } else if IsHeader(line) {
          section := HeaderName(line);
        } else {
          var i := IndexOf(line, '=');
          if i < |line| {
            var key, value := line[..i], line[i + 1..];
            if section == "STRINGS" {
              var _ := storage.Set(key, value, clock(read));
            }
          }
        }
        read := read + 1;
      }
    }

    /** The snapshot of a copy of the store, every map visited in some order. */
    method SaveToFile(at: Readings) returns (file: string, ghost o: Orders)
      ensures ValidOrders(o, storage.Contents(), at)
      ensures file == Joined(SnapshotLines(storage.Contents(), at, o))
    {
      var snapshot := storage.Contents();
      var strings, hashes, lists, sets;
      ghost var stringOrder, hashOrder, fieldOrders, listOrder, setOrder, nameOrders;
      strings, stringOrder := SaveStrings(snapshot, at);
      hashes, hashOrder, fieldOrders := SaveHashes(snapshot, at);
      lists, listOrder := SaveLists(snapshot, at);
      sets, setOrder, nameOrders := SaveSets(snapshot, at);
      o := Orders(stringOrder, hashOrder, fieldOrders, listOrder, setOrder, nameOrders);
      file := "[STRINGS]" + "\n" + strings
        + ("[HASHES]" + "\n" + hashes + ("[LISTS]" + "\n" + lists + ("[SETS]" + "\n" + sets)));
      SectionsJoin(snapshot, at, o);
    }
  }

  lemma {:induction false} SectionsJoin(s: Store, at: Readings, o: Orders)
    ensures Joined(SnapshotLines(s, at, o)) ==
      "[STRINGS]" + "\n" + Joined(FlatMap(o.strings, StringLines(s, at)))
      + ("[HASHES]" + "\n" + Joined(FlatMap(o.hashes, HashLines(s, at, o.fields)))
      + ("[LISTS]" + "\n" + Joined(FlatMap(o.lists, ListLines(s, at)))
      + ("[SETS]" + "\n" + Joined(FlatMap(o.sets, SetLines(s, at, o.names))))))
  {
    var a, b, c, d := FlatMap(o.strings, StringLines(s, at)), FlatMap(o.hashes, HashLines(s, at, o.fields)),
                      FlatMap(o.lists, ListLines(s, at)), FlatMap(o.sets, SetLines(s, at, o.names));
    SectionJoins("[STRINGS]", a);
    SectionJoins("[HASHES]", b);
    SectionJoins("[LISTS]", c);
    SectionJoins("[SETS]", d);
    JoinedAppend(Section("[STRINGS]", a), RestLines(s, at, o));
    JoinedAppend(Section("[HASHES]", b), Section("[LISTS]", c) + Section("[SETS]", d));
    JoinedAppend(Section("[LISTS]", c), Section("[SETS]", d));
    hide FlatMap, StringLines, HashLines, ListLines, SetLines, Section, Joined;
  }

  lemma {:induction false} SectionJoins(header: string, lines: seq<string>)
    ensures Joined(Section(header, lines)) == header + "\n" + Joined(lines)
  {
    assert ([header] + lines)[1..] == lines;
  }

  method SaveStrings(s: Store, at: Readings) returns (text: string, ghost order: seq<string>)
    ensures IsOrdering(order, s.strings.Keys)
    ensures text == Joined(FlatMap(order, StringLines(s, at)))
  {
    text, order := "", [];
    var left := s.strings.Keys;
    while left != {}
      invariant left <= s.strings.Keys && IsOrdering(order, s.strings.Keys - left)
      invariant text == Joined(FlatMap(order, StringLines(s, at)))
      decreases |left|
    {
      var key :| key in left;
      OrderingGrows(order, s.strings.Keys, left, key);
      FlatMapAppend(order, key, StringLines(s, at));
      var item := s.strings[key];
      if Saved(item.deadline, at.strings(key)) {
        JoinedOne(StringLine(key, item.value));
        text := text + (key + "=" + item.value + "\n");
      }
      order := order + [key];
      left := left - {key};
    }
    assert s.strings.Keys - left == s.strings.Keys;
  }

  method SaveHashes(s: Store, at: Readings)
    returns (text: string, ghost order: seq<string>, ghost fields: map<string, seq<string>>)
    ensures IsOrdering(order, s.hashes.Keys)
    ensures forall k :: k in s.hashes && Saved(s.hashes[k].deadline, at.hashes(k)) ==>
      k in fields && IsOrdering(fields[k], s.hashes[k].value.Keys)
    ensures text == Joined(FlatMap(order, HashLines(s, at, fields)))
  {
    hide FlatMap, HashLines, FieldLine, Joined;
    NothingJoined(HashLines(s, at, map[]));
    text, order, fields := "", [], map[];
    var left := s.hashes.Keys;
    while left != {}
      invariant left <= s.hashes.Keys && IsOrdering(order, s.hashes.Keys - left)
      invariant forall k :: k in fields ==> k in s.hashes && k !in left
      invariant forall k :: k in s.hashes && k !in left && Saved(s.hashes[k].deadline, at.hashes(k)) ==>
        k in fields && IsOrdering(fields[k], s.hashes[k].value.Keys)
      invariant text == Joined(FlatMap(order, HashLines(s, at, fields)))
      decreases |left|
    {
      var key :| key in left;
      OrderingGrows(order, s.hashes.Keys, left, key);
      var item := s.hashes[key];
      if Saved(item.deadline, at.hashes(key)) {
        var lines;
        ghost var fieldOrder;
        lines, fieldOrder := WriteFields(key, item.value);
        HashLinesKeep(s, at, order, fields, key, fieldOrder);
        fields := fields[key := fieldOrder];
        text := text + lines;
      }
      NextHash(s, at, order, fields, key);
      order := order + [key];
      left := left - {key};
    }
    assert s.hashes.Keys - left == s.hashes.Keys;
  }

  lemma {:induction false} SameLines(order: seq<string>, f: string -> seq<string>, g: string -> seq<string>)
    requires forall k :: k in order ==> f(k) == g(k)
    ensures FlatMap(order, f) == FlatMap(order, g)
  {
    if order == [] {
    } else {
      SameLines(order[1..], f, g);
    }
  }

  lemma NothingJoined(lines: string -> seq<string>)
    ensures Joined(FlatMap([], lines)) == ""
  {
  }

  lemma {:induction false} HashLinesKeep(
      s: Store, at: Readings, order: seq<string>, fields: map<string, seq<string>>, key: string,
      fieldOrder: seq<string>)
    requires key !in order
    ensures FlatMap(order, HashLines(s, at, fields[key := fieldOrder])) == FlatMap(order, HashLines(s, at, fields))
  {
    SameLines(order, HashLines(s, at, fields[key := fieldOrder]), HashLines(s, at, fields));
  }

  lemma {:induction false} NextHash(
      s: Store, at: Readings, order: seq<string>, fields: map<string, seq<string>>, key: string)
    requires key in s.hashes && (Saved(s.hashes[key].deadline, at.hashes(key)) ==> key in fields)
    ensures Joined(FlatMap(order + [key], HashLines(s, at, fields))) == Joined(FlatMap(order, HashLines(s, at, fields)))
      + (if Saved(s.hashes[key].deadline, at.hashes(key))
         then Joined(FlatMap(fields[key], FieldLine(key, s.hashes[key].value))) else "")
  {
    FlatMapAppend(order, key, HashLines(s, at, fields));
  }

  lemma {:induction false} SetLinesKeep(
      s: Store, at: Readings, order: seq<string>, names: map<string, seq<string>>, key: string, nameOrder: seq<string>)
    requires key !in order
    ensures FlatMap(order, SetLines(s, at, names[key := nameOrder])) == FlatMap(order, SetLines(s, at, names))
  {
    SameLines(order, SetLines(s, at, names[key := nameOrder]), SetLines(s, at, names));
  }

  lemma {:induction false} NextSet(
      s: Store, at: Readings, order: seq<string>, names: map<string, seq<string>>, key: string)
    requires key in s.sets && (Saved(s.sets[key].deadline, at.sets(key)) ==> key in names)
    ensures Joined(FlatMap(order + [key], SetLines(s, at, names))) == Joined(FlatMap(order, SetLines(s, at, names)))
      + (if Saved(s.sets[key].deadline, at.sets(key)) then Joined(FlatMap(names[key], MemberLine(key))) else "")
  {
    FlatMapAppend(order, key, SetLines(s, at, names));
  }

  method SaveLists(s: Store, at: Readings) returns (text: string, ghost order: seq<string>)
    ensures IsOrdering(order, s.lists.Keys)
    ensures text == Joined(FlatMap(order, ListLines(s, at)))
  {
    text, order := "", [];
    var left := s.lists.Keys;
    while left != {}
      invariant left <= s.lists.Keys && IsOrdering(order, s.lists.Keys - left)
      invariant text == Joined(FlatMap(order, ListLines(s, at)))
      decreases |left|
    {
      var key :| key in left;
      OrderingGrows(order, s.lists.Keys, left, key);
      FlatMapAppend(order, key, ListLines(s, at));
      var item := s.lists[key];
      if Saved(item.deadline, at.lists(key)) {
        var lines := WriteItems(key, item.value);
        text := text + lines;
      }
      order := order + [key];
      left := left - {key};
    }
    assert s.lists.Keys - left == s.lists.Keys;
  }

  method SaveSets(s: Store, at: Readings)
    returns (text: string, ghost order: seq<string>, ghost names: map<string, seq<string>>)
    ensures IsOrdering(order, s.sets.Keys)
    ensures forall k :: k in s.sets && Saved(s.sets[k].deadline, at.sets(k)) ==>
      k in names && IsOrdering(names[k], s.sets[k].value)
    ensures text == Joined(FlatMap(order, SetLines(s, at, names)))
  {
    hide FlatMap, SetLines, MemberLine, Joined;
    NothingJoined(SetLines(s, at, map[]));
    text, order, names := "", [], map[];
    var left := s.sets.Keys;
    while left != {}
      invariant left <= s.sets.Keys && IsOrdering(order, s.sets.Keys - left)
      invariant forall k :: k in names ==> k in s.sets && k !in left
      invariant forall k :: k in s.sets && k !in left && Saved(s.sets[k].deadline, at.sets(k)) ==>
        k in names && IsOrdering(names[k], s.sets[k].value)
      invariant text == Joined(FlatMap(order, SetLines(s, at, names)))
      decreases |left|
    {
      var key :| key in left;
      OrderingGrows(order, s.sets.Keys, left, key);
      var item := s.sets[key];
      if Saved(item.deadline, at.sets(key)) {
        var lines;
        ghost var nameOrder;
        lines, nameOrder := WriteMembers(key, item.value);
        SetLinesKeep(s, at, order, names, key, nameOrder);
        names := names[key := nameOrder];
        text := text + lines;
      }
      NextSet(s, at, order, names, key);
      order := order + [key];
      left := left - {key};
    }
    assert s.sets.Keys - left == s.sets.Keys;
  }
}
