/** Loading a saved snapshot: exactly which stores survive it. */
module SnapshotRoundTrip {
  import opened Prelude
  import opened Decimal
  import opened Keyspace
  import opened Snapshot

  /** A store of lasting strings and nothing else. */
  function Plain(m: map<string, string>): Store {
    Store(map k | k in m :: Entry(m[k], None), map[], map[], map[])
  }

  /** The strings the snapshot keeps, without their deadlines. */
  function LiveStrings(s: Store, at: Readings): map<string, string> {
    map k | k in s.strings && Saved(s.strings[k].deadline, at.strings(k)) :: s.strings[k].value
  }

  /** The text conditions a caller can check on one string before saving. */
  predicate Loadable(key: string, value: string) {
    && NewlineFree(key) && NewlineFree(value) && '=' !in key
    && !IsHeader(StringLine(key, value))
  }

  ghost predicate AllLoadable(s: Store, at: Readings) {
    forall k :: k in LiveStrings(s, at) ==> Loadable(k, LiveStrings(s, at)[k])
  }

  /** The saved hashes, lists and sets hold no line feed. */
  ghost predicate RestIsNewlineFree(s: Store, at: Readings) {
    && (forall k :: k in s.hashes && Saved(s.hashes[k].deadline, at.hashes(k)) ==>
          (NewlineFree(k) && forall f <- s.hashes[k].value :: NewlineFree(f) && NewlineFree(s.hashes[k].value[f])))
    && (forall k :: k in s.lists && Saved(s.lists[k].deadline, at.lists(k)) ==>
          (NewlineFree(k) && forall i :: 0 <= i < |s.lists[k].value| ==> NewlineFree(s.lists[k].value[i])))
    && (forall k :: k in s.sets && Saved(s.sets[k].deadline, at.sets(k)) ==>
          (NewlineFree(k) && forall n :: n in s.sets[k].value ==> NewlineFree(n)))
  }

  // ---------- loading as a map of strings ----------

  /** The section in force after a line. */
  function SectionAfter(line: string, section: string): string {
    if IsHeader(line) then HeaderName(line) else section
  }

  /** The strings loaded after a line. */
  function MapAfter(line: string, section: string, m: map<string, string>): map<string, string> {
    var i := IndexOf(line, '=');
    if !IsHeader(line) && i < |line| && section == "STRINGS" then m[line[..i] := line[i + 1..]] else m
  }

  function LoadMap(lines: seq<string>, section: string, m: map<string, string>): map<string, string>
    decreases |lines|
  {
    if lines == [] then m
    else LoadMap(lines[1..], SectionAfter(lines[0], section), MapAfter(lines[0], section, m))
  }

  lemma {:induction false} SetOnPlain(m: map<string, string>, t: int, key: string, value: string)
    ensures Apply(Plain(m), Event(t, key, Op.Set(value))).0 == Plain(m[key := value])
  {
    var c := CellAt(Plain(m), key);
    PutOneFamily(Plain(m), key, c);
    assert Purge(c, t) == c;
    assert Place(Plain(m).strings, key, Lasting(value)) == Plain(m[key := value]).strings;
  }

  lemma {:induction false} OneLineLoads(
      m: map<string, string>, clock: nat -> int, read: nat, lines: seq<string>, section: string)
    requires lines != []
    ensures var after := Plain(MapAfter(lines[0], section, m));
      LoadLines(Plain(m), clock, read, lines, section)
        == LoadLines(after, clock, read + 1, lines[1..], SectionAfter(lines[0], section))
  {
    var line := lines[0];
    var i := IndexOf(line, '=');
    if !IsHeader(line) && i < |line| {
      SetOnPlain(m, clock(read), line[..i], line[i + 1..]);
    }
    hide Apply, Plain;
  }

  lemma {:induction false} LoadIsLoadMap(
      m: map<string, string>, clock: nat -> int, read: nat, lines: seq<string>, section: string)
    ensures LoadLines(Plain(m), clock, read, lines, section) == Plain(LoadMap(lines, section, m))
    decreases |lines|
  {
    if lines == [] {
    } else {
      OneLineLoads(m, clock, read, lines, section);
      hide MapAfter, SectionAfter;
      LoadIsLoadMap(MapAfter(lines[0], section, m), clock, read + 1, lines[1..], SectionAfter(lines[0], section));
    }
  }

  // ---------- lines ----------

  predicate AllNewlineFree(lines: seq<string>) {
    forall i :: 0 <= i < |lines| ==> NewlineFree(lines[i])
  }

  lemma {:induction false} IndexOfFirst(a: string, c: char, b: string)
    requires c !in a
    ensures IndexOf(a + [c] + b, c) == |a|
  {
    var s := a + [c] + b;
    assert s[|a|] == c && forall i :: 0 <= i < |a| ==> s[i] == a[i];
    forall n | |a| < n <= |s| ensures c in s[..n] {
      assert s[..n][|a|] == c;
    }
  }

  lemma {:induction false} GetLinesOfJoined(lines: seq<string>)
    requires AllNewlineFree(lines)
    ensures GetLines(Joined(lines)) == lines
  {
    if lines == [] {
    } else {
      var line, tail := lines[0], Joined(lines[1..]);
      var text := line + "\n" + tail;
      IndexOfFirst(line, '\n', tail);
      assert text == line + ['\n'] + tail;
      assert text[..|line|] == line && text[|line| + 1..] == tail;
      GetLinesOfJoined(lines[1..]);
    }
  }

  /** A line that cannot open the STRINGS section. */
  predicate Inert(line: string) {
    IsHeader(line) ==> HeaderName(line) != "STRINGS"
  }

  predicate Quiet(lines: seq<string>) {
    forall i :: 0 <= i < |lines| ==> NewlineFree(lines[i]) && Inert(lines[i])
  }

  /** Every data line holds an '=', and no section name does. */
  lemma {:induction false} DataLinesAreInert(line: string)
    requires '=' in line
    ensures Inert(line)
  {
    if IsHeader(line) {
      var i :| 0 <= i < |line| && line[i] == '=';
      assert HeaderName(line)[i - 1] == '=';
      assert '=' !in "STRINGS";
    }
  }

  lemma {:induction false} QuietFlatMap(order: seq<string>, lines: string -> seq<string>)
    requires forall k :: k in order ==> Quiet(lines(k))
    ensures Quiet(FlatMap(order, lines))
  {
    if order == [] {
    } else {
      QuietFlatMap(order[1..], lines);
    }
  }

  lemma {:induction false} DigitsAreNewlineFree(n: nat)
    ensures NewlineFree(ToString(n))
  {
    assert forall i :: 0 <= i < |Digits(n)| ==> IsDigit(Digits(n)[i]);
  }

  lemma {:induction false} QuietItems(key: string, items: seq<string>, count: nat)
    requires count <= |items| && NewlineFree(key) && forall i :: 0 <= i < |items| ==> NewlineFree(items[i])
    ensures Quiet(ItemLines(key, items, count))
  {
    if count == 0 {
    } else {
      QuietItems(key, items, count - 1);
      var line := ItemLine(key, count - 1, items[count - 1]);
      DigitsAreNewlineFree(count - 1);
      assert line == key + "[" + ToString(count - 1) + "]" + ("=" + items[count - 1]);
      assert ("=" + items[count - 1])[0] == '=';
      DataLinesAreInert(line);
    }
  }

  lemma {:induction false} QuietFields(s: Store, at: Readings, o: Orders, key: string)
    requires ValidOrders(o, s, at) && RestIsNewlineFree(s, at)
    ensures Quiet(HashLines(s, at, o.fields)(key))
  {
    if key in s.hashes && Saved(s.hashes[key].deadline, at.hashes(key)) && key in o.fields {
      var fields := s.hashes[key].value;
      forall f | f in o.fields[key] ensures Quiet(FieldLine(key, fields)(f)) {
        var line := key + "." + f + "=" + fields[f];
        assert line == key + "." + f + ("=" + fields[f]) && ("=" + fields[f])[0] == '=';
        DataLinesAreInert(line);
      }
      QuietFlatMap(o.fields[key], FieldLine(key, fields));
    }
  }

  lemma {:induction false} QuietMembers(s: Store, at: Readings, o: Orders, key: string)
    requires ValidOrders(o, s, at) && RestIsNewlineFree(s, at)
    ensures Quiet(SetLines(s, at, o.names)(key))
  {
    if key in s.sets && Saved(s.sets[key].deadline, at.sets(key)) && key in o.names {
      forall n | n in o.names[key] ensures Quiet(MemberLine(key)(n)) {
        var line := key + "." + n + "=1";
        assert line == key + "." + n + "=1" && "=1"[0] == '=';
        DataLinesAreInert(line);
      }
      QuietFlatMap(o.names[key], MemberLine(key));
    }
  }

  lemma {:induction false} QuietRest(s: Store, at: Readings, o: Orders)
    requires ValidOrders(o, s, at) && RestIsNewlineFree(s, at)
    ensures Quiet(RestLines(s, at, o))
  {
    forall key
      ensures Quiet(HashLines(s, at, o.fields)(key)) && Quiet(SetLines(s, at, o.names)(key))
      ensures Quiet(ListLines(s, at)(key))
    {
      QuietFields(s, at, o, key);
      QuietMembers(s, at, o, key);
      QuietLists(s, at, key);
    }
    hide FlatMap, HashLines, ListLines, SetLines, Quiet, Section;
    QuietFlatMap(o.hashes, HashLines(s, at, o.fields));
    QuietFlatMap(o.lists, ListLines(s, at));
    QuietFlatMap(o.sets, SetLines(s, at, o.names));
    var hashes, lists, sets := FlatMap(o.hashes, HashLines(s, at, o.fields)), FlatMap(o.lists, ListLines(s, at)),
                               FlatMap(o.sets, SetLines(s, at, o.names));
    HeadersAreQuiet();
    QuietSection("[HASHES]", hashes);
    QuietSection("[LISTS]", lists);
    QuietSection("[SETS]", sets);
    QuietConcat(Section("[LISTS]", lists), Section("[SETS]", sets));
    QuietConcat(Section("[HASHES]", hashes), Section("[LISTS]", lists) + Section("[SETS]", sets));
  }

  lemma {:induction false} QuietLists(s: Store, at: Readings, key: string)
    requires RestIsNewlineFree(s, at)
    ensures Quiet(ListLines(s, at)(key))
  {
    if key in s.lists && Saved(s.lists[key].deadline, at.lists(key)) {
      QuietItems(key, s.lists[key].value, |s.lists[key].value|);
    }
  }

  lemma QuietSection(header: string, lines: seq<string>)
    requires NewlineFree(header) && Inert(header) && Quiet(lines)
    ensures Quiet(Section(header, lines))
  {
    hide NewlineFree, Inert;
  }

  lemma QuietConcat(a: seq<string>, b: seq<string>)
    requires Quiet(a) && Quiet(b)
    ensures Quiet(a + b)
  {
    hide NewlineFree, Inert;
  }

  lemma HeadersAreQuiet()
    ensures NewlineFree("[HASHES]") && NewlineFree("[LISTS]") && NewlineFree("[SETS]")
    ensures Inert("[HASHES]") && Inert("[LISTS]") && Inert("[SETS]")
    ensures IsHeader("[HASHES]") && HeaderName("[HASHES]") != "STRINGS"
    ensures IsHeader("[STRINGS]") && HeaderName("[STRINGS]") == "STRINGS" && NewlineFree("[STRINGS]")
  {
  }

  /** Outside the STRINGS section nothing is loaded. */
  lemma {:induction false} QuietLinesLoadNothing(lines: seq<string>, section: string, m: map<string, string>)
    requires Quiet(lines) && section != "STRINGS"
    ensures LoadMap(lines, section, m) == m
    decreases |lines|
  {
    if lines == [] {
    } else {
      hide IsHeader, HeaderName, NewlineFree;
      QuietLinesLoadNothing(lines[1..], SectionAfter(lines[0], section), m);
    }
  }

  /** The sections after STRINGS load nothing, whatever section was in force. */
  lemma {:induction false} RestLoadsNothing(s: Store, at: Readings, o: Orders, section: string, m: map<string, string>)
    requires ValidOrders(o, s, at) && RestIsNewlineFree(s, at)
    ensures LoadMap(RestLines(s, at, o), section, m) == m
  {
    QuietRest(s, at, o);
    HeadersAreQuiet();
    var rest := RestLines(s, at, o);
    assert rest[0] == "[HASHES]";
    hide RestLines, Quiet, IsHeader, HeaderName;
    assert Quiet(rest[1..]) by {
      assert forall i :: 0 <= i < |rest[1..]| ==> rest[1..][i] == rest[i + 1];
    }
    QuietLinesLoadNothing(rest[1..], HeaderName("[HASHES]"), m);
  }

  // ---------- what the string section loads ----------

  lemma {:induction false} StringLineParts(key: string, value: string)
    requires '=' !in key
    ensures var line := StringLine(key, value);
      line != "" && IndexOf(line, '=') == |key| < |line| && line[..|key|] == key && line[|key| + 1..] == value
  {
    assert StringLine(key, value) == key + ['='] + value;
    IndexOfFirst(key, '=', value);
  }

  lemma {:induction false} LoadOneString(
      key: string, value: string, tail: seq<string>, section: string, m: map<string, string>)
    requires '=' !in key
    ensures var line := StringLine(key, value);
      LoadMap([line] + tail, section, m) ==
        if IsHeader(line) then LoadMap(tail, HeaderName(line), m)
        else LoadMap(tail, section, if section == "STRINGS" then m[key := value] else m)
  {
    var line := StringLine(key, value);
    StringLineParts(key, value);
    assert ([line] + tail)[1..] == tail;
    hide IsHeader, HeaderName, StringLine;
  }

  lemma {:induction false} FirstString(s: Store, at: Readings, order: seq<string>, rest: seq<string>)
    requires order != []
    ensures var tail := FlatMap(order[1..], StringLines(s, at)) + rest;
      FlatMap(order, StringLines(s, at)) + rest ==
        if order[0] in LiveStrings(s, at) then [StringLine(order[0], LiveStrings(s, at)[order[0]])] + tail else tail
  {
  }

  lemma {:induction false} NoStrings(s: Store, at: Readings, rest: seq<string>)
    ensures FlatMap([], StringLines(s, at)) + rest == rest
  {
  }

  lemma {:induction false} LoadableStringsLoad(
      s: Store, at: Readings, o: Orders, order: seq<string>, m: map<string, string>)
    requires ValidOrders(o, s, at) && RestIsNewlineFree(s, at) && AllLoadable(s, at)
    ensures LoadMap(FlatMap(order, StringLines(s, at)) + RestLines(s, at, o), "STRINGS", m)
         == Entered(LiveStrings(s, at), order, m)
    decreases |order|
  {
    hide ValidOrders, RestIsNewlineFree, RestLines, FlatMap, LoadMap, LiveStrings, NewlineFree, IsHeader, StringLine;
    if order == [] {
      NoStrings(s, at, RestLines(s, at, o));
      RestLoadsNothing(s, at, o, "STRINGS", m);
    } else {
      var k, live := order[0], LiveStrings(s, at);
      FirstString(s, at, order, RestLines(s, at, o));
      LoadableStringsLoad(s, at, o, order[1..], if k in live then m[k := live[k]] else m);
      if k in live {
        LoadOneString(k, live[k], FlatMap(order[1..], StringLines(s, at)) + RestLines(s, at, o), "STRINGS", m);
      }
    }
  }

  /** A live string whose line looks like a section header is not loaded. */
  lemma {:induction false} HeaderLinesAreLost(
      s: Store, at: Readings, o: Orders, order: seq<string>, section: string, m: map<string, string>, key: string)
    requires ValidOrders(o, s, at) && RestIsNewlineFree(s, at)
    requires forall k :: k in LiveStrings(s, at) ==> '=' !in k
    requires key in LiveStrings(s, at) && IsHeader(StringLine(key, LiveStrings(s, at)[key])) && key !in m
    ensures key !in LoadMap(FlatMap(order, StringLines(s, at)) + RestLines(s, at, o), section, m)
    decreases |order|
  {
    hide ValidOrders, RestIsNewlineFree, RestLines, FlatMap, LoadMap, LiveStrings, IsHeader, HeaderName, StringLine;
    if order == [] {
      NoStrings(s, at, RestLines(s, at, o));
      RestLoadsNothing(s, at, o, section, m);
    } else {
      var k, live := order[0], LiveStrings(s, at);
      var tail := FlatMap(order[1..], StringLines(s, at)) + RestLines(s, at, o);
      FirstString(s, at, order, RestLines(s, at, o));
      if k in live {
        LoadOneString(k, live[k], tail, section, m);
        if IsHeader(StringLine(k, live[k])) {
          HeaderLinesAreLost(s, at, o, order[1..], HeaderName(StringLine(k, live[k])), m, key);
        } else {
          HeaderLinesAreLost(s, at, o, order[1..], section, if section == "STRINGS" then m[k := live[k]] else m, key);
        }
      } else {
        HeaderLinesAreLost(s, at, o, order[1..], section, m, key);
      }
    }
  }

  predicate LoadedShape(m: map<string, string>) {
    forall k :: k in m ==> NewlineFree(k) && '=' !in k && NewlineFree(m[k])
  }

  /** Whatever text is loaded, keys hold no '=' and nothing holds a line feed. */
  lemma {:induction false} LoadedStringsHaveShape(lines: seq<string>, section: string, m: map<string, string>)
    requires AllNewlineFree(lines) && LoadedShape(m)
    ensures LoadedShape(LoadMap(lines, section, m))
    decreases |lines|
  {
    if lines == [] {
    } else {
      var line := lines[0];
      var i := IndexOf(line, '=');
      assert i < |line| ==> NewlineFree(line[..i]) && NewlineFree(line[i + 1..]);
      LoadedStringsHaveShape(lines[1..], SectionAfter(line, section), MapAfter(line, section, m));
    }
  }

  // ---------- the round trip ----------

  /** The strings that loading the snapshot of `s` yields. */
  function Reloaded(s: Store, at: Readings, o: Orders): map<string, string> {
    LoadMap(GetLines(Joined(SnapshotLines(s, at, o))), "", map[])
  }

  lemma {:induction false} StringLinesNewlineFree(s: Store, at: Readings, order: seq<string>)
    requires forall k :: k in LiveStrings(s, at) ==> NewlineFree(k) && NewlineFree(LiveStrings(s, at)[k])
    ensures AllNewlineFree(FlatMap(order, StringLines(s, at)))
  {
    if order == [] {
    } else {
      StringLinesNewlineFree(s, at, order[1..]);
      var key := order[0];
      assert key in s.strings && Saved(s.strings[key].deadline, at.strings(key)) ==> key in LiveStrings(s, at);
    }
  }

  /** With newline-free strings the file is read back line by line. */
  lemma {:induction false} ReloadedLines(s: Store, at: Readings, o: Orders)
    requires ValidOrders(o, s, at) && RestIsNewlineFree(s, at)
    requires forall k :: k in LiveStrings(s, at) ==> NewlineFree(k) && NewlineFree(LiveStrings(s, at)[k])
    ensures Reloaded(s, at, o)
         == LoadMap(FlatMap(o.strings, StringLines(s, at)) + RestLines(s, at, o), "STRINGS", map[])
  {
    QuietRest(s, at, o);
    StringLinesNewlineFree(s, at, o.strings);
    HeadersAreQuiet();
    var strings, rest := FlatMap(o.strings, StringLines(s, at)), RestLines(s, at, o);
    var lines := SnapshotLines(s, at, o);
    SnapshotLinesSplit(s, at, o);
    hide FlatMap, StringLines, RestLines, IsHeader, HeaderName, NewlineFree, Inert, ValidOrders, RestIsNewlineFree;
    hide LiveStrings, SnapshotLines, GetLines, Joined;
    GetLinesOfJoined(lines);
  }

  lemma {:induction false} SnapshotLinesSplit(s: Store, at: Readings, o: Orders)
    ensures var lines := SnapshotLines(s, at, o);
      var strings, rest := FlatMap(o.strings, StringLines(s, at)), RestLines(s, at, o);
      && lines == ["[STRINGS]"] + (strings + rest) && lines[0] == "[STRINGS]" && lines[1..] == strings + rest
      && (AllNewlineFree(strings) && Quiet(rest) && NewlineFree("[STRINGS]") ==> AllNewlineFree(lines))
  {
    hide FlatMap, StringLines, RestLines, NewlineFree, Inert;
  }

  lemma {:induction false} LoadableIsReloaded(s: Store, at: Readings, o: Orders)
    requires ValidOrders(o, s, at) && RestIsNewlineFree(s, at) && AllLoadable(s, at)
    ensures Reloaded(s, at, o) == LiveStrings(s, at)
  {
    var live := LiveStrings(s, at);
    assert forall k :: k in live ==> Loadable(k, live[k]);
    assert forall k :: k in live ==> k in o.strings;
    EnteredAll(live, o.strings);
    hide ValidOrders, RestIsNewlineFree, RestLines, FlatMap, LoadMap, NewlineFree, IsHeader, LiveStrings, Entered;
    hide Reloaded;
    ReloadedLines(s, at, o);
    LoadableStringsLoad(s, at, o, o.strings, map[]);
  }

  lemma {:induction false} HeaderLineIsNotReloaded(s: Store, at: Readings, o: Orders, key: string)
    requires ValidOrders(o, s, at) && RestIsNewlineFree(s, at)
    requires forall k :: k in LiveStrings(s, at) ==> NewlineFree(k) && NewlineFree(LiveStrings(s, at)[k]) && '=' !in k
    requires key in LiveStrings(s, at) && IsHeader(StringLine(key, LiveStrings(s, at)[key]))
    ensures Reloaded(s, at, o) != LiveStrings(s, at)
  {
    hide ValidOrders, RestIsNewlineFree, RestLines, FlatMap, LoadMap, NewlineFree, IsHeader, LiveStrings, Reloaded;
    hide StringLine;
    ReloadedLines(s, at, o);
    HeaderLinesAreLost(s, at, o, o.strings, "STRINGS", map[], key);
  }

  lemma {:induction false} BrokenTextIsNotReloaded(s: Store, at: Readings, o: Orders, key: string)
    requires key in LiveStrings(s, at)
    requires !(NewlineFree(key) && NewlineFree(LiveStrings(s, at)[key]) && '=' !in key)
    ensures Reloaded(s, at, o) != LiveStrings(s, at)
  {
    LoadedStringsHaveShape(GetLines(Joined(SnapshotLines(s, at, o))), "", map[]);
    hide SnapshotLines, GetLines, Joined, LoadMap, NewlineFree, LiveStrings;
  }

  lemma {:induction false} ReloadedIsLive(s: Store, at: Readings, o: Orders)
    requires ValidOrders(o, s, at) && RestIsNewlineFree(s, at)
    ensures Reloaded(s, at, o) == LiveStrings(s, at) <==> AllLoadable(s, at)
  {
    hide ValidOrders, RestIsNewlineFree, Reloaded, LiveStrings, NewlineFree, IsHeader, StringLine;
    var live := LiveStrings(s, at);
    if AllLoadable(s, at) {
      LoadableIsReloaded(s, at, o);
    } else if key :| key in live && !(NewlineFree(key) && NewlineFree(live[key]) && '=' !in key) {
      BrokenTextIsNotReloaded(s, at, o, key);
    } else {
      var key :| key in live && !Loadable(key, live[key]);
      HeaderLineIsNotReloaded(s, at, o, key);
    }
  }

  /** Saving a store and loading the file into an empty one yields exactly the live strings, as
      lasting entries, if and only if every live string is loadable: newline-free, no '=' in its
      key, and not a line of the form "[...]". This holds for every map iteration order; hashes,
      lists and sets never come back. */
  lemma {:induction false} SnapshotRoundTrip(s: Store, at: Readings, o: Orders, clock: nat -> int)
    requires ValidOrders(o, s, at) && RestIsNewlineFree(s, at)
    ensures LoadLines(EMPTY_STORE, clock, 0, GetLines(Joined(SnapshotLines(s, at, o))), "") == Plain(Reloaded(s, at, o))
    ensures LoadLines(EMPTY_STORE, clock, 0, GetLines(Joined(SnapshotLines(s, at, o))), "") == Plain(LiveStrings(s, at))
       <==> AllLoadable(s, at)
  {
    assert EMPTY_STORE == Plain(map[]);
    LoadIsLoadMap(map[], clock, 0, GetLines(Joined(SnapshotLines(s, at, o))), "");
    ReloadedIsLive(s, at, o);
    PlainIsInjective(Reloaded(s, at, o), LiveStrings(s, at));
    hide Reloaded, LiveStrings, Plain, AllLoadable;
  }

  lemma PlainIsInjective(m: map<string, string>, n: map<string, string>)
    ensures Plain(m) == Plain(n) <==> m == n
  {
    if Plain(m) == Plain(n) {
      forall k ensures k in m <==> k in n
        ensures k in m ==> m[k] == n[k]
      {
        assert k in Plain(m).strings <==> k in Plain(n).strings;
        assert k in m ==> Plain(m).strings[k].value == m[k];
      }
    }
  }
}
