/** Snapshots of the stores that sessions can really produce. */
module ReachableSnapshots {
  import opened Decimal
  import opened Keyspace
  import opened Snapshot
  import opened RoundTrip = SnapshotRoundTrip
  import Text
  import Wire

  lemma WordsAreNewlineFree(w: string)
    requires Text.IsWord(w)
    ensures NewlineFree(w)
  {
    assert forall i :: 0 <= i < |w| ==> !IsSpace(w[i]);
  }

  predicate NewlineFreeFields(fields: map<string, string>) {
    forall f <- fields :: NewlineFree(f) && NewlineFree(fields[f])
  }

  /** No text stored in a tidy store, keys included, has a line feed in it. */
  lemma {:induction false} TidyEntries(s: Store, key: string)
    requires Wire.TidyStore(s)
    ensures key in s.strings ==> NewlineFree(key) && NewlineFree(s.strings[key].value)
    ensures key in s.hashes ==> NewlineFree(key) && NewlineFreeFields(s.hashes[key].value)
    ensures key in s.lists ==> NewlineFree(key) && AllNewlineFree(s.lists[key].value)
    ensures key in s.sets ==> NewlineFree(key) && forall n <- s.sets[key].value :: NewlineFree(n)
  {
    var c := CellAt(s, key);
    assert Wire.TidyCell(c) && (c != EMPTY_CELL ==> Text.IsWord(key));
    forall w | Text.IsWord(w) ensures NewlineFree(w) {
      WordsAreNewlineFree(w);
    }
    hide Text.IsWord, NewlineFree;
  }

  lemma {:induction false} TidyStoresAreNewlineFree(s: Store, at: Readings)
    requires Wire.TidyStore(s)
    ensures RestIsNewlineFree(s, at)
    ensures forall k <- LiveStrings(s, at) :: NewlineFree(k) && NewlineFree(LiveStrings(s, at)[k])
  {
    hide Wire.TidyStore, NewlineFree;
    forall key {
      TidyEntries(s, key);
    }
  }

  /** No live key holds '=' and no live line looks like a section header. */
  ghost predicate PlainlyNamed(s: Store, at: Readings) {
    forall k <- LiveStrings(s, at) :: '=' !in k && !IsHeader(StringLine(k, LiveStrings(s, at)[k]))
  }

  /** For every store that any session inputs can lead to, and with no condition on its texts left,
      a snapshot restores exactly the live strings if and only if no live key holds '=' and no live
      line is of the form "[...]". */
  lemma {:induction false} ReachableSnapshotRoundTrip(
      inputs: seq<(int, string)>, at: Readings, o: Orders, clock: nat -> int)
    requires ValidOrders(o, Wire.ServerRun(EMPTY_STORE, inputs), at)
    ensures var s := Wire.ServerRun(EMPTY_STORE, inputs);
      var loaded := LoadLines(EMPTY_STORE, clock, 0, GetLines(Joined(SnapshotLines(s, at, o))), "");
      loaded == Plain(LiveStrings(s, at)) <==> PlainlyNamed(s, at)
  {
    var s := Wire.ServerRun(EMPTY_STORE, inputs);
    Wire.EmptyStoreIsTidy();
    Wire.ReachableStoresAreTidy(EMPTY_STORE, inputs);
    TidyStoresAreNewlineFree(s, at);
    RoundTrip.SnapshotRoundTrip(s, at, o, clock);
    hide ValidOrders, RestIsNewlineFree, LiveStrings, NewlineFree, IsHeader, LoadLines, GetLines, Joined, SnapshotLines;
  }
}
