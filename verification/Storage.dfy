/** The server's storage object: four maps updated in place, one method per command.
    Each method performs one command atomically at clock reading `now` (nanoseconds). */
module Storage {
  import opened Prelude
  import opened Decimal
  import opened Keyspace

  /** The member loop of SADD on an existing set: only new names are counted. */
  method InsertNames(members: set<string>, names: seq<string>) returns (after: set<string>, added: int)
    ensures after == members + SetOf(names)
    ensures added == |after| - |members|
  {
    after, added := members, 0;
    for i := 0 to |names|
      invariant after == members + SetOf(names[..i])
      invariant added == |after| - |members|
    {
      SetOfTake(names, i);
      if names[i] !in after {
        after := after + {names[i]};
        added := added + 1;
      }
    }
    assert names[..|names|] == names;
  }

  /** The member loop of SADD that fills a new set. */
  method CollectNames(names: seq<string>) returns (members: set<string>, added: int)
    ensures members == SetOf(names)
    ensures added == |names|
  {
    members, added := {}, 0;
    for i := 0 to |names|
      invariant members == SetOf(names[..i]) && added == i
    {
      SetOfTake(names, i);
      members := members + {names[i]};
      added := added + 1;
    }
    assert names[..|names|] == names;
  }

  /** The member loop of SREM: a name is counted the first time it is erased. */
  method EraseNames(members: set<string>, names: seq<string>) returns (after: set<string>, removed: int)
    ensures after == members - SetOf(names)
    ensures removed == |members| - |after|
  {
    after, removed := members, 0;
    for i := 0 to |names|
      invariant after == members - SetOf(names[..i])
      invariant removed == |members| - |after|
    {
      SetOfTake(names, i);
      if names[i] in after {
        after := after - {names[i]};
        removed := removed + 1;
      }
    }
    assert names[..|names|] == names;
  }

  /** The literals that INCR and DECR write are what printing 1 and -1 gives. */
  lemma {:induction false} UnitTexts()
    ensures ToString(1) == "1" && ToString(-1) == "-1"
  {
    assert ToString(-1) == "-" + Digits(1);
  }

  class Storage {
    var stringData: map<string, Entry<string>>
    var hashData: map<string, Entry<map<string, string>>>
    var listData: map<string, Entry<seq<string>>>
    var setData: map<string, Entry<set<string>>>

    function Contents(): Store
      reads this
    {
      Store(stringData, hashData, listData, setData)
    }

    constructor ()
      ensures Contents() == EMPTY_STORE
    {
      stringData, hashData, listData, setData := map[], map[], map[], map[];
    }

    method RemoveExpired(key: string, now: int)
      modifies this
      ensures Contents() == PutCell(old(Contents()), key, Purge(CellAt(old(Contents()), key), now))
    {
      PlaceLive(stringData, key, now);
      PlaceLive(hashData, key, now);
      PlaceLive(listData, key, now);
      PlaceLive(setData, key, now);
      if key in stringData && Overdue(stringData[key].deadline, now) {
        stringData := stringData - {key};
      }
      if key in hashData && Overdue(hashData[key].deadline, now) {
        hashData := hashData - {key};
      }
      if key in listData && Overdue(listData[key].deadline, now) {
        listData := listData - {key};
      }
      if key in setData && Overdue(setData[key].deadline, now) {
        setData := setData - {key};
      }
    }

    method Set(key: string, value: string, now: int) returns (ok: bool)
      modifies this
      ensures ok
      ensures (Contents(), Done) == Apply(old(Contents()), Event(now, key, Op.Set(value)))
    {
      ApplyAfterPurge(Contents(), Event(now, key, Op.Set(value)));
      RemoveExpired(key, now);
      PutOneFamily(Contents(), key, CellAt(Contents(), key));
      stringData := stringData[key := Entry(value, None)];
      ok := true;
    }

    method Get(key: string, now: int) returns (value: Option<string>)
      modifies this
      ensures (Contents(), Text(value)) == Apply(old(Contents()), Event(now, key, Op.Get))
    {
      ApplyAfterPurge(Contents(), Event(now, key, Op.Get));
      RemoveExpired(key, now);
      PutCellLaws(Contents(), key, EMPTY_CELL, EMPTY_CELL);
      value := None;
      if key in stringData {
        value := Some(stringData[key].value);
      }
    }

    method Incr(key: string, now: int) returns (value: int)
      modifies this
      ensures (Contents(), Number(value)) == Apply(old(Contents()), Event(now, key, Op.Incr))
    {
      UnitTexts();
      hide Wrap64, ToString, Stoll;
      ApplyAfterPurge(Contents(), Event(now, key, Op.Incr));
      RemoveExpired(key, now);
      PutOneFamily(Contents(), key, CellAt(Contents(), key));
      if key in stringData {
        match Stoll(stringData[key].value)
        case Some(n) =>
          value := Wrap64(n + 1);
          stringData := stringData[key := stringData[key].(value := ToString(value))];
        case None =>
          stringData := stringData[key := Entry("1", None)];
          value := 1;
      } else {
        stringData := stringData[key := Entry("1", None)];
        value := 1;
      }
    }

    method Decr(key: string, now: int) returns (value: int)
      modifies this
      ensures (Contents(), Number(value)) == Apply(old(Contents()), Event(now, key, Op.Decr))
    {
      UnitTexts();
      hide Wrap64, ToString, Stoll;
      ApplyAfterPurge(Contents(), Event(now, key, Op.Decr));
      RemoveExpired(key, now);
      PutOneFamily(Contents(), key, CellAt(Contents(), key));
      if key in stringData {
        match Stoll(stringData[key].value)
        case Some(n) =>
          value := Wrap64(n - 1);
          stringData := stringData[key := stringData[key].(value := ToString(value))];
        case None =>
          stringData := stringData[key := Entry("-1", None)];
          value := -1;
      } else {
        stringData := stringData[key := Entry("-1", None)];
        value := -1;
      }
    }

    method IncrBy(key: string, increment: int, now: int) returns (value: int)
      modifies this
      ensures (Contents(), Number(value)) == Apply(old(Contents()), Event(now, key, Op.IncrBy(increment)))
    {
      hide Wrap64, ToString, Stoll;
      ApplyAfterPurge(Contents(), Event(now, key, Op.IncrBy(increment)));
      RemoveExpired(key, now);
      PutOneFamily(Contents(), key, CellAt(Contents(), key));
      if key in stringData {
        match Stoll(stringData[key].value)
        case Some(n) =>
          value := Wrap64(n + increment);
          stringData := stringData[key := stringData[key].(value := ToString(value))];
        case None =>
          value := increment;
          stringData := stringData[key := Entry(ToString(value), None)];
      } else {
        stringData := stringData[key := Entry(ToString(increment), None)];
        value := increment;
      }
    }

    method HSet(key: string, field: string, value: string, now: int) returns (ok: bool)
      modifies this
      ensures ok
      ensures (Contents(), Done) == Apply(old(Contents()), Event(now, key, Op.HSet(field, value)))
    {
      ApplyAfterPurge(Contents(), Event(now, key, Op.HSet(field, value)));
      RemoveExpired(key, now);
      PutOneFamily(Contents(), key, CellAt(Contents(), key));
      if key in hashData {
        hashData := hashData[key := hashData[key].(value := hashData[key].value[field := value])];
      } else {
        hashData := hashData[key := Entry(map[field := value], None)];
      }
      ok := true;
    }

    method HGet(key: string, field: string, now: int) returns (value: Option<string>)
      modifies this
      ensures (Contents(), Text(value)) == Apply(old(Contents()), Event(now, key, Op.HGet(field)))
    {
      ApplyAfterPurge(Contents(), Event(now, key, Op.HGet(field)));
      RemoveExpired(key, now);
      PutCellLaws(Contents(), key, EMPTY_CELL, EMPTY_CELL);
      value := None;
      if key in hashData {
        if field in hashData[key].value {
          value := Some(hashData[key].value[field]);
        }
      }
    }

    method HGetAll(key: string, now: int) returns (fields: map<string, string>)
      modifies this
      ensures (Contents(), Fields(fields)) == Apply(old(Contents()), Event(now, key, Op.HGetAll))
    {
      ApplyAfterPurge(Contents(), Event(now, key, Op.HGetAll));
      RemoveExpired(key, now);
      PutCellLaws(Contents(), key, EMPTY_CELL, EMPTY_CELL);
      if key in hashData {
        fields := hashData[key].value;
      } else {
        fields := map[];
      }
    }

    method LPush(key: string, values: seq<string>, now: int) returns (length: int)
      modifies this
      ensures (Contents(), Number(length)) == Apply(old(Contents()), Event(now, key, Op.LPush(values)))
    {
      ApplyAfterPurge(Contents(), Event(now, key, Op.LPush(values)));
      RemoveExpired(key, now);
      PutOneFamily(Contents(), key, CellAt(Contents(), key));
      if key in listData {
        listData := listData[key := listData[key].(value := values + listData[key].value)];
        length := |listData[key].value|;
      } else {
        assert values + [] == values;
        listData := listData[key := Entry(values, None)];
        length := |values|;
      }
    }

    method RPop(key: string, now: int) returns (value: Option<string>)
      modifies this
      ensures (Contents(), Text(value)) == Apply(old(Contents()), Event(now, key, Op.RPop))
    {
      ApplyAfterPurge(Contents(), Event(now, key, Op.RPop));
      RemoveExpired(key, now);
      PutCellLaws(Contents(), key, EMPTY_CELL, EMPTY_CELL);
      PutOneFamily(Contents(), key, CellAt(Contents(), key));
      value := None;
      if key in listData && listData[key].value != [] {
        var list := listData[key].value;
        value := Some(list[|list| - 1]);
        listData := listData[key := listData[key].(value := list[..|list| - 1])];
      }
    }

    method LRange(key: string, start: int, end: int, now: int) returns (items: seq<string>)
      modifies this
      ensures (Contents(), Items(items)) == Apply(old(Contents()), Event(now, key, Op.LRange(start, end)))
    {
      ApplyAfterPurge(Contents(), Event(now, key, Op.LRange(start, end)));
      RemoveExpired(key, now);
      PutCellLaws(Contents(), key, EMPTY_CELL, EMPTY_CELL);
      items := [];
      if key in listData {
        var values := listData[key].value;
        if values == [] {
          return;
        }
        var size := |values|;
        var a, b := start, end;
        if a < 0 {
          a := size + a;
        }
        if b < 0 {
          b := size + b;
        }
        a := Max(0, Min(a, size - 1));
        b := Max(0, Min(b, size - 1));
        if a > b {
          return;
        }
        items := values[a..b + 1];
      }
    }

    method SAdd(key: string, names: seq<string>, now: int) returns (added: int)
      modifies this
      ensures (Contents(), Number(added)) == Apply(old(Contents()), Event(now, key, Op.SAdd(names)))
    {
      ApplyAfterPurge(Contents(), Event(now, key, Op.SAdd(names)));
      RemoveExpired(key, now);
      PutOneFamily(Contents(), key, CellAt(Contents(), key));
      if key in setData {
        var members;
        members, added := InsertNames(setData[key].value, names);
        setData := setData[key := setData[key].(value := members)];
      } else {
        var members;
        members, added := CollectNames(names);
        assert {} + members == members;
        setData := setData[key := Entry(members, None)];
      }
    }

    method SRem(key: string, names: seq<string>, now: int) returns (removed: int)
      modifies this
      ensures (Contents(), Number(removed)) == Apply(old(Contents()), Event(now, key, Op.SRem(names)))
    {
      ApplyAfterPurge(Contents(), Event(now, key, Op.SRem(names)));
      RemoveExpired(key, now);
      PutCellLaws(Contents(), key, EMPTY_CELL, EMPTY_CELL);
      PutOneFamily(Contents(), key, CellAt(Contents(), key));
      removed := 0;
      ghost var held := setData;
      if key in setData {
        var members;
        members, removed := EraseNames(setData[key].value, names);
        setData := setData[key := setData[key].(value := members)];
        if members == {} {
          setData := setData - {key};
          assert setData == held - {key};
        }
      } else {
        assert held - {key} == held;
      }
    }

    method SIsMember(key: string, name: string, now: int) returns (found: bool)
      modifies this
      ensures (Contents(), Flag(found)) == Apply(old(Contents()), Event(now, key, Op.SIsMember(name)))
    {
      ApplyAfterPurge(Contents(), Event(now, key, Op.SIsMember(name)));
      RemoveExpired(key, now);
      PutCellLaws(Contents(), key, EMPTY_CELL, EMPTY_CELL);
      found := false;
      if key in setData {
        found := name in setData[key].value;
      }
    }

    method SMembers(key: string, now: int) returns (names: set<string>)
      modifies this
      ensures (Contents(), Members(names)) == Apply(old(Contents()), Event(now, key, Op.SMembers))
    {
      ApplyAfterPurge(Contents(), Event(now, key, Op.SMembers));
      RemoveExpired(key, now);
      PutCellLaws(Contents(), key, EMPTY_CELL, EMPTY_CELL);
      names := {};
      if key in setData {
        names := setData[key].value;
      }
    }

    method SCard(key: string, now: int) returns (size: int)
      modifies this
      ensures (Contents(), Number(size)) == Apply(old(Contents()), Event(now, key, Op.SCard))
    {
      ApplyAfterPurge(Contents(), Event(now, key, Op.SCard));
      RemoveExpired(key, now);
      PutCellLaws(Contents(), key, EMPTY_CELL, EMPTY_CELL);
      size := 0;
      if key in setData {
        size := |setData[key].value|;
      }
    }

    method Expire(key: string, seconds: int, now: int) returns (ok: bool)
      modifies this
      ensures (Contents(), Flag(ok)) == Apply(old(Contents()), Event(now, key, Op.Expire(seconds)))
    {
      PutCellLaws(Contents(), key, EMPTY_CELL, EMPTY_CELL);
      PutOneFamily(Contents(), key, CellAt(Contents(), key));
      hide DeadlineAfter;
      var expiryTime := DeadlineAfter(now, seconds);
      if key in stringData {
        stringData := stringData[key := stringData[key].(deadline := Some(expiryTime))];
        return true;
      }
      if key in hashData {
        hashData := hashData[key := hashData[key].(deadline := Some(expiryTime))];
        return true;
      }
      if key in listData {
        listData := listData[key := listData[key].(deadline := Some(expiryTime))];
        return true;
      }
      if key in setData {
        setData := setData[key := setData[key].(deadline := Some(expiryTime))];
        return true;
      }
      return false;
    }

    method Ttl(key: string, now: int) returns (seconds: int)
      modifies this
      ensures (Contents(), Number(seconds)) == Apply(old(Contents()), Event(now, key, Op.Ttl))
    {
      PutCellLaws(Contents(), key, EMPTY_CELL, EMPTY_CELL);
      PutOneFamily(Contents(), key, CellAt(Contents(), key));
      hide SecondsLeft;
      if key in stringData {
        var deadline := stringData[key].deadline;
        if deadline == None {
          return -1;
        }
        if IsExpired(deadline.value, now) {
          stringData := stringData - {key};
          return -2;
        }
        return SecondsLeft(deadline.value, now);
      }
      if key in hashData {
        var deadline := hashData[key].deadline;
        if deadline == None {
          return -1;
        }
        if IsExpired(deadline.value, now) {
          hashData := hashData - {key};
          return -2;
        }
        return SecondsLeft(deadline.value, now);
      }
      if key in listData {
        var deadline := listData[key].deadline;
        if deadline == None {
          return -1;
        }
        if IsExpired(deadline.value, now) {
          listData := listData - {key};
          return -2;
        }
        return SecondsLeft(deadline.value, now);
      }
      if key in setData {
        var deadline := setData[key].deadline;
        if deadline == None {
          return -1;
        }
        if IsExpired(deadline.value, now) {
          setData := setData - {key};
          return -2;
        }
        return SecondsLeft(deadline.value, now);
      }
      return -2;
    }
  }
}
