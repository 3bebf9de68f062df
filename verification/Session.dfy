/** One client session on the server: what a command line does to the store and how the reply is written. */
module Session {
  import opened Prelude
  import opened Decimal
  import opened Text
  import opened Keyspace
  import P = Parser
  import Storage

  // ---------- error replies ----------

  /** The reply to a command with too few arguments. */
  function Usage(kind: P.CommandType): string {
    match kind
    case SET => "ERROR: SET requires key and value"
    case GET => "ERROR: GET requires key"
    case INCR => "ERROR: INCR requires key"
    case DECR => "ERROR: DECR requires key"
    case INCRBY => "ERROR: INCRBY requires key and increment"
    case HSET => "ERROR: HSET requires hash key, field, and value"
    case HGET => "ERROR: HGET requires hash key and field"
    case HGETALL => "ERROR: HGETALL requires hash key"
    case LPUSH => "ERROR: LPUSH requires list key and at least one value"
    case RPOP => "ERROR: RPOP requires list key"
    case LRANGE => "ERROR: LRANGE requires list key, start index, and end index"
    case SADD => "ERROR: SADD requires set key and at least one member"
    case SMEMBERS => "ERROR: SMEMBERS requires set key"
    case SREM => "ERROR: SREM requires set key and at least one member"
    case SISMEMBER => "ERROR: SISMEMBER requires set key and member"
    case SCARD => "ERROR: SCARD requires set key"
    case EXPIRE => "ERROR: EXPIRE requires key and seconds"
    case TTL => "ERROR: TTL requires key"
    case _ => "ERROR: Unknown command"
  }

  /** The reply to an argument that should be a number and is not. */
  function Invalid(kind: P.CommandType): string {
    match kind
    case INCRBY => "ERROR: Invalid increment value"
    case LRANGE => "ERROR: Invalid range values"
    case _ => "ERROR: Invalid seconds value"
  }

  // ---------- what a command asks for ----------

  datatype Action = Pong | Run(key: string, op: Op) | Reject(message: string)

  function Interpret(cmd: P.Command): Action {
    var a := cmd.args;
    match cmd.kind
    case PING => Pong
    case SET => if |a| >= 2 then Run(a[0], Op.Set(a[1])) else Reject(Usage(P.SET))
    case GET => if |a| >= 1 then Run(a[0], Op.Get) else Reject(Usage(P.GET))
    case INCR => if |a| >= 1 then Run(a[0], Op.Incr) else Reject(Usage(P.INCR))
    case DECR => if |a| >= 1 then Run(a[0], Op.Decr) else Reject(Usage(P.DECR))
    case INCRBY =>
      if |a| < 2 then Reject(Usage(P.INCRBY))
      else if Stoll(a[1]) == None then Reject(Invalid(P.INCRBY))
      else Run(a[0], Op.IncrBy(Stoll(a[1]).value))
    case HSET =>
      if |a| >= 3 then Run(a[0], Op.HSet(a[1], a[2])) else Reject(Usage(P.HSET))
    case HGET => if |a| >= 2 then Run(a[0], Op.HGet(a[1])) else Reject(Usage(P.HGET))
    case HGETALL => if |a| >= 1 then Run(a[0], Op.HGetAll) else Reject(Usage(P.HGETALL))
    case LPUSH =>
      if |a| >= 2 then Run(a[0], Op.LPush(a[1..])) else Reject(Usage(P.LPUSH))
    case RPOP => if |a| >= 1 then Run(a[0], Op.RPop) else Reject(Usage(P.RPOP))
    case LRANGE =>
      if |a| < 3 then Reject(Usage(P.LRANGE))
      else if Stoll(a[1]) == None || Stoll(a[2]) == None then Reject(Invalid(P.LRANGE))
      else Run(a[0], Op.LRange(Stoll(a[1]).value, Stoll(a[2]).value))
    case SADD =>
      if |a| >= 2 then Run(a[0], Op.SAdd(a[1..])) else Reject(Usage(P.SADD))
    case SMEMBERS => if |a| >= 1 then Run(a[0], Op.SMembers) else Reject(Usage(P.SMEMBERS))
    case SREM =>
      if |a| >= 2 then Run(a[0], Op.SRem(a[1..])) else Reject(Usage(P.SREM))
    case SISMEMBER =>
      if |a| >= 2 then Run(a[0], Op.SIsMember(a[1])) else Reject(Usage(P.SISMEMBER))
    case SCARD => if |a| >= 1 then Run(a[0], Op.SCard) else Reject(Usage(P.SCARD))
    case EXPIRE =>
      if |a| < 2 then Reject(Usage(P.EXPIRE))
      else if Stoll(a[1]) == None then Reject(Invalid(P.EXPIRE))
      else Run(a[0], Op.Expire(Stoll(a[1]).value))
    case TTL => if |a| >= 1 then Run(a[0], Op.Ttl) else Reject(Usage(P.TTL))
    case UNKNOWN => Reject(Usage(P.UNKNOWN))
  }

  /** `n` is the 64-bit number that an argument starts with. */
  ghost predicate Reads(text: string, n: int) {
    InInt64(n) && StartsWithNumber(text, n)
  }

  ghost predicate Unreadable(text: string) {
    forall n :: !Reads(text, n)
  }

  lemma {:induction false} StollReads(text: string)
    ensures Stoll(text) == None <==> Unreadable(text)
    ensures forall n :: Reads(text, n) <==> Stoll(text) == Some(n)
  {
    forall n ensures Reads(text, n) <==> Stoll(text) == Some(n) {
      StollExactly(text, n);
    }
    if Stoll(text).Some? {
      assert Reads(text, Stoll(text).value);
    }
  }

  /** Which replies are errors, exactly. The parser lets no command through with too few arguments, so the
      usage replies never happen: a command is rejected only if it is unknown or a number cannot be read. */
  lemma {:induction false} RejectedExactly(text: string)
    ensures var cmd := P.Parsed(text); var a, action := cmd.args, Interpret(cmd);
      && (action == Reject("ERROR: Unknown command") <==> cmd.kind == P.UNKNOWN)
      && (action == Reject("ERROR: Invalid increment value") <==>
            (cmd.kind == P.INCRBY && |a| > 1 && Unreadable(a[1])))
      && (action == Reject("ERROR: Invalid range values") <==>
            (cmd.kind == P.LRANGE && |a| > 2 && (Unreadable(a[1]) || Unreadable(a[2]))))
      && (action == Reject("ERROR: Invalid seconds value") <==>
            (cmd.kind == P.EXPIRE && |a| > 1 && Unreadable(a[1])))
      && (action.Reject? ==> action.message in {"ERROR: Unknown command", "ERROR: Invalid increment value",
                                                "ERROR: Invalid range values", "ERROR: Invalid seconds value"})
  {
    P.ParsedIsWellFormed(text);
    hide Stoll, P.Parsed, IsWord, Unreadable;
    var a := P.Parsed(text).args;
    if |a| > 1 {
      StollReads(a[1]);
    }
    if |a| > 2 {
      StollReads(a[2]);
    }
  }

  /** Arguments that start with a number are read as it, whatever follows the digits. */
  lemma {:induction false} NumbersAreRead(cmd: P.Command, n: int, m: int)
    requires |cmd.args| > 1 && Reads(cmd.args[1], n)
    ensures cmd.kind == P.INCRBY ==> Interpret(cmd) == Run(cmd.args[0], Op.IncrBy(n))
    ensures cmd.kind == P.EXPIRE ==> Interpret(cmd) == Run(cmd.args[0], Op.Expire(n))
    ensures cmd.kind == P.LRANGE && |cmd.args| > 2 && Reads(cmd.args[2], m) ==>
      Interpret(cmd) == Run(cmd.args[0], Op.LRange(n, m))
  {
    StollReads(cmd.args[1]);
    if |cmd.args| > 2 {
      StollReads(cmd.args[2]);
    }
    hide Stoll, Reads;
  }

  // ---------- how a reply is written ----------

  /** Each line followed by CR LF. */
  function Rendered(lines: seq<string>): string {
    if lines == [] then "" else lines[0] + CRLF + Rendered(lines[1..])
  }

  lemma {:induction false} RenderedAppend(lines: seq<string>, line: string)
    ensures Rendered(lines + [line]) == Rendered(lines) + (line + CRLF)
  {
    if lines == [] {
      assert [line][1..] == [];
      assert Rendered([line]) == line + CRLF + Rendered([]);
    } else {
      assert (lines + [line])[1..] == lines[1..] + [line];
      RenderedAppend(lines[1..], line);
    }
  }

  function FieldLine(fields: map<string, string>, field: string): string {
    field + ": " + (if field in fields then fields[field] else "")
  }

  function FieldLines(fields: map<string, string>, order: seq<string>): seq<string> {
    if order == [] then [] else [FieldLine(fields, order[0])] + FieldLines(fields, order[1..])
  }

  lemma {:induction false} FieldLinesAppend(fields: map<string, string>, order: seq<string>, field: string)
    ensures FieldLines(fields, order + [field]) == FieldLines(fields, order) + [FieldLine(fields, field)]
  {
    if order == [] {
    } else {
      assert (order + [field])[1..] == order[1..] + [field];
      FieldLinesAppend(fields, order[1..], field);
    }
  }

  function ItemLines(items: seq<string>, count: nat): (lines: seq<string>)
    requires count <= |items|
  {
    if count == 0 then [] else ItemLines(items, count - 1) + [ToString(count - 1) + ") " + items[count - 1]]
  }

  /** The texts the session may answer with: hashes and sets are listed in any iteration order. */
  ghost predicate Renders(reply: Reply, text: string) {
    match reply
    case Done => text == "OK" + CRLF
    case Flag(flag) => text == (if flag then "1" else "0") + CRLF
    case Text(value) => text == (if value.Some? then value.value else "(nil)") + CRLF
    case Number(n) => text == ToString(n) + CRLF
    case Fields(fields) =>
      if fields == map[] then text == "(empty hash)" + CRLF
      else exists order :: IsOrdering(order, fields.Keys) && text == Rendered(FieldLines(fields, order))
    case Items(items) =>
      text == if items == [] then "(empty list)" + CRLF else Rendered(ItemLines(items, |items|))
    case Members(names) =>
      if names == {} then text == "(empty set)" + CRLF
      else exists order :: IsOrdering(order, names) && text == Rendered(order)
  }

  /** The lines a reader finds in a finite stream. */
  function LinesOf(stream: string): seq<string>
    decreases |stream|
  {
    var (line, rest) := ReadLine(stream);
    if line == None then [] else [line.value] + LinesOf(rest)
  }

  lemma {:induction false} LinesOfRendered(lines: seq<string>)
    requires forall i :: 0 <= i < |lines| ==> OneLine(lines[i])
    ensures LinesOf(Rendered(lines)) == lines
  {
    if lines == [] {
      assert ReadLine("") == (None, "");
    } else {
      ReadLineOfLine(lines[0], Rendered(lines[1..]));
      LinesOfRendered(lines[1..]);
      hide ReadLine;
    }
  }

  lemma {:induction false} ItemLinesAt(items: seq<string>, count: nat)
    requires count <= |items|
    ensures |ItemLines(items, count)| == count
    ensures forall i :: 0 <= i < count ==> ItemLines(items, count)[i] == ToString(i) + ") " + items[i]
  {
    hide ToString;
    if count == 0 {
    } else {
      ItemLinesAt(items, count - 1);
      var last := ToString(count - 1) + ") " + items[count - 1];
      var all, before := ItemLines(items, count), ItemLines(items, count - 1);
      assert all == before + [last];
      hide ItemLines;
      forall i | 0 <= i < count ensures all[i] == ToString(i) + ") " + items[i] {
        assert i < count - 1 ==> all[i] == before[i];
      }
    }
  }

  /** The reply to LRANGE, read line by line, numbers the elements from 0 in list order. */
  lemma {:induction false} ItemsArriveNumbered(items: seq<string>, text: string)
    requires Renders(Items(items), text) && items != [] && AllWords(items)
    ensures |LinesOf(text)| == |items|
    ensures forall i :: 0 <= i < |items| ==> LinesOf(text)[i] == ToString(i) + ") " + items[i]
  {
    ItemLinesAt(items, |items|);
    var lines := ItemLines(items, |items|);
    forall i | 0 <= i < |lines| ensures OneLine(lines[i]) {
      NumberIsWord(i);
      WordIsOneLine(ToString(i));
      WordIsOneLine(items[i]);
      assert lines[i] == ToString(i) + ") " + items[i];
    }
    hide OneLine, ItemLines;
    LinesOfRendered(lines);
  }

  /** What stands for no fields, no elements and no members. */
  lemma {:induction false} NothingIsSaid(text: string)
    ensures Renders(Items([]), text) ==> text == "(empty list)\r\n"
    ensures Renders(Fields(map[]), text) ==> text == "(empty hash)\r\n"
    ensures Renders(Members({}), text) ==> text == "(empty set)\r\n"
    ensures Renders(Text(None), text) ==> text == "(nil)\r\n"
  {
    assert CRLF == "\r\n";
  }

  function StoreAfter(s: Store, now: int, action: Action): Store {
    if action.Run? then Apply(s, Event(now, action.key, action.op)).0 else s
  }

  ghost predicate Answers(s: Store, now: int, action: Action, response: string) {
    match action
    case Pong => response == "PONG" + CRLF
    case Reject(message) => response == message + CRLF
    case Run(key, op) => Renders(Apply(s, Event(now, key, op)).1, response)
  }

  class Session {
    const storage: Storage.Storage
    var response: string

    constructor (storage: Storage.Storage)
      ensures this.storage == storage && response == ""
    {
      this.storage := storage;
      response := "";
    }

    /** One read: the command text without line ends is parsed and handled. */
    method Receive(data: string, now: int)
      modifies this, storage
      ensures var action := Interpret(P.Parsed(Strip(data)));
        && storage.Contents() == StoreAfter(old(storage.Contents()), now, action)
        && Answers(old(storage.Contents()), now, action, response)
    {
      var command := Strip(data);
      var cmd := P.Parse(command);
      HandleCommand(cmd, now);
    }

    method HandleCommand(cmd: P.Command, now: int)
      modifies this, storage
      ensures storage.Contents() == StoreAfter(old(storage.Contents()), now, Interpret(cmd))
      ensures Answers(old(storage.Contents()), now, Interpret(cmd), response)
    {
      hide Apply, Usage, Invalid, Renders;
      if cmd.kind == P.PING {
        response := "PONG" + CRLF;
      } else if cmd.kind == P.UNKNOWN {
        response := Usage(P.UNKNOWN) + CRLF;
      } else if cmd.kind in {P.SET, P.GET, P.INCR, P.DECR, P.INCRBY} {
        HandleString(cmd, now);
      } else if cmd.kind in {P.HSET, P.HGET, P.HGETALL, P.LPUSH, P.RPOP, P.LRANGE} {
        HandleHashOrList(cmd, now);
      } else if cmd.kind in {P.EXPIRE, P.TTL} {
        HandleExpiry(cmd, now);
      } else {
        HandleSet(cmd, now);
      }
    }

    /** Commands on strings and counters. */
    method HandleString(cmd: P.Command, now: int)
      requires cmd.kind in {P.SET, P.GET, P.INCR, P.DECR, P.INCRBY}
      modifies this, storage
      ensures storage.Contents() == StoreAfter(old(storage.Contents()), now, Interpret(cmd))
      ensures Answers(old(storage.Contents()), now, Interpret(cmd), response)
    {
      hide Apply, Stoll, Renders, Usage, Invalid;
      var a := cmd.args;
      match cmd.kind
      case SET =>
        if |a| >= 2 {
          var _ := storage.Set(a[0], a[1], now);
          WriteDone();
        } else {
          response := Usage(P.SET) + CRLF;
        }
      case GET =>
        if |a| >= 1 {
          var value := storage.Get(a[0], now);
          WriteText(value);
        } else {
          response := Usage(P.GET) + CRLF;
        }
      case INCR =>
        if |a| >= 1 {
          var value := storage.Incr(a[0], now);
          WriteNumber(value);
        } else {
          response := Usage(P.INCR) + CRLF;
        }
      case DECR =>
        if |a| >= 1 {
          var value := storage.Decr(a[0], now);
          WriteNumber(value);
        } else {
          response := Usage(P.DECR) + CRLF;
        }
      case INCRBY =>
        if |a| >= 2 {
          var increment := Stoll(a[1]);
          if increment.Some? {
            var value := storage.IncrBy(a[0], increment.value, now);
            WriteNumber(value);
          } else {
            response := Invalid(P.INCRBY) + CRLF;
          }
        } else {
          response := Usage(P.INCRBY) + CRLF;
        }
    }

    /** Commands on hashes and lists. */
    method HandleHashOrList(cmd: P.Command, now: int)
      requires cmd.kind in {P.HSET, P.HGET, P.HGETALL, P.LPUSH, P.RPOP, P.LRANGE}
      modifies this, storage
      ensures storage.Contents() == StoreAfter(old(storage.Contents()), now, Interpret(cmd))
      ensures Answers(old(storage.Contents()), now, Interpret(cmd), response)
    {
      hide Apply, Stoll, Renders, Usage, Invalid;
      var a := cmd.args;
      match cmd.kind
      case HSET =>
        if |a| >= 3 {
          var _ := storage.HSet(a[0], a[1], a[2], now);
          WriteDone();
        } else {
          response := Usage(P.HSET) + CRLF;
        }
      case HGET =>
        if |a| >= 2 {
          var value := storage.HGet(a[0], a[1], now);
          WriteText(value);
        } else {
          response := Usage(P.HGET) + CRLF;
        }
      case HGETALL =>
        if |a| >= 1 {
          var fields := storage.HGetAll(a[0], now);
          WriteFields(fields);
        } else {
          response := Usage(P.HGETALL) + CRLF;
        }
      case LPUSH =>
        if |a| >= 2 {
          var length := storage.LPush(a[0], a[1..], now);
          WriteNumber(length);
        } else {
          response := Usage(P.LPUSH) + CRLF;
        }
      case RPOP =>
        if |a| >= 1 {
          var value := storage.RPop(a[0], now);
          WriteText(value);
        } else {
          response := Usage(P.RPOP) + CRLF;
        }
      case LRANGE =>
        if |a| >= 3 {
          var start, end := Stoll(a[1]), Stoll(a[2]);
          if start.Some? && end.Some? {
            var items := storage.LRange(a[0], start.value, end.value, now);
            WriteItems(items);
          } else {
            response := Invalid(P.LRANGE) + CRLF;
          }
        } else {
          response := Usage(P.LRANGE) + CRLF;
        }
    }

    /** Commands on sets. */
    method HandleSet(cmd: P.Command, now: int)
      requires cmd.kind in {P.SADD, P.SMEMBERS, P.SREM, P.SISMEMBER, P.SCARD}
      modifies this, storage
      ensures storage.Contents() == StoreAfter(old(storage.Contents()), now, Interpret(cmd))
      ensures Answers(old(storage.Contents()), now, Interpret(cmd), response)
    {
      hide Apply, Stoll, Renders, Usage, Invalid;
      var a := cmd.args;
      match cmd.kind
      case SADD =>
        if |a| >= 2 {
          var added := storage.SAdd(a[0], a[1..], now);
          WriteNumber(added);
        } else {
          response := Usage(P.SADD) + CRLF;
        }
      case SMEMBERS =>
        if |a| >= 1 {
          var names := storage.SMembers(a[0], now);
          WriteMembers(names);
        } else {
          response := Usage(P.SMEMBERS) + CRLF;
        }
      case SREM =>
        if |a| >= 2 {
          var removed := storage.SRem(a[0], a[1..], now);
          WriteNumber(removed);
        } else {
          response := Usage(P.SREM) + CRLF;
        }
      case SISMEMBER =>
        if |a| >= 2 {
          var found := storage.SIsMember(a[0], a[1], now);
          WriteFlag(found);
        } else {
          response := Usage(P.SISMEMBER) + CRLF;
        }
      case SCARD =>
        if |a| >= 1 {
          var size := storage.SCard(a[0], now);
          WriteNumber(size);
        } else {
          response := Usage(P.SCARD) + CRLF;
        }
    }

    /** Expiry commands. */
    method HandleExpiry(cmd: P.Command, now: int)
      requires cmd.kind in {P.EXPIRE, P.TTL}
      modifies this, storage
      ensures storage.Contents() == StoreAfter(old(storage.Contents()), now, Interpret(cmd))
      ensures Answers(old(storage.Contents()), now, Interpret(cmd), response)
    {
      hide Apply, Stoll, Renders, Usage, Invalid;
      var a := cmd.args;
      match cmd.kind
      case EXPIRE =>
        if |a| >= 2 {
          var seconds := Stoll(a[1]);
          if seconds.Some? {
            var ok := storage.Expire(a[0], seconds.value, now);
            WriteFlag(ok);
          } else {
            response := Invalid(P.EXPIRE) + CRLF;
          }
        } else {
          response := Usage(P.EXPIRE) + CRLF;
        }
      case TTL =>
        if |a| >= 1 {
          var seconds := storage.Ttl(a[0], now);
          WriteNumber(seconds);
        } else {
          response := Usage(P.TTL) + CRLF;
        }
    }

    method WriteDone()
      modifies this`response
      ensures Renders(Done, response)
    {
      response := "OK" + CRLF;
    }

    method WriteNumber(n: int)
      modifies this`response
      ensures Renders(Number(n), response)
    {
      response := ToString(n) + CRLF;
    }

    method WriteFlag(flag: bool)
      modifies this`response
      ensures Renders(Flag(flag), response)
    {
      response := (if flag then "1" else "0") + CRLF;
    }

    method WriteText(value: Option<string>)
      modifies this`response
      ensures Renders(Text(value), response)
    {
      if value.Some? {
        response := value.value + CRLF;
      } else {
        response := "(nil)" + CRLF;
      }
    }

    /** One `field: value` line per field, in whatever order the map iterates. */
    method WriteFields(fields: map<string, string>)
      modifies this`response
      ensures Renders(Fields(fields), response)
    {
      if fields == map[] {
        response := "(empty hash)" + CRLF;
        return;
      }
      response := "";
      ghost var order := [];
      var left := fields.Keys;
      while left != {}
        invariant left <= fields.Keys && IsOrdering(order, fields.Keys - left)
        invariant response == Rendered(FieldLines(fields, order))
        decreases |left|
      {
        var field :| field in left;
        OrderingGrows(order, fields.Keys, left, field);
        FieldLinesAppend(fields, order, field);
        RenderedAppend(FieldLines(fields, order), FieldLine(fields, field));
        response := response + (field + ": " + fields[field] + CRLF);
        order := order + [field];
        left := left - {field};
      }
      assert IsOrdering(order, fields.Keys);
    }

    method WriteItems(items: seq<string>)
      modifies this`response
      ensures Renders(Items(items), response)
    {
      if items == [] {
        response := "(empty list)" + CRLF;
        return;
      }
      response := "";
      for i := 0 to |items|
        invariant response == Rendered(ItemLines(items, i))
      {
        RenderedAppend(ItemLines(items, i), ToString(i) + ") " + items[i]);
        response := response + (ToString(i) + ") " + items[i] + CRLF);
      }
    }

    method WriteMembers(names: set<string>)
      modifies this`response
      ensures Renders(Members(names), response)
    {
      if names == {} {
        response := "(empty set)" + CRLF;
        return;
      }
      response := "";
      ghost var order := [];
      var left := names;
      while left != {}
        invariant left <= names && IsOrdering(order, names - left)
        invariant response == Rendered(order)
        decreases |left|
      {
        var name :| name in left;
        OrderingGrows(order, names, left, name);
        RenderedAppend(order, name);
        response := response + (name + CRLF);
        order := order + [name];
        left := left - {name};
      }
      assert IsOrdering(order, names);
    }
  }
}
