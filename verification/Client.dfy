/** The Java client: each call prints one line, lets the server session handle it and decodes the reply.
    Every method is proved to act like the same command applied to the server's store directly. */
module Client {
  import opened Prelude
  import opened Decimal
  import opened Text
  import opened Keyspace
  import opened Wire
  import P = Parser
  import S = Session

  /** What a call of `op` does to the server's store and returns. */
  ghost function Delivered(s: Store, now: int, key: string, op: Op): (Store, Result)
    requires Deliverable(s, now, key, op)
  {
    var (after, reply) := Apply(s, Event(now, key, op));
    RepliesFit(CellAt(s, key), now, op);
    (after, Received(reply))
  }

  class RedicraftClient {
    const session: S.Session

    constructor (session: S.Session)
      ensures this.session == session
    {
      this.session := session;
    }

    ghost predicate Ready(now: int, key: string, op: Op)
      reads session, session.storage
    {
      Deliverable(session.storage.Contents(), now, key, op)
    }

    /** `println` and wait: the session receives the line and leaves its response in the stream. */
    method Exchange(request: string, now: int, ghost key: string, ghost op: Op) returns (stream: string)
      requires Ready(now, key, op) && request == Request(key, op)
      modifies session, session.storage
      ensures TidyStore(session.storage.Contents())
      ensures (session.storage.Contents(), Decode(op, stream))
           == Delivered(old(session.storage.Contents()), now, key, op)
    {
      session.Receive(request + "\n", now);
      stream := session.response;
      WireRefinement(old(session.storage.Contents()), now, key, op, stream);
      hide Deliverable, Apply, Decode, Received, Request, TidyStore, ActionOf, S.StoreAfter;
    }

    method Ping(now: int) returns (alive: bool)
      modifies session, session.storage
      ensures alive && session.storage.Contents() == old(session.storage.Contents())
    {
      hide S.Interpret, P.Parsed, Strip, ReadLine;
      PingIsUnderstood();
      session.Receive("PING\n", now);
      FirstLine("PONG");
      var line := ReadLine(session.response).0;
      alive := line == Some("PONG");
    }

    method Set(key: string, value: string, now: int) returns (result: Result)
      requires Ready(now, key, Op.Set(value))
      modifies session, session.storage
      ensures TidyStore(session.storage.Contents())
      ensures (session.storage.Contents(), result)
           == Delivered(old(session.storage.Contents()), now, key, Op.Set(value))
    {
      hide Delivered, Deliverable;
      SpacedLists(key, value, "");
      var stream := Exchange("SET" + " " + key + " " + value, now, key, Op.Set(value));
      var response := ReadLine(stream).0;
      result := if response == None then Failure else Unit;
    }

    method Get(key: string, now: int) returns (result: Result)
      requires Ready(now, key, Op.Get)
      modifies session, session.storage
      ensures TidyStore(session.storage.Contents())
      ensures (session.storage.Contents(), result) == Delivered(old(session.storage.Contents()), now, key, Op.Get)
    {
      hide Delivered, Deliverable;
      SpacedLists(key, "", "");
      var stream := Exchange("GET" + " " + key, now, key, Op.Get);
      result := DecodeWord(ReadLine(stream).0);
    }

    method Incr(key: string, now: int) returns (result: Result)
      requires Ready(now, key, Op.Incr)
      modifies session, session.storage
      ensures TidyStore(session.storage.Contents())
      ensures (session.storage.Contents(), result) == Delivered(old(session.storage.Contents()), now, key, Op.Incr)
    {
      hide Delivered, Deliverable;
      SpacedLists(key, "", "");
      var stream := Exchange("INCR" + " " + key, now, key, Op.Incr);
      result := DecodeLong(ReadLine(stream).0);
    }

    method Decr(key: string, now: int) returns (result: Result)
      requires Ready(now, key, Op.Decr)
      modifies session, session.storage
      ensures TidyStore(session.storage.Contents())
      ensures (session.storage.Contents(), result) == Delivered(old(session.storage.Contents()), now, key, Op.Decr)
    {
      hide Delivered, Deliverable;
      SpacedLists(key, "", "");
      var stream := Exchange("DECR" + " " + key, now, key, Op.Decr);
      result := DecodeLong(ReadLine(stream).0);
    }

    method IncrBy(key: string, increment: int, now: int) returns (result: Result)
      requires Ready(now, key, Op.IncrBy(increment))
      modifies session, session.storage
      ensures TidyStore(session.storage.Contents())
      ensures (session.storage.Contents(), result)
           == Delivered(old(session.storage.Contents()), now, key, Op.IncrBy(increment))
    {
      hide Delivered, Deliverable;
      SpacedLists(key, ToString(increment), "");
      var stream := Exchange("INCRBY" + " " + key + " " + ToString(increment), now, key, Op.IncrBy(increment));
      result := DecodeLong(ReadLine(stream).0);
    }

    method HSet(key: string, field: string, value: string, now: int) returns (result: Result)
      requires Ready(now, key, Op.HSet(field, value))
      modifies session, session.storage
      ensures TidyStore(session.storage.Contents())
      ensures (session.storage.Contents(), result)
           == Delivered(old(session.storage.Contents()), now, key, Op.HSet(field, value))
    {
      hide Delivered, Deliverable;
      SpacedLists(key, field, value);
      var stream := Exchange("HSET" + " " + key + " " + field + " " + value, now, key, Op.HSet(field, value));
      var response := ReadLine(stream).0;
      result := if response == None then Failure else Unit;
    }

    method HGet(key: string, field: string, now: int) returns (result: Result)
      requires Ready(now, key, Op.HGet(field))
      modifies session, session.storage
      ensures TidyStore(session.storage.Contents())
      ensures (session.storage.Contents(), result)
           == Delivered(old(session.storage.Contents()), now, key, Op.HGet(field))
    {
      hide Delivered, Deliverable;
      SpacedLists(key, field, "");
      var stream := Exchange("HGET" + " " + key + " " + field, now, key, Op.HGet(field));
      result := DecodeWord(ReadLine(stream).0);
    }

    method HGetAll(key: string, now: int) returns (result: Result)
      requires Ready(now, key, Op.HGetAll)
      modifies session, session.storage
      ensures TidyStore(session.storage.Contents())
      ensures (session.storage.Contents(), result) == Delivered(old(session.storage.Contents()), now, key, Op.HGetAll)
    {
      hide Delivered, Deliverable;
      SpacedLists(key, "", "");
      var stream := Exchange("HGETALL" + " " + key, now, key, Op.HGetAll);
      var entries := ReadFields(stream);
      result := Map(entries);
    }

    method LPush(key: string, values: seq<string>, now: int) returns (result: Result)
      requires Ready(now, key, Op.LPush(values))
      modifies session, session.storage
      ensures TidyStore(session.storage.Contents())
      ensures (session.storage.Contents(), result)
           == Delivered(old(session.storage.Contents()), now, key, Op.LPush(values))
    {
      hide Delivered, Deliverable;
      var command := Append("LPUSH" + " " + key, values);
      SpacedCons("LPUSH", key, values);
      hide Spaced;
      var stream := Exchange(command, now, key, Op.LPush(values));
      result := DecodeLong(ReadLine(stream).0);
    }

    method RPop(key: string, now: int) returns (result: Result)
      requires Ready(now, key, Op.RPop)
      modifies session, session.storage
      ensures TidyStore(session.storage.Contents())
      ensures (session.storage.Contents(), result) == Delivered(old(session.storage.Contents()), now, key, Op.RPop)
    {
      hide Delivered, Deliverable;
      SpacedLists(key, "", "");
      var stream := Exchange("RPOP" + " " + key, now, key, Op.RPop);
      result := DecodeWord(ReadLine(stream).0);
    }

    method SAdd(key: string, names: seq<string>, now: int) returns (result: Result)
      requires Ready(now, key, Op.SAdd(names))
      modifies session, session.storage
      ensures TidyStore(session.storage.Contents())
      ensures (session.storage.Contents(), result)
           == Delivered(old(session.storage.Contents()), now, key, Op.SAdd(names))
    {
      hide Delivered, Deliverable;
      var command := Append("SADD" + " " + key, names);
      SpacedCons("SADD", key, names);
      hide Spaced;
      var stream := Exchange(command, now, key, Op.SAdd(names));
      result := DecodeLong(ReadLine(stream).0);
    }

    method SRem(key: string, names: seq<string>, now: int) returns (result: Result)
      requires Ready(now, key, Op.SRem(names))
      modifies session, session.storage
      ensures TidyStore(session.storage.Contents())
      ensures (session.storage.Contents(), result)
           == Delivered(old(session.storage.Contents()), now, key, Op.SRem(names))
    {
      hide Delivered, Deliverable;
      var command := Append("SREM" + " " + key, names);
      SpacedCons("SREM", key, names);
      hide Spaced;
      var stream := Exchange(command, now, key, Op.SRem(names));
      result := DecodeLong(ReadLine(stream).0);
    }

    method SMembers(key: string, now: int) returns (result: Result)
      requires Ready(now, key, Op.SMembers)
      modifies session, session.storage
      ensures TidyStore(session.storage.Contents())
      ensures (session.storage.Contents(), result) == Delivered(old(session.storage.Contents()), now, key, Op.SMembers)
    {
      hide Delivered, Deliverable;
      SpacedLists(key, "", "");
      var stream := Exchange("SMEMBERS" + " " + key, now, key, Op.SMembers);
      var names := ReadMembers(stream);
      result := Names(names);
    }

    method SIsMember(key: string, name: string, now: int) returns (result: Result)
      requires Ready(now, key, Op.SIsMember(name))
      modifies session, session.storage
      ensures TidyStore(session.storage.Contents())
      ensures (session.storage.Contents(), result)
           == Delivered(old(session.storage.Contents()), now, key, Op.SIsMember(name))
    {
      hide Delivered, Deliverable;
      SpacedLists(key, name, "");
      var stream := Exchange("SISMEMBER" + " " + key + " " + name, now, key, Op.SIsMember(name));
      result := Bool(ReadLine(stream).0 == Some("1"));
    }

    method SCard(key: string, now: int) returns (result: Result)
      requires Ready(now, key, Op.SCard)
      modifies session, session.storage
      ensures TidyStore(session.storage.Contents())
      ensures (session.storage.Contents(), result) == Delivered(old(session.storage.Contents()), now, key, Op.SCard)
    {
      hide Delivered, Deliverable;
      SpacedLists(key, "", "");
      var stream := Exchange("SCARD" + " " + key, now, key, Op.SCard);
      result := DecodeLong(ReadLine(stream).0);
    }

    method Expire(key: string, seconds: int, now: int) returns (result: Result)
      requires Ready(now, key, Op.Expire(seconds))
      modifies session, session.storage
      ensures TidyStore(session.storage.Contents())
      ensures (session.storage.Contents(), result)
           == Delivered(old(session.storage.Contents()), now, key, Op.Expire(seconds))
    {
      hide Delivered, Deliverable;
      SpacedLists(key, ToString(seconds), "");
      var stream := Exchange("EXPIRE" + " " + key + " " + ToString(seconds), now, key, Op.Expire(seconds));
      result := Bool(ReadLine(stream).0 == Some("1"));
    }

    method Ttl(key: string, now: int) returns (result: Result)
      requires Ready(now, key, Op.Ttl)
      modifies session, session.storage
      ensures TidyStore(session.storage.Contents())
      ensures (session.storage.Contents(), result) == Delivered(old(session.storage.Contents()), now, key, Op.Ttl)
    {
      hide Delivered, Deliverable;
      SpacedLists(key, "", "");
      var stream := Exchange("TTL" + " " + key, now, key, Op.Ttl);
      result := DecodeLong(ReadLine(stream).0);
    }
  }

  lemma {:induction false} SpacedCons(name: string, key: string, values: seq<string>)
    ensures name + " " + key + Spaced(values) == name + Spaced([key] + values)
  {
    assert ([key] + values)[1..] == values;
    assert name + " " + key + Spaced(values) == name + (" " + key + Spaced(values));
  }

  lemma {:induction false} PingIsUnderstood()
    ensures S.Interpret(P.Parsed(Strip("PING\n"))) == S.Pong
  {
    hide Strip, P.Parsed, S.Usage, S.Invalid, Stoll;
    var cmd := P.Command(P.PING, []);
    assert "PING\n" == "PING" + "\n";
    StripLine("PING");
    P.ParseOfPrint(cmd);
    assert P.Print(cmd) == "PING" + "" == "PING";
  }

  /** The string builder of the variadic calls. */
  method Append(prefix: string, values: seq<string>) returns (command: string)
    ensures command == prefix + Spaced(values)
  {
    command := prefix;
    for i := 0 to |values|
      invariant command == prefix + Spaced(values[..i])
    {
      assert values[..i + 1] == values[..i] + [values[i]];
      SpacedAppend(values[..i], values[i]);
      command := command + " " + values[i];
    }
    assert values[..|values|] == values;
  }

  /** One line of the loop: `field: value` is entered, anything else is skipped. */
  function Enter(line: string, entries: map<string, string>): map<string, string> {
    var i := ColonSpace(line);
    if 0 < i < |line| then entries[line[..i] := line[i + 2..]] else entries
  }

  /** The lines still to be entered when `line` has been read and `rest` is left. */
  function FieldsFrom(line: Option<string>, rest: string, entries: map<string, string>): map<string, string> {
    if line == None || line == Some("") || line == Some(EMPTY_HASH_RESPONSE) then entries
    else DecodeFields(rest, Enter(line.value, entries))
  }

  lemma {:induction false} FieldsFromLine(stream: string, entries: map<string, string>)
    ensures var (line, rest) := ReadLine(stream);
      DecodeFields(stream, entries) == FieldsFrom(line, rest, entries)
  {
    hide ReadLine, ColonSpace;
  }

  /** The reading loop of `hgetAll`. */
  method ReadFields(stream: string) returns (entries: map<string, string>)
    ensures entries == DecodeFields(stream, map[])
  {
    hide DecodeFields, ReadLine, Enter;
    entries := map[];
    FieldsFromLine(stream, entries);
    var (response, rest) := ReadLine(stream);
    while response.Some? && response != Some("")
      invariant DecodeFields(stream, map[]) == FieldsFrom(response, rest, entries)
      decreases |rest| + (if response.Some? then 1 else 0)
    {
      if response == Some(EMPTY_HASH_RESPONSE) {
        return;
      }
      entries := Enter(response.value, entries);
      FieldsFromLine(rest, entries);
      var (next, left) := ReadLine(rest);
      response, rest := next, left;
    }
  }

  /** The reading loop of `smembers`. */
  method ReadMembers(stream: string) returns (names: set<string>)
    ensures names == DecodeMembers(stream, {})
  {
    names := {};
    var (response, rest) := ReadLine(stream);
    while response.Some? && response != Some("")
      invariant DecodeMembers(stream, {}) ==
        if response.Some? && response != Some("") && response != Some(EMPTY_SET_RESPONSE) then
          DecodeMembers(rest, names + {response.value})
        else names
      decreases |rest| + (if response.Some? then 1 else 0)
    {
      if response == Some(EMPTY_SET_RESPONSE) {
        return;
      }
      names := names + {response.value};
      var (next, left) := ReadLine(rest);
      response, rest := next, left;
    }
  }
}
