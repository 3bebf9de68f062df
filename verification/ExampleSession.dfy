/** The example session of the server's read-me file: the lines a session receives and the very bytes it
    answers, for any key and any words. */
module ExampleSession {
  import opened Prelude
  import opened Decimal
  import opened Keyspace
  import opened Text
  import opened Session
  import opened Wire
  import P = Parser

  /** A line, as a command name and its arguments, and the whole text that comes back. */
  datatype Exchange = Exchange(name: string, args: seq<string>, answer: string)

  /** Every line gets its answer and no other. */
  ghost predicate Talk(s: Store, now: int, script: seq<Exchange>)
    decreases |script|
  {
    script == [] ||
    var action := ActionOf(script[0].name + Spaced(script[0].args) + "\n");
    && (forall text :: Answers(s, now, action, text) <==> text == script[0].answer)
    && Talk(StoreAfter(s, now, action), now, script[1..])
  }

  // ---------- conversations about one key ----------

  datatype Turn = Turn(op: Op, answer: string)

  ghost predicate CellTalk(c: Cell, now: int, turns: seq<Turn>)
    decreases |turns|
  {
    turns == [] ||
    (&& (forall text :: Renders(Step(c, now, turns[0].op).1, text) <==> text == turns[0].answer)
     && CellTalk(Step(c, now, turns[0].op).0, now, turns[1..]))
  }

  function Said(key: string, t: Turn): Exchange {
    Exchange(P.Name(KindOf(t.op)), [key] + Operands(t.op), t.answer)
  }

  function Script(key: string, turns: seq<Turn>): seq<Exchange> {
    seq(|turns|, i requires 0 <= i < |turns| => Said(key, turns[i]))
  }

  lemma {:induction false} LineIsUnderstood(key: string, op: Op)
    requires Sendable(key, op)
    ensures ActionOf(P.Name(KindOf(op)) + Spaced([key] + Operands(op)) + "\n") == Run(key, op)
  {
    RequestsArriveIntact(key, op);
    hide Sendable, Strip, Spaced, Operands;
  }

  lemma {:induction false} TalkAboutKey(s: Store, key: string, now: int, turns: seq<Turn>)
    requires forall i :: 0 <= i < |turns| ==> Sendable(key, turns[i].op)
    requires CellTalk(CellAt(s, key), now, turns)
    ensures Talk(s, now, Script(key, turns))
    decreases |turns|
  {
    if turns == [] {
    } else {
      hide Sendable, Step, Renders, CellAt, PutCell, Operands, ActionOf, Spaced, P.Name, KindOf;
      var op := turns[0].op;
      LineIsUnderstood(key, op);
      CellAfterPut(s, key, Step(CellAt(s, key), now, op).0, key);
      assert Script(key, turns)[1..] == Script(key, turns[1..]);
      TalkAboutKey(StoreAfter(s, now, Run(key, op)), key, now, turns[1..]);
    }
  }

  lemma {:induction false} OneTurn(c: Cell, now: int, turn: Turn, rest: seq<Turn>)
    requires forall text :: Renders(Step(c, now, turn.op).1, text) <==> text == turn.answer
    requires CellTalk(Step(c, now, turn.op).0, now, rest)
    ensures CellTalk(c, now, [turn] + rest)
  {
    assert ([turn] + rest)[1..] == rest;
    hide Step, Renders;
  }

  /** How the operations are spelled on the wire, here and in the next lemma. */
  lemma {:induction false} Spelling(key: string)
    ensures forall a :: Said(key, Turn(Get, a)) == Exchange("GET", [key], a)
    ensures forall a :: Said(key, Turn(Incr, a)) == Exchange("INCR", [key], a)
    ensures forall a :: Said(key, Turn(Decr, a)) == Exchange("DECR", [key], a)
    ensures forall a :: Said(key, Turn(RPop, a)) == Exchange("RPOP", [key], a)
    ensures forall a :: Said(key, Turn(Ttl, a)) == Exchange("TTL", [key], a)
    ensures forall v, a :: Said(key, Turn(Set(v), a)) == Exchange("SET", [key, v], a)
    ensures forall f, a :: Said(key, Turn(HGet(f), a)) == Exchange("HGET", [key, f], a)
    ensures forall f, v, a :: Said(key, Turn(HSet(f, v), a)) == Exchange("HSET", [key, f, v], a)
    ensures forall n, a :: Said(key, Turn(IncrBy(n), a)) == Exchange("INCRBY", [key, ToString(n)], a)
    ensures forall n, a :: Said(key, Turn(Expire(n), a)) == Exchange("EXPIRE", [key, ToString(n)], a)
    ensures forall vs, a :: Said(key, Turn(LPush(vs), a)) == Exchange("LPUSH", [key] + vs, a)
  {
    hide ToString;
  }

  lemma {:induction false} SpellingOfOthers(key: string)
    ensures forall m, n, a :: Said(key, Turn(LRange(m, n), a)) == Exchange("LRANGE", [key, ToString(m), ToString(n)], a)
    ensures forall vs, a :: Said(key, Turn(SAdd(vs), a)) == Exchange("SADD", [key] + vs, a)
    ensures forall vs, a :: Said(key, Turn(SRem(vs), a)) == Exchange("SREM", [key] + vs, a)
    ensures forall v, a :: Said(key, Turn(SIsMember(v), a)) == Exchange("SISMEMBER", [key, v], a)
    ensures forall a :: Said(key, Turn(SMembers, a)) == Exchange("SMEMBERS", [key], a)
    ensures forall a :: Said(key, Turn(SCard, a)) == Exchange("SCARD", [key], a)
    ensures forall a :: Said(key, Turn(HGetAll, a)) == Exchange("HGETALL", [key], a)
  {
    hide ToString;
  }

  lemma {:induction false} SmallNumbers()
    ensures ToString(0) == "0" && ToString(1) == "1" && ToString(2) == "2" && ToString(3) == "3"
    ensures ToString(60) == "60" && ToString(500) == "500" && ToString(-2) == "-2"
    ensures Stoll("1") == Some(1) && Stoll("2") == Some(2)
  {
    assert Digits(6) == "6" && Digits(5) == "5" && Digits(50) == "50";
    NumberRoundTrip(1);
    NumberRoundTrip(2);
    hide Stoll, Digits;
  }

  lemma {:induction false} LargeNumbers()
    ensures ToString(1000) == "1000" && ToString(1500) == "1500" && Stoll("1000") == Some(1000)
  {
    assert Digits(1) == "1" && Digits(10) == "10" && Digits(15) == "15" && Digits(100) == "100" && Digits(150) == "150";
    NumberRoundTrip(1000);
    hide Stoll, Digits;
  }

  function OneString(value: string, deadline: Option<int>): Cell {
    Cell(Some(Entry(value, deadline)), None, None, None)
  }

  function OneHash(fields: map<string, string>): Cell {
    Cell(None, Lasting(fields), None, None)
  }

  function OneList(items: seq<string>): Cell {
    Cell(None, None, Lasting(items), None)
  }

  // ---------- the example ----------

  lemma {:induction false} MoneyTurns(now: int)
    ensures CellTalk(EMPTY_CELL, now,
      [Turn(Set("1000"), "OK\r\n"), Turn(Get, "1000\r\n"), Turn(IncrBy(500), "1500\r\n"), Turn(Get, "1500\r\n")])
  {
    LargeNumbers();
    hide Stoll, ToString;
    assert Step(EMPTY_CELL, now, Set("1000")) == (OneString("1000", None), Done);
    assert Step(OneString("1000", None), now, Get) == (OneString("1000", None), Reply.Text(Some("1000")));
    assert Step(OneString("1000", None), now, IncrBy(500)) == (OneString("1500", None), Number(1500));
    assert Step(OneString("1500", None), now, Get) == (OneString("1500", None), Reply.Text(Some("1500")));
    hide Step;
    var t1 := Turn(Set("1000"), "OK\r\n");
    var t2 := Turn(Get, "1000\r\n");
    var t3 := Turn(IncrBy(500), "1500\r\n");
    var t4 := Turn(Get, "1500\r\n");
    OneTurn(OneString("1500", None), now, t4, []);
    assert [t4] + [] == [t4];
    OneTurn(OneString("1000", None), now, t3, [t4]);
    assert [t3] + [t4] == [t3, t4];
    OneTurn(OneString("1000", None), now, t2, [t3, t4]);
    assert [t2] + [t3, t4] == [t2, t3, t4];
    OneTurn(EMPTY_CELL, now, t1, [t2, t3, t4]);
    assert [t1] + [t2, t3, t4] == [t1, t2, t3, t4];
  }

  lemma {:induction false} KillTurns(now: int)
    ensures CellTalk(EMPTY_CELL, now,
      [Turn(Incr, "1\r\n"), Turn(Incr, "2\r\n"), Turn(Decr, "1\r\n")])
  {
    SmallNumbers();
    hide Stoll, ToString;
    assert Step(EMPTY_CELL, now, Incr) == (OneString("1", None), Number(1));
    assert Step(OneString("1", None), now, Incr) == (OneString("2", None), Number(2));
    assert Step(OneString("2", None), now, Decr) == (OneString("1", None), Number(1));
    hide Step;
    var t1 := Turn(Incr, "1\r\n");
    var t2 := Turn(Incr, "2\r\n");
    var t3 := Turn(Decr, "1\r\n");
    OneTurn(OneString("2", None), now, t3, []);
    assert [t3] + [] == [t3];
    OneTurn(OneString("1", None), now, t2, [t3]);
    assert [t2] + [t3] == [t2, t3];
    OneTurn(EMPTY_CELL, now, t1, [t2, t3]);
    assert [t1] + [t2, t3] == [t1, t2, t3];
  }

  lemma {:induction false} HashTurns(now: int, f: string, v: string, g: string, w: string)
    ensures CellTalk(EMPTY_CELL, now,
      [Turn(HSet(f, v), "OK\r\n"), Turn(HSet(g, w), "OK\r\n"), Turn(HGet(g), w + "\r\n")])
  {
    assert Step(EMPTY_CELL, now, HSet(f, v)) == (OneHash(map[f := v]), Done);
    assert Step(OneHash(map[f := v]), now, HSet(g, w)) == (OneHash(map[f := v][g := w]), Done);
    var both := OneHash(map[f := v][g := w]);
    assert Step(both, now, HGet(g)) == (both, Reply.Text(Some(w)));
    hide Step;
    var t1 := Turn(HSet(f, v), "OK\r\n");
    var t2 := Turn(HSet(g, w), "OK\r\n");
    var t3 := Turn(HGet(g), w + "\r\n");
    OneTurn(OneHash(map[f := v][g := w]), now, t3, []);
    assert [t3] + [] == [t3];
    OneTurn(OneHash(map[f := v]), now, t2, [t3]);
    assert [t2] + [t3] == [t2, t3];
    OneTurn(EMPTY_CELL, now, t1, [t2, t3]);
    assert [t1] + [t2, t3] == [t1, t2, t3];
  }

  lemma {:induction false} ListTurns(now: int, a: string, b: string, c: string)
    ensures CellTalk(EMPTY_CELL, now,
      [Turn(LPush([a, b, c]), "3\r\n"), Turn(RPop, c + "\r\n")])
  {
    SmallNumbers();
    hide ToString;
    assert [a, b, c][..2] == [a, b] && [a, b, c] + [] == [a, b, c];
    assert Step(EMPTY_CELL, now, LPush([a, b, c])) == (OneList([a, b, c]), Number(3));
    assert Step(OneList([a, b, c]), now, RPop) == (OneList([a, b]), Reply.Text(Some(c)));
    hide Step;
    var t1 := Turn(LPush([a, b, c]), "3\r\n");
    var t2 := Turn(RPop, c + "\r\n");
    OneTurn(OneList([a, b, c]), now, t2, []);
    assert [t2] + [] == [t2];
    OneTurn(EMPTY_CELL, now, t1, [t2]);
    assert [t1] + [t2] == [t1, t2];
  }

  lemma {:induction false} MissingTurns(now: int)
    ensures CellTalk(EMPTY_CELL, now,
      [Turn(Expire(60), "0\r\n"), Turn(Ttl, "-2\r\n")])
  {
    SmallNumbers();
    hide ToString;
    assert Step(EMPTY_CELL, now, Expire(60)) == (EMPTY_CELL, Flag(false));
    assert Step(EMPTY_CELL, now, Ttl) == (EMPTY_CELL, Number(-2));
    hide Step;
    var t1 := Turn(Expire(60), "0\r\n");
    var t2 := Turn(Ttl, "-2\r\n");
    OneTurn(EMPTY_CELL, now, t2, []);
    assert [t2] + [] == [t2];
    OneTurn(EMPTY_CELL, now, t1, [t2]);
    assert [t1] + [t2] == [t1, t2];
  }

  lemma {:induction false} ExpirySteps(now: int, v: string)
    requires 0 <= now <= INT64_MAX - 60 * NANOS_PER_SECOND
    ensures Step(EMPTY_CELL, now, Set(v)) == (OneString(v, None), Done)
    ensures Step(OneString(v, None), now, Expire(60)) == (OneString(v, Some(now + 60 * NANOS_PER_SECOND)), Flag(true))
    ensures var c := OneString(v, Some(now + 60 * NANOS_PER_SECOND)); Step(c, now, Ttl) == (c, Number(60))
  {
    assert DeadlineAfter(now, 60) == now + 60 * NANOS_PER_SECOND;
    assert SecondsLeft(now + 60 * NANOS_PER_SECOND, now) == 60;
    hide DeadlineAfter, SecondsLeft, AddTo, Slice, SetOf;
  }

  lemma {:induction false} ExpiryTurns(now: int, v: string)
    requires 0 <= now <= INT64_MAX - 60 * NANOS_PER_SECOND
    ensures CellTalk(EMPTY_CELL, now,
      [Turn(Set(v), "OK\r\n"), Turn(Expire(60), "1\r\n"), Turn(Ttl, "60\r\n")])
  {
    SmallNumbers();
    ExpirySteps(now, v);
    hide ToString, Step;
    var t1 := Turn(Set(v), "OK\r\n");
    var t2 := Turn(Expire(60), "1\r\n");
    var t3 := Turn(Ttl, "60\r\n");
    OneTurn(OneString(v, Some(now + 60 * NANOS_PER_SECOND)), now, t3, []);
    assert [t3] + [] == [t3];
    OneTurn(OneString(v, None), now, t2, [t3]);
    assert [t2] + [t3] == [t2, t3];
    OneTurn(EMPTY_CELL, now, t1, [t2, t3]);
    assert [t1] + [t2, t3] == [t1, t2, t3];
  }

  /** Numbers are stored, printed and added as text. */
  lemma {:induction false} MoneyTalk(s: Store, key: string, now: int)
    requires CellAt(s, key) == EMPTY_CELL && IsWord(key)
    ensures Talk(s, now, [Exchange("SET", [key, "1000"], "OK\r\n"),
      Exchange("GET", [key], "1000\r\n"),
      Exchange("INCRBY", [key, "500"], "1500\r\n"),
      Exchange("GET", [key], "1500\r\n")])
  {
    SmallNumbers();
    LargeNumbers();
    NumberIsWord(1000);
    Spelling(key);
    hide IsWord, CellTalk, CellAt, ToString, Said, Talk;
    MoneyTurns(now);
    var t1, x1 := Turn(Set("1000"), "OK\r\n"), Exchange("SET", [key, "1000"], "OK\r\n");
    var t2, x2 := Turn(Get, "1000\r\n"), Exchange("GET", [key], "1000\r\n");
    var t3, x3 := Turn(IncrBy(500), "1500\r\n"), Exchange("INCRBY", [key, "500"], "1500\r\n");
    var t4, x4 := Turn(Get, "1500\r\n"), Exchange("GET", [key], "1500\r\n");
    TalkAboutKey(s, key, now, [t1, t2, t3, t4]);
    assert Script(key, [t1, t2, t3, t4]) == [x1, x2, x3, x4];
  }

  /** Counters start at 0. */
  lemma {:induction false} KillTalk(s: Store, key: string, now: int)
    requires CellAt(s, key) == EMPTY_CELL && IsWord(key)
    ensures Talk(s, now, [Exchange("INCR", [key], "1\r\n"),
      Exchange("INCR", [key], "2\r\n"),
      Exchange("DECR", [key], "1\r\n")])
  {
    Spelling(key);
    hide IsWord, CellTalk, CellAt, ToString, Said, Talk;
    KillTurns(now);
    var t1, x1 := Turn(Incr, "1\r\n"), Exchange("INCR", [key], "1\r\n");
    var t2, x2 := Turn(Incr, "2\r\n"), Exchange("INCR", [key], "2\r\n");
    var t3, x3 := Turn(Decr, "1\r\n"), Exchange("DECR", [key], "1\r\n");
    TalkAboutKey(s, key, now, [t1, t2, t3]);
    assert Script(key, [t1, t2, t3]) == [x1, x2, x3];
  }

  /** A hash answers the field asked for. */
  lemma {:induction false} HashTalk(s: Store, key: string, now: int, f: string, v: string, g: string, w: string)
    requires CellAt(s, key) == EMPTY_CELL && IsWord(key) && IsWord(f) && IsWord(v) && IsWord(g) && IsWord(w)
    ensures Talk(s, now, [Exchange("HSET", [key, f, v], "OK\r\n"),
      Exchange("HSET", [key, g, w], "OK\r\n"),
      Exchange("HGET", [key, g], w + "\r\n")])
  {
    Spelling(key);
    hide IsWord, CellTalk, CellAt, ToString, Said, Talk;
    HashTurns(now, f, v, g, w);
    var t1, x1 := Turn(HSet(f, v), "OK\r\n"), Exchange("HSET", [key, f, v], "OK\r\n");
    var t2, x2 := Turn(HSet(g, w), "OK\r\n"), Exchange("HSET", [key, g, w], "OK\r\n");
    var t3, x3 := Turn(HGet(g), w + "\r\n"), Exchange("HGET", [key, g], w + "\r\n");
    TalkAboutKey(s, key, now, [t1, t2, t3]);
    assert Script(key, [t1, t2, t3]) == [x1, x2, x3];
  }

  /** A batch is pushed in its order, and RPOP takes its last element first. */
  lemma {:induction false} ListTalk(s: Store, key: string, now: int, a: string, b: string, c: string)
    requires CellAt(s, key) == EMPTY_CELL && IsWord(key) && IsWord(a) && IsWord(b) && IsWord(c)
    ensures Talk(s, now, [Exchange("LPUSH", [key, a, b, c], "3\r\n"),
      Exchange("RPOP", [key], c + "\r\n")])
  {
    Spelling(key);
    hide IsWord, CellTalk, CellAt, ToString, Said, Talk;
    ListTurns(now, a, b, c);
    var t1, x1 := Turn(LPush([a, b, c]), "3\r\n"), Exchange("LPUSH", [key, a, b, c], "3\r\n");
    var t2, x2 := Turn(RPop, c + "\r\n"), Exchange("RPOP", [key], c + "\r\n");
    TalkAboutKey(s, key, now, [t1, t2]);
    assert [key] + [a, b, c] == [key, a, b, c];
    assert Script(key, [t1, t2]) == [x1, x2];
  }

  /** EXPIRE and TTL of a key that is there. */
  lemma {:induction false} ExpiryTalk(s: Store, key: string, now: int, v: string)
    requires CellAt(s, key) == EMPTY_CELL && IsWord(key) && IsWord(v) && 0 <= now <= INT64_MAX - 60_000_000_000
    ensures Talk(s, now, [Exchange("SET", [key, v], "OK\r\n"),
      Exchange("EXPIRE", [key, "60"], "1\r\n"),
      Exchange("TTL", [key], "60\r\n")])
  {
    SmallNumbers();
    Spelling(key);
    hide IsWord, CellTalk, CellAt, ToString, Said, Talk;
    ExpiryTurns(now, v);
    var t1, x1 := Turn(Set(v), "OK\r\n"), Exchange("SET", [key, v], "OK\r\n");
    var t2, x2 := Turn(Expire(60), "1\r\n"), Exchange("EXPIRE", [key, "60"], "1\r\n");
    var t3, x3 := Turn(Ttl, "60\r\n"), Exchange("TTL", [key], "60\r\n");
    TalkAboutKey(s, key, now, [t1, t2, t3]);
    assert Script(key, [t1, t2, t3]) == [x1, x2, x3];
  }

  /** The example leaves out the SET: then EXPIRE answers 0 and TTL -2, not 1 and 60. */
  lemma {:induction false} MissingTalk(s: Store, key: string, now: int)
    requires CellAt(s, key) == EMPTY_CELL && IsWord(key)
    ensures Talk(s, now, [Exchange("EXPIRE", [key, "60"], "0\r\n"),
      Exchange("TTL", [key], "-2\r\n")])
  {
    SmallNumbers();
    Spelling(key);
    hide IsWord, CellTalk, CellAt, ToString, Said, Talk;
    MissingTurns(now);
    var t1, x1 := Turn(Expire(60), "0\r\n"), Exchange("EXPIRE", [key, "60"], "0\r\n");
    var t2, x2 := Turn(Ttl, "-2\r\n"), Exchange("TTL", [key], "-2\r\n");
    TalkAboutKey(s, key, now, [t1, t2]);
    assert Script(key, [t1, t2]) == [x1, x2];
  }
}
