/** The wire between client and server: requests that the Java client prints, replies that it decodes,
    and the theorem that the two together lose nothing. */
module Wire {
  import opened Prelude
  import opened Decimal
  import opened Text
  import opened Keyspace
  import P = Parser
  import opened Session

  // ---------- requests ----------

  function KindOf(op: Op): P.CommandType {
    match op
    case Set(_) => P.SET case Get => P.GET case Incr => P.INCR case Decr => P.DECR case IncrBy(_) => P.INCRBY
    case HSet(_, _) => P.HSET case HGet(_) => P.HGET case HGetAll => P.HGETALL
    case LPush(_) => P.LPUSH case RPop => P.RPOP case LRange(_, _) => P.LRANGE
    case SAdd(_) => P.SADD case SRem(_) => P.SREM case SIsMember(_) => P.SISMEMBER
    case SMembers => P.SMEMBERS case SCard => P.SCARD case Expire(_) => P.EXPIRE case Ttl => P.TTL
  }

  function Operands(op: Op): seq<string> {
    match op
    case Set(value) => [value]
    case IncrBy(n) => [ToString(n)]
    case HSet(field, value) => [field, value]
    case HGet(field) => [field]
    case LPush(values) => values
    case LRange(start, end) => [ToString(start), ToString(end)]
    case SAdd(names) => names
    case SRem(names) => names
    case SIsMember(name) => [name]
    case Expire(seconds) => [ToString(seconds)]
    case _ => []
  }

  function CommandFor(key: string, op: Op): P.Command {
    P.Command(KindOf(op), [key] + Operands(op))
  }

  /** The line the client prints, without its line separator. */
  function Request(key: string, op: Op): string {
    P.Print(CommandFor(key, op))
  }

  predicate TidyOp(op: Op) {
    match op
    case Set(value) => IsWord(value)
    case HSet(field, value) => IsWord(field) && IsWord(value)
    case HGet(field) => IsWord(field)
    case LPush(values) => AllWords(values)
    case SAdd(names) => AllWords(names)
    case SRem(names) => AllWords(names)
    case SIsMember(name) => IsWord(name)
    case _ => true
  }

  /** What a caller must respect: words for arguments, 64-bit numbers, at least one variadic argument. */
  predicate Sendable(key: string, op: Op) {
    && IsWord(key) && TidyOp(op)
    && match op
       case IncrBy(n) => InInt64(n)
       case LRange(start, end) => InInt64(start) && InInt64(end)
       case Expire(seconds) => InInt64(seconds)
       case LPush(values) => values != []
       case SAdd(names) => names != []
       case SRem(names) => names != []
       case _ => true
  }

  lemma {:induction false} OperandsAreWords(op: Op)
    requires TidyOp(op)
    ensures AllWords(Operands(op))
  {
    match op
    case IncrBy(n) => NumberIsWord(n);
    case LRange(start, end) => NumberIsWord(start); NumberIsWord(end);
    case Expire(seconds) => NumberIsWord(seconds);
    case _ =>
  }

  lemma {:induction false} CommandIsWellFormed(key: string, op: Op)
    requires Sendable(key, op)
    ensures P.WellFormed(CommandFor(key, op))
  {
    OperandsAreWords(op);
    hide IsWord;
  }

  lemma {:induction false} NumericIsInterpreted(key: string, op: Op)
    requires Sendable(key, op) && (op.IncrBy? || op.LRange? || op.Expire?)
    ensures Interpret(CommandFor(key, op)) == Run(key, op)
  {
    hide Stoll, ToString, Usage, Invalid, IsWord;
    match op
    case IncrBy(n) => NumberRoundTrip(n);
    case LRange(start, end) => NumberRoundTrip(start); NumberRoundTrip(end);
    case Expire(seconds) => NumberRoundTrip(seconds);
  }

  lemma {:induction false} VariadicIsInterpreted(key: string, op: Op)
    requires Sendable(key, op) && (op.LPush? || op.SAdd? || op.SRem?)
    ensures Interpret(CommandFor(key, op)) == Run(key, op)
  {
    hide Stoll, ToString, Usage, Invalid, IsWord;
    assert ([key] + Operands(op))[1..] == Operands(op);
  }

  lemma {:induction false} PlainIsInterpreted(key: string, op: Op)
    requires !op.IncrBy? && !op.LRange? && !op.Expire? && !op.LPush? && !op.SAdd? && !op.SRem?
    ensures Interpret(CommandFor(key, op)) == Run(key, op)
  {
    hide Stoll, ToString, Usage, Invalid, IsWord;
  }

  lemma {:induction false} CommandIsInterpreted(key: string, op: Op)
    requires Sendable(key, op)
    ensures Interpret(CommandFor(key, op)) == Run(key, op)
  {
    hide *;
    if op.IncrBy? || op.LRange? || op.Expire? {
      NumericIsInterpreted(key, op);
    } else if op.LPush? || op.SAdd? || op.SRem? {
      VariadicIsInterpreted(key, op);
    } else {
      PlainIsInterpreted(key, op);
    }
  }

  /** Print, line separator, strip, tokenise, parse, interpret: the server runs the operation the
      client meant, with the same arguments. */
  lemma {:induction false} RequestsArriveIntact(key: string, op: Op)
    requires Sendable(key, op)
    ensures Interpret(P.Parsed(Strip(Request(key, op) + "\n"))) == Run(key, op)
  {
    hide P.Print, P.Parsed, Strip, Interpret;
    CommandIsWellFormed(key, op);
    PrintIsOneLine(CommandFor(key, op));
    StripLine(Request(key, op));
    P.ParseOfPrint(CommandFor(key, op));
    CommandIsInterpreted(key, op);
  }

  lemma {:induction false} PrintIsOneLine(cmd: P.Command)
    requires P.WellFormed(cmd)
    ensures OneLine(P.Print(cmd))
  {
    P.NamesAreUpperWords(cmd.kind);
    WordIsOneLine(P.Name(cmd.kind));
    SpacedIsOneLine(cmd.args);
  }

  // ---------- replies ----------

  const NIL_RESPONSE := "(nil)"
  const EMPTY_HASH_RESPONSE := "(empty hash)"
  const EMPTY_SET_RESPONSE := "(empty set)"

  /** What a client call returns; `Failure` is its IOException. */
  datatype Result =
    | Unit
    | Word(word: Option<string>)
    | Long(n: int)
    | Bool(b: bool)
    | Map(entries: map<string, string>)
    | Names(names: set<string>)
    | Failure

  function DecodeWord(line: Option<string>): Result {
    if line == Some(NIL_RESPONSE) then Word(None) else Word(line)
  }

  function DecodeLong(line: Option<string>): Result {
    if line.Some? && ParseLong(line.value).Some? then Long(ParseLong(line.value).value) else Failure
  }

  /** `String.indexOf(": ")`, with the length of the line standing for -1. */
  function ColonSpace(line: string): (i: nat)
    ensures i <= |line|
    ensures i < |line| ==> i + 1 < |line| && line[i] == ':' && line[i + 1] == ' '
    ensures forall j :: 0 <= j < i && j + 1 < |line| ==> !(line[j] == ':' && line[j + 1] == ' ')
  {
    if line == "" then 0
    else if |line| > 1 && line[0] == ':' && line[1] == ' ' then 0
    else 1 + ColonSpace(line[1..])
  }

  /** The client's loop over `field: value` lines. */
  function DecodeFields(stream: string, found: map<string, string>): map<string, string>
    decreases |stream|
  {
    var (line, rest) := ReadLine(stream);
    if line == None || line == Some("") || line == Some(EMPTY_HASH_RESPONSE) then found
    else
      var i := ColonSpace(line.value);
      DecodeFields(rest, if 0 < i < |line.value| then found[line.value[..i] := line.value[i + 2..]] else found)
  }

  function DecodeMembers(stream: string, found: set<string>): set<string>
    decreases |stream|
  {
    var (line, rest) := ReadLine(stream);
    if line == None || line == Some("") || line == Some(EMPTY_SET_RESPONSE) then found
    else DecodeMembers(rest, found + {line.value})
  }

  /** What the client makes of the reply to `op`; it has no LRANGE call. */
  function Decode(op: Op, stream: string): Result
    requires !op.LRange?
  {
    var line := ReadLine(stream).0;
    match op
    case Set(_) => if line == None then Failure else Unit
    case HSet(_, _) => if line == None then Failure else Unit
    case Get => DecodeWord(line)
    case HGet(_) => DecodeWord(line)
    case RPop => DecodeWord(line)
    case SIsMember(_) => Bool(line == Some("1"))
    case Expire(_) => Bool(line == Some("1"))
    case HGetAll => Map(DecodeFields(stream, map[]))
    case SMembers => Names(DecodeMembers(stream, {}))
    case _ => DecodeLong(line)
  }

  /** The same result without any wire in between. */
  function Direct(reply: Reply): Result
    requires !reply.Items?
  {
    match reply
    case Done => Unit
    case Flag(flag) => Bool(flag)
    case Text(text) => Word(text)
    case Number(n) => Long(n)
    case Fields(fields) => Map(fields)
    case Members(names) => Names(names)
  }

  // ---------- tidy stores: everything that came over the wire is a word ----------

  predicate TidyFields(fields: map<string, string>) {
    forall f :: f in fields ==> IsWord(f) && IsWord(fields[f])
  }

  predicate TidyNames(names: set<string>) {
    forall n :: n in names ==> IsWord(n)
  }

  predicate TidyCell(c: Cell) {
    && (c.str.Some? ==> IsWord(c.str.value.value))
    && TidyFields(FieldsOf(c)) && AllWords(ListOf(c)) && TidyNames(MembersOf(c))
  }

  predicate TidyReply(reply: Reply) {
    match reply
    case Text(text) => text.Some? ==> IsWord(text.value)
    case Fields(fields) => TidyFields(fields)
    case Items(items) => AllWords(items)
    case Members(names) => TidyNames(names)
    case _ => true
  }

  /** Keys and everything stored under them are words. */
  ghost predicate TidyStore(s: Store) {
    forall key :: TidyCell(CellAt(s, key)) && (CellAt(s, key) != EMPTY_CELL ==> IsWord(key))
  }

  /** `op` keeps a tidy cell tidy and answers with tidy text. */
  predicate StaysTidy(c: Cell, op: Op)
    requires !op.Expire? && !op.Ttl?
  {
    TidyCell(Touch(c, op).0) && TidyReply(Touch(c, op).1)
  }

  lemma {:induction false} StringsStayTidy(c: Cell, op: Op)
    requires TidyCell(c) && TidyOp(op)
    requires op.Set? || op.Get? || op.Incr? || op.Decr? || op.IncrBy?
    ensures StaysTidy(c, op)
  {
    hide IsWord, AddTo;
    match op
    case Incr => CountingStaysTidy(c, 1);
    case Decr => CountingStaysTidy(c, -1);
    case IncrBy(n) => CountingStaysTidy(c, n);
    case _ =>
  }

  lemma {:induction false} HashesStayTidy(c: Cell, op: Op)
    requires TidyCell(c) && TidyOp(op) && (op.HSet? || op.HGet? || op.HGetAll?)
    ensures StaysTidy(c, op)
  {
    hide IsWord;
  }

  lemma {:induction false} ListsStayTidy(c: Cell, op: Op)
    requires TidyCell(c) && TidyOp(op) && (op.LPush? || op.RPop? || op.LRange?)
    ensures StaysTidy(c, op)
  {
    hide IsWord, Slice;
    match op
    case LRange(start, end) => SliceStaysTidy(ListOf(c), start, end);
    case _ =>
  }

  lemma {:induction false} AddingStaysTidy(c: Cell, names: seq<string>)
    requires TidyCell(c) && AllWords(names)
    ensures StaysTidy(c, SAdd(names))
  {
    assert forall n :: n in SetOf(names) ==> exists i :: 0 <= i < |names| && names[i] == n;
    assert TidyNames(MembersOf(c) + SetOf(names));
    hide TidyNames, TidyFields, AllWords, IsWord, SetOf;
  }

  lemma {:induction false} RemovingStaysTidy(c: Cell, names: seq<string>)
    requires TidyCell(c)
    ensures StaysTidy(c, SRem(names))
  {
    assert TidyNames(MembersOf(c) - SetOf(names)) && TidyNames({});
    hide TidyNames, TidyFields, AllWords, IsWord, SetOf;
  }

  lemma {:induction false} ReadingSetsStaysTidy(c: Cell, op: Op)
    requires TidyCell(c) && (op.SIsMember? || op.SMembers? || op.SCard?)
    ensures StaysTidy(c, op)
  {
    hide TidyNames, TidyFields, AllWords, IsWord;
  }

  lemma TidyMembers(op: Op)
    requires TidyOp(op) && op.SAdd?
    ensures AllWords(op.members)
  {
  }

  lemma {:induction false} TouchStaysTidy(c: Cell, op: Op)
    requires TidyCell(c) && TidyOp(op) && !op.Expire? && !op.Ttl?
    ensures StaysTidy(c, op)
  {
    hide *;
    match op
    case HSet(_, _) => HashesStayTidy(c, op);
    case HGet(_) => HashesStayTidy(c, op);
    case HGetAll => HashesStayTidy(c, op);
    case LPush(_) => ListsStayTidy(c, op);
    case RPop => ListsStayTidy(c, op);
    case LRange(_, _) => ListsStayTidy(c, op);
    case SAdd(names) => TidyMembers(op); AddingStaysTidy(c, names);
    case SRem(names) => RemovingStaysTidy(c, names);
    case SIsMember(_) => ReadingSetsStaysTidy(c, op);
    case SMembers => ReadingSetsStaysTidy(c, op);
    case SCard => ReadingSetsStaysTidy(c, op);
    case _ => StringsStayTidy(c, op);
  }

  lemma {:induction false} SliceStaysTidy(list: seq<string>, start: int, end: int)
    requires AllWords(list)
    ensures AllWords(Slice(list, start, end))
  {
    hide IsWord;
  }

  lemma {:induction false} CountingStaysTidy(c: Cell, n: int)
    requires TidyCell(c)
    ensures TidyCell(AddTo(c, n).0) && TidyReply(AddTo(c, n).1)
  {
    hide IsWord, Stoll, ToString, Wrap64;
    NumberIsWord(n);
    if Numeric(c.str).Some? {
      NumberIsWord(Wrap64(Numeric(c.str).value + n));
    }
  }

  lemma {:induction false} StepStaysTidy(c: Cell, now: int, op: Op)
    requires TidyCell(c) && TidyOp(op)
    ensures TidyCell(Step(c, now, op).0) && TidyReply(Step(c, now, op).1)
  {
    hide IsWord, SecondsLeft, DeadlineAfter;
    if !op.Expire? && !op.Ttl? {
      TouchStaysTidy(Purge(c, now), op);
    }
    hide Touch;
  }

  /** Whatever text a session parses, the operation it runs has words for its key and arguments. */
  lemma {:induction false} ParsedOpsAreTidy(text: string)
    ensures var action := Interpret(P.Parsed(text)); action.Run? ==> IsWord(action.key) && TidyOp(action.op)
  {
    var cmd := P.Parsed(text);
    P.ParsedIsWellFormed(text);
    hide Stoll, IsWord, Usage, Invalid, P.Parsed;
  }

  ghost function ActionOf(data: string): Action {
    Interpret(P.Parsed(Strip(data)))
  }

  /** The store after sessions have received any texts at all, at any clock readings. */
  ghost function ServerRun(s: Store, inputs: seq<(int, string)>): Store
    decreases |inputs|
  {
    if inputs == [] then s
    else ServerRun(StoreAfter(s, inputs[0].0, ActionOf(inputs[0].1)), inputs[1..])
  }

  lemma {:induction false} RepliesAreTidy(s: Store, e: Event)
    requires TidyStore(s) && TidyOp(e.op)
    ensures TidyReply(Apply(s, e).1)
  {
    hide TidyCell, TidyOp, TidyReply, Step;
    StepStaysTidy(CellAt(s, e.key), e.now, e.op);
  }

  lemma {:induction false} ApplyStaysTidy(s: Store, e: Event)
    requires TidyStore(s) && IsWord(e.key) && TidyOp(e.op)
    ensures TidyStore(Apply(s, e).0)
  {
    hide TidyCell, TidyOp, TidyReply, Step, IsWord;
    var c := CellAt(s, e.key);
    StepStaysTidy(c, e.now, e.op);
    forall key
      ensures TidyCell(CellAt(Apply(s, e).0, key))
      ensures CellAt(Apply(s, e).0, key) != EMPTY_CELL ==> IsWord(key)
    {
      CellAfterPut(s, e.key, Step(c, e.now, e.op).0, key);
    }
  }

  /** Run invariant: starting empty, no input whatsoever can make the store hold anything but words,
      keys included. */
  lemma {:induction false} ReachableStoresAreTidy(s: Store, inputs: seq<(int, string)>)
    requires TidyStore(s)
    ensures TidyStore(ServerRun(s, inputs))
    decreases |inputs|
  {
    if inputs == [] {
    } else {
      hide TidyStore, Apply, Interpret, Strip, IsWord;
      var action := ActionOf(inputs[0].1);
      ParsedOpsAreTidy(Strip(inputs[0].1));
      if action.Run? {
        ApplyStaysTidy(s, Event(inputs[0].0, action.key, action.op));
      }
      ReachableStoresAreTidy(StoreAfter(s, inputs[0].0, action), inputs[1..]);
    }
  }

  lemma {:induction false} EmptyStoreIsTidy()
    ensures TidyStore(EMPTY_STORE)
  {
  }

  // ---------- decoding ----------

  lemma {:induction false} FirstLine(line: string)
    requires OneLine(line)
    ensures ReadLine(line + CRLF) == (Some(line), "")
  {
    ReadLineOfLine(line, "");
    assert line + CRLF + "" == line + CRLF;
  }

  /** Neither field nor value holds a blank, so the first ": " is the separator, colons or not. */
  lemma {:induction false} FieldLineSplits(field: string, value: string)
    requires IsWord(field) && IsWord(value)
    ensures var line := field + ": " + value;
      && ColonSpace(line) == |field| && line[..|field|] == field && line[|field| + 2..] == value
      && OneLine(line) && line != "" && line != EMPTY_HASH_RESPONSE
  {
    var line := field + ": " + value;
    assert line[|field|] == ':' && line[|field| + 1] == ' ';
    assert forall j :: 0 <= j < |field| ==> line[j] == field[j];
    assert forall j :: |field| + 2 <= j < |line| ==> line[j] == value[j - |field| - 2];
    assert forall j :: 0 <= j < |line| && line[j] == ' ' ==> j == |field| + 1;
    assert ColonSpace(line) == |field|;
    assert EMPTY_HASH_RESPONSE[5] == 'y' && EMPTY_HASH_RESPONSE[6] == ' ';
  }

  lemma {:induction false} OneFieldDecodes(field: string, value: string, tail: string, found: map<string, string>)
    requires IsWord(field) && IsWord(value)
    ensures DecodeFields(field + ": " + value + CRLF + tail, found) == DecodeFields(tail, found[field := value])
  {
    FieldLineSplits(field, value);
    ReadLineOfLine(field + ": " + value, tail);
    hide ReadLine, ColonSpace, IsWord;
  }

  lemma {:induction false} FieldsDecode(fields: map<string, string>, order: seq<string>, found: map<string, string>)
    requires TidyFields(fields) && forall i :: 0 <= i < |order| ==> order[i] in fields
    ensures DecodeFields(Rendered(FieldLines(fields, order)), found) == Entered(fields, order, found)
  {
    if order == [] {
      assert ReadLine("") == (None, "");
    } else {
      hide IsWord, ReadLine, DecodeFields;
      var field, rest := order[0], order[1..];
      OneFieldDecodes(field, fields[field], Rendered(FieldLines(fields, rest)), found);
      assert FieldLines(fields, order)[1..] == FieldLines(fields, rest);
      FieldsDecode(fields, rest, found[field := fields[field]]);
    }
  }

  lemma {:induction false} MembersDecode(order: seq<string>, found: set<string>)
    requires AllWords(order)
    ensures DecodeMembers(Rendered(order), found) == found + SetOf(order)
  {
    if order == [] {
    } else {
      var name, rest := order[0], order[1..];
      WordIsOneLine(name);
      ReadLineOfLine(name, Rendered(rest));
      assert EMPTY_SET_RESPONSE[6] == ' ';
      MembersDecode(rest, found + {name});
      assert found + {name} + SetOf(rest) == found + SetOf(order);
    }
  }

  /** HGETALL is read back as the very same map, in whatever order its lines come. */
  lemma {:induction false} HashReplyDecodes(fields: map<string, string>, text: string)
    requires TidyFields(fields) && Renders(Fields(fields), text)
    ensures DecodeFields(text, map[]) == fields
  {
    if fields == map[] {
      FirstLine(EMPTY_HASH_RESPONSE);
    } else {
      var order :| IsOrdering(order, fields.Keys) && text == Rendered(FieldLines(fields, order));
      FieldsDecode(fields, order, map[]);
      EnteredAll(fields, order);
      hide DecodeFields, Entered, Rendered, FieldLines;
    }
  }

  /** SMEMBERS is read back as the very same set. */
  lemma {:induction false} SetReplyDecodes(names: set<string>, text: string)
    requires TidyNames(names) && Renders(Members(names), text)
    ensures DecodeMembers(text, {}) == names
  {
    if names == {} {
      FirstLine(EMPTY_SET_RESPONSE);
    } else {
      var order :| IsOrdering(order, names) && text == Rendered(order);
      MembersDecode(order, {});
      assert SetOf(order) == names;
    }
  }

  lemma {:induction false} TidyHashRepliesDecode(s: Store, now: int, key: string, text: string)
    requires TidyStore(s) && Answers(s, now, Run(key, HGetAll), text)
    ensures Fields(DecodeFields(text, map[])) == Apply(s, Event(now, key, HGetAll)).1
  {
    RepliesAreTidy(s, Event(now, key, HGetAll));
    RepliesFit(CellAt(s, key), now, HGetAll);
    hide TidyStore, Step, Renders, DecodeFields;
    HashReplyDecodes(Apply(s, Event(now, key, HGetAll)).1.fields, text);
  }

  lemma {:induction false} TidySetRepliesDecode(s: Store, now: int, key: string, text: string)
    requires TidyStore(s) && Answers(s, now, Run(key, SMembers), text)
    ensures Members(DecodeMembers(text, {})) == Apply(s, Event(now, key, SMembers)).1
  {
    RepliesAreTidy(s, Event(now, key, SMembers));
    RepliesFit(CellAt(s, key), now, SMembers);
    hide TidyStore, Step, Renders, DecodeMembers;
    SetReplyDecodes(Apply(s, Event(now, key, SMembers)).1.names, text);
  }

  /** In every store that any inputs can lead to, the multi-line replies are read back exactly, no
      matter what colons or brackets the stored words contain. */
  lemma {:induction false} ReachableRepliesDecode(inputs: seq<(int, string)>, now: int, key: string, text: string)
    ensures var s := ServerRun(EMPTY_STORE, inputs);
      Answers(s, now, Run(key, HGetAll), text) ==>
        Fields(DecodeFields(text, map[])) == Apply(s, Event(now, key, HGetAll)).1
    ensures var s := ServerRun(EMPTY_STORE, inputs);
      Answers(s, now, Run(key, SMembers), text) ==>
        Members(DecodeMembers(text, {})) == Apply(s, Event(now, key, SMembers)).1
  {
    hide *;
    var s := ServerRun(EMPTY_STORE, inputs);
    EmptyStoreIsTidy();
    ReachableStoresAreTidy(EMPTY_STORE, inputs);
    if Answers(s, now, Run(key, HGetAll), text) {
      TidyHashRepliesDecode(s, now, key, text);
    }
    if Answers(s, now, Run(key, SMembers), text) {
      TidySetRepliesDecode(s, now, key, text);
    }
  }

  lemma {:induction false} NumberReplyDecodes(n: int, text: string)
    requires InInt64(n) && Renders(Number(n), text)
    ensures DecodeLong(ReadLine(text).0) == Long(n)
  {
    NumberRoundTrip(n);
    NumberIsWord(n);
    WordIsOneLine(ToString(n));
    FirstLine(ToString(n));
  }

  /** A text value is read back, except that a stored "(nil)" looks like a missing one. */
  lemma {:induction false} TextReplyDecodes(text: Option<string>, stream: string)
    requires TidyReply(Text(text)) && Renders(Text(text), stream)
    ensures DecodeWord(ReadLine(stream).0) == Word(if text == Some(NIL_RESPONSE) then None else text)
  {
    if text.Some? {
      WordIsOneLine(text.value);
      FirstLine(text.value);
    } else {
      FirstLine(NIL_RESPONSE);
    }
  }

  predicate ReplyFits(op: Op, reply: Reply) {
    match op
    case Set(_) => reply.Done?
    case HSet(_, _) => reply.Done?
    case Get => reply.Text?
    case HGet(_) => reply.Text?
    case RPop => reply.Text?
    case SIsMember(_) => reply.Flag?
    case Expire(_) => reply.Flag?
    case HGetAll => reply.Fields?
    case SMembers => reply.Members?
    case LRange(_, _) => reply.Items?
    case _ => reply.Number?
  }

  lemma {:induction false} RepliesFit(c: Cell, now: int, op: Op)
    ensures ReplyFits(op, Step(c, now, op).1)
  {
    hide Wrap64, Stoll, ToString, Slice, SecondsLeft, DeadlineAfter, Purge;
  }

  /** The client's result: the store's, except that a stored "(nil)" arrives as a missing value. */
  function Received(reply: Reply): Result
    requires !reply.Items?
  {
    if reply == Text(Some(NIL_RESPONSE)) then Word(None) else Direct(reply)
  }

  lemma {:induction false} RepliesDecode(op: Op, reply: Reply, stream: string)
    requires !op.LRange? && ReplyFits(op, reply) && TidyReply(reply) && Renders(reply, stream)
    requires reply.Number? ==> InInt64(reply.number)
    ensures Decode(op, stream) == Received(reply)
  {
    match reply
    case Done => FirstLine("OK");
    case Flag(flag) => FirstLine(if flag then "1" else "0");
    case Text(text) => TextReplyDecodes(text, stream);
    case Number(n) => NumberReplyDecodes(n, stream);
    case Fields(fields) => HashReplyDecodes(fields, stream);
    case Members(names) => SetReplyDecodes(names, stream);
    hide ReadLine, DecodeFields, DecodeMembers, ParseLong, Renders, TidyReply;
  }

  predicate CountsElements(op: Op) {
    op.LPush? || op.SAdd? || op.SRem? || op.SCard?
  }

  /** Counter values and seconds left always fit in 64 bits; only element counts are unbounded here. */
  lemma {:induction false} NumbersFit(c: Cell, now: int, op: Op)
    requires op.IncrBy? ==> InInt64(op.increment)
    requires !CountsElements(op)
    ensures var reply := Step(c, now, op).1; reply.Number? ==> InInt64(reply.number)
  {
    hide Wrap64, Stoll, ToString, Slice, DeadlineAfter, Purge;
  }

  /** What the wire carries: tidy stores, sendable commands, element counts below 2^63. */
  ghost predicate Deliverable(s: Store, now: int, key: string, op: Op) {
    && TidyStore(s) && Sendable(key, op) && !op.LRange?
    && (CountsElements(op) ==>
          var reply := Apply(s, Event(now, key, op)).1;
          reply.Number? ==> InInt64(reply.number))
  }

  /** End to end: sending an operation over the wire has the effect of calling the store directly and
      returns the store's own result, exactly unless the value is the literal "(nil)". */
  lemma {:induction false} WireRefinement(s: Store, now: int, key: string, op: Op, response: string)
    requires Deliverable(s, now, key, op)
    requires Answers(s, now, ActionOf(Request(key, op) + "\n"), response)
    ensures StoreAfter(s, now, ActionOf(Request(key, op) + "\n")) == Apply(s, Event(now, key, op)).0
    ensures TidyStore(Apply(s, Event(now, key, op)).0)
    ensures var reply := Apply(s, Event(now, key, op)).1;
      && !reply.Items?
      && Decode(op, response) == Received(reply)
      && (Decode(op, response) == Direct(reply) <==> reply != Text(Some(NIL_RESPONSE)))
  {
    RequestsArriveIntact(key, op);
    ApplyStaysTidy(s, Event(now, key, op));
    RepliesAreTidy(s, Event(now, key, op));
    RepliesFit(CellAt(s, key), now, op);
    if !CountsElements(op) {
      NumbersFit(CellAt(s, key), now, op);
    }
    hide Request, TidyStore, TidyReply, Decode, Renders, Step, PutCell;
    RepliesDecode(op, Apply(s, Event(now, key, op)).1, response);
  }

  // ---------- the printed requests, spelled out ----------

  lemma {:induction false} SpacedLists(a: string, b: string, c: string)
    ensures Spaced([a]) == " " + a
    ensures Spaced([a, b]) == " " + a + " " + b
    ensures Spaced([a, b, c]) == " " + a + " " + b + " " + c
  {
    assert [a][1..] == [] && [a, b][1..] == [b] && [a, b, c][1..] == [b, c];
    assert Spaced([b]) == " " + b + Spaced([b][1..]);
    assert Spaced([c]) == " " + c + Spaced([c][1..]);
    assert Spaced([b, c]) == " " + b + Spaced([b, c][1..]);
  }

  lemma {:induction false} SpacedAppend(words: seq<string>, word: string)
    ensures Spaced(words + [word]) == Spaced(words) + " " + word
  {
    if words == [] {
      assert [word][1..] == [];
      assert Spaced([word]) == " " + word + Spaced([]);
    } else {
      assert (words + [word])[1..] == words[1..] + [word];
      SpacedAppend(words[1..], word);
    }
  }
}
