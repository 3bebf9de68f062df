/** The server's command parser: a token loop, upper-casing in place and arity selection. */
module Parser {
  import opened Decimal
  import opened Text

  datatype CommandType =
    | PING | SET | GET | INCR | DECR | INCRBY | HSET | HGET | HGETALL | LPUSH | RPOP | LRANGE
    | EXPIRE | TTL | SADD | SMEMBERS | SREM | SISMEMBER | SCARD | UNKNOWN

  datatype Command = Command(kind: CommandType, args: seq<string>)

  // ---------- what a token sequence means ----------

  function Name(kind: CommandType): string {
    match kind
    case PING => "PING" case SET => "SET" case GET => "GET" case INCR => "INCR" case DECR => "DECR"
    case INCRBY => "INCRBY" case HSET => "HSET" case HGET => "HGET" case HGETALL => "HGETALL"
    case LPUSH => "LPUSH" case RPOP => "RPOP" case LRANGE => "LRANGE" case EXPIRE => "EXPIRE"
    case TTL => "TTL" case SADD => "SADD" case SMEMBERS => "SMEMBERS" case SREM => "SREM"
    case SISMEMBER => "SISMEMBER" case SCARD => "SCARD" case UNKNOWN => ""
  }

  /** Arguments a command needs; variadic commands take all that follow, others exactly these. */
  function Required(kind: CommandType): nat {
    match kind
    case PING => 0
    case GET => 1 case INCR => 1 case DECR => 1 case HGETALL => 1 case RPOP => 1 case TTL => 1
    case SMEMBERS => 1 case SCARD => 1
    case HSET => 3 case LRANGE => 3
    case _ => 2
  }

  predicate Variadic(kind: CommandType) {
    kind == LPUSH || kind == SADD || kind == SREM
  }

  function UpperChar(c: char): char {
    if 'a' <= c <= 'z' then (c as int - 32) as char else c
  }

  function Upper(s: string): string {
    seq(|s|, i requires 0 <= i < |s| => UpperChar(s[i]))
  }

  predicate Matches(kind: CommandType, tokens: seq<string>) {
    kind != UNKNOWN && |tokens| > Required(kind) && Upper(tokens[0]) == Name(kind)
  }

  function Taken(kind: CommandType, tokens: seq<string>): seq<string>
    requires |tokens| > Required(kind)
  {
    if Variadic(kind) then tokens[1..] else tokens[1..Required(kind) + 1]
  }

  /** The command a token sequence stands for: the one whose name and arity it meets, or UNKNOWN. */
  ghost function Meaning(tokens: seq<string>): Command {
    if kind :| Matches(kind, tokens) then Command(kind, Taken(kind, tokens)) else Command(UNKNOWN, [])
  }

  ghost function Parsed(text: string): Command {
    Meaning(Words(text))
  }

  /** Length and one or two letters tell the names apart. */
  ghost function KindNamed(name: string): CommandType {
    match |name|
    case 3 => if name[0] == 'S' then SET else if name[0] == 'G' then GET else TTL
    case 4 =>
      if name[0] == 'P' then PING else if name[0] == 'I' then INCR else if name[0] == 'D' then DECR
      else if name[0] == 'R' then RPOP else if name[1] == 'S' then HSET else if name[1] == 'G' then HGET
      else if name[1] == 'A' then SADD else SREM
    case 5 => if name[0] == 'L' then LPUSH else SCARD
    case 6 => if name[0] == 'I' then INCRBY else if name[0] == 'L' then LRANGE else EXPIRE
    case 7 => HGETALL
    case 8 => SMEMBERS
    case 9 => SISMEMBER
    case _ => UNKNOWN
  }

  lemma {:induction false} NamesAreDistinct(a: CommandType, b: CommandType)
    requires Name(a) == Name(b)
    ensures a == b
  {
    assert KindNamed(Name(a)) == a && KindNamed(Name(b)) == b;
  }

  lemma {:induction false} MeaningIsUnique(kind: CommandType, tokens: seq<string>)
    requires Matches(kind, tokens)
    ensures Meaning(tokens) == Command(kind, Taken(kind, tokens))
  {
    forall other | Matches(other, tokens) ensures other == kind {
      NamesAreDistinct(other, kind);
    }
  }

  lemma {:induction false} NothingMatches(tokens: seq<string>)
    requires forall kind :: !Matches(kind, tokens)
    ensures Meaning(tokens) == Command(UNKNOWN, [])
  {
  }

  // ---------- the parser itself ----------

  /** What skipping the white space and then a run of other characters says about the token list. */
  lemma {:induction false} TokenBetween(input: string, from: nat, start: nat, next: nat)
    requires from <= start <= next <= |input|
    requires forall i :: from <= i < start ==> IsSpace(input[i])
    requires forall i :: start <= i < next ==> !IsSpace(input[i])
    requires start < |input| ==> !IsSpace(input[start])
    requires next < |input| ==> IsSpace(input[next])
    ensures start == next ==> next == |input| && Words(input[from..]) == []
    ensures start < next ==> Words(input[from..]) == [input[start..next]] + Words(input[next..])
  {
    assert input[from..] == input[from..start] + input[start..];
    WordsSkipSpace(input[from..start], input[start..]);
    if start < next {
      assert input[start..] == input[start..next] + input[next..];
      WordsTakeWord(input[start..next], input[next..]);
    } else {
      assert next == |input| && input[start..] == "";
    }
  }

  /** `stream >> token` from position `from`: skip white space, then read up to the next. */
  method NextToken(input: string, from: nat) returns (token: string, next: nat)
    requires from <= |input|
    ensures from <= next <= |input|
    ensures token == "" <==> Words(input[from..]) == []
    ensures token != "" ==> from < next && Words(input[from..]) == [token] + Words(input[next..])
  {
    hide Words;
    next := from;
    while next < |input| && IsSpace(input[next])
      invariant from <= next <= |input|
      invariant forall i :: from <= i < next ==> IsSpace(input[i])
    {
      next := next + 1;
    }
    var start := next;
    while next < |input| && !IsSpace(input[next])
      invariant start <= next <= |input|
      invariant forall i :: start <= i < next ==> !IsSpace(input[i])
    {
      next := next + 1;
    }
    TokenBetween(input, from, start, next);
    token := input[start..next];
  }

  /** `std::transform` with `toupper`, in place. */
  method UpperCase(text: string) returns (command: string)
    ensures command == Upper(text)
  {
    command := text;
    for i := 0 to |command|
      invariant |command| == |text|
      invariant command[..i] == Upper(text)[..i] && command[i..] == text[i..]
    {
      assert command[i] == text[i] by {
        assert command[i..][0] == text[i..][0];
      }
      command := command[i := UpperChar(command[i])];
      assert command[..i + 1] == Upper(text)[..i + 1];
      assert command[i + 1..] == text[i + 1..];
    }
  }

  method Parse(input: string) returns (cmd: Command)
    ensures cmd == Parsed(input)
  {
    hide Words, Meaning;
    cmd := Command(UNKNOWN, []);
    var tokens: seq<string> := [];
    var token, next := NextToken(input, 0);
    assert input[0..] == input;
    while token != ""
      invariant next <= |input|
      invariant tokens + (if token == "" then [] else [token] + Words(input[next..])) == Words(input)
      decreases |input| - next + (if token == "" then 0 else 1)
    {
      tokens := tokens + [token];
      token, next := NextToken(input, next);
    }
    assert tokens == Words(input);
    if tokens == [] {
      NothingMatches(tokens);
      return;
    }
    var command := UpperCase(tokens[0]);
    cmd := Select(command, tokens);
  }

  /** The chain of name and arity tests, pushing the arguments each command uses. */
  method Select(command: string, tokens: seq<string>) returns (cmd: Command)
    requires tokens != [] && command == Upper(tokens[0])
    ensures cmd == Meaning(tokens)
  {
    hide Name, Upper, Meaning;
    assert tokens[1..|tokens|] == tokens[1..] && tokens[1..1] == [];
    cmd := Command(UNKNOWN, []);
    if command == Name(PING) {
      cmd := cmd.(kind := PING);
    } else if command == Name(SET) && |tokens| >= 3 {
      cmd := PushFirst(SET, tokens, 2);
    } else if command == Name(GET) && |tokens| >= 2 {
      cmd := PushFirst(GET, tokens, 1);
    } else if command == Name(INCR) && |tokens| >= 2 {
      cmd := PushFirst(INCR, tokens, 1);
    } else if command == Name(DECR) && |tokens| >= 2 {
      cmd := PushFirst(DECR, tokens, 1);
    } else if command == Name(INCRBY) && |tokens| >= 3 {
      cmd := PushFirst(INCRBY, tokens, 2);
    } else if command == Name(HSET) && |tokens| >= 4 {
      cmd := PushFirst(HSET, tokens, 3);
    } else if command == Name(HGET) && |tokens| >= 3 {
      cmd := PushFirst(HGET, tokens, 2);
    } else if command == Name(HGETALL) && |tokens| >= 2 {
      cmd := PushFirst(HGETALL, tokens, 1);
    } else if command == Name(LPUSH) && |tokens| >= 3 {
      cmd := PushFirst(LPUSH, tokens, |tokens| - 1);
    } else if command == Name(RPOP) && |tokens| >= 2 {
      cmd := PushFirst(RPOP, tokens, 1);
    } else if command == Name(LRANGE) && |tokens| >= 4 {
      cmd := PushFirst(LRANGE, tokens, 3);
    } else {
      cmd := SelectExpiryOrSet(command, tokens);
      return;
    }
    SelectionIsMeaning(tokens, cmd);
  }

  /** The rest of the chain: expiry and set commands, or none. */
  method SelectExpiryOrSet(command: string, tokens: seq<string>) returns (cmd: Command)
    requires tokens != [] && command == Upper(tokens[0])
    requires forall kind :: Matches(kind, tokens) ==>
      kind in {EXPIRE, TTL, SADD, SMEMBERS, SREM, SISMEMBER, SCARD}
    ensures cmd == Meaning(tokens)
  {
    hide Name, Upper, Meaning;
    assert tokens[1..|tokens|] == tokens[1..] && tokens[1..1] == [];
    cmd := Command(UNKNOWN, []);
    if command == Name(EXPIRE) && |tokens| >= 3 {
      cmd := PushFirst(EXPIRE, tokens, 2);
    } else if command == Name(TTL) && |tokens| >= 2 {
      cmd := PushFirst(TTL, tokens, 1);
    } else if command == Name(SADD) && |tokens| >= 3 {
      cmd := PushFirst(SADD, tokens, |tokens| - 1);
    } else if command == Name(SMEMBERS) && |tokens| >= 2 {
      cmd := PushFirst(SMEMBERS, tokens, 1);
    } else if command == Name(SREM) && |tokens| >= 3 {
      cmd := PushFirst(SREM, tokens, |tokens| - 1);
    } else if command == Name(SISMEMBER) && |tokens| >= 3 {
      cmd := PushFirst(SISMEMBER, tokens, 2);
    } else if command == Name(SCARD) && |tokens| >= 2 {
      cmd := PushFirst(SCARD, tokens, 1);
    }
    SelectionIsMeaning(tokens, cmd);
  }

  /** The first `count` tokens after the name, one push at a time. */
  method PushFirst(kind: CommandType, tokens: seq<string>, count: nat) returns (cmd: Command)
    requires count < |tokens|
    ensures cmd == Command(kind, tokens[1..count + 1])
  {
    cmd := Command(kind, []);
    for i := 1 to count + 1
      invariant cmd == Command(kind, tokens[1..i])
    {
      cmd := cmd.(args := cmd.args + [tokens[i]]);
    }
  }

  lemma {:induction false} SelectionIsMeaning(tokens: seq<string>, cmd: Command)
    requires cmd.kind == UNKNOWN ==> cmd.args == [] && forall kind :: !Matches(kind, tokens)
    requires cmd.kind != UNKNOWN ==> Matches(cmd.kind, tokens) && cmd.args == Taken(cmd.kind, tokens)
    ensures cmd == Meaning(tokens)
  {
    if cmd.kind != UNKNOWN {
      MeaningIsUnique(cmd.kind, tokens);
    }
  }

  // ---------- normal forms ----------

  /** The canonical text of a command: its name and arguments separated by single blanks. */
  function Print(cmd: Command): string {
    Name(cmd.kind) + Spaced(cmd.args)
  }

  lemma {:induction false} NamesAreUpperWords(kind: CommandType)
    requires kind != UNKNOWN
    ensures IsWord(Name(kind)) && Upper(Name(kind)) == Name(kind)
  {
    CapitalsAreUpperWords(Name(kind)) by {
      assert Name(kind) != "" && forall i :: 0 <= i < |Name(kind)| ==> 'A' <= Name(kind)[i] <= 'Z';
    }
  }

  lemma {:induction false} CapitalsAreUpperWords(s: string)
    requires s != "" && forall i :: 0 <= i < |s| ==> 'A' <= s[i] <= 'Z'
    ensures IsWord(s) && Upper(s) == s
  {
  }

  lemma {:induction false} WordsOfPrint(cmd: Command)
    requires cmd.kind != UNKNOWN && AllWords(cmd.args)
    ensures Words(Print(cmd)) == [Name(cmd.kind)] + cmd.args
  {
    NamesAreUpperWords(cmd.kind);
    WordsTakeWord(Name(cmd.kind), Spaced(cmd.args));
    WordsOfSpaced(cmd.args);
  }

  /** A command that carries as many arguments as its kind takes. */
  predicate WellFormed(cmd: Command) {
    && cmd.kind != UNKNOWN && AllWords(cmd.args)
    && (if Variadic(cmd.kind) then |cmd.args| >= Required(cmd.kind) else |cmd.args| == Required(cmd.kind))
  }

  /** Parsing undoes printing. */
  lemma {:induction false} ParseOfPrint(cmd: Command)
    requires WellFormed(cmd)
    ensures Parsed(Print(cmd)) == cmd
  {
    var tokens := [Name(cmd.kind)] + cmd.args;
    WordsOfPrint(cmd);
    NamesAreUpperWords(cmd.kind);
    assert Matches(cmd.kind, tokens);
    MeaningIsUnique(cmd.kind, tokens);
    assert Taken(cmd.kind, tokens) == cmd.args;
  }

  lemma {:induction false} ParsedIsWellFormed(text: string)
    ensures Parsed(text).kind != UNKNOWN ==> WellFormed(Parsed(text))
  {
    var tokens := Words(text);
    if kind :| Matches(kind, tokens) {
      MeaningIsUnique(kind, tokens);
    }
  }

  /** Printing a parsed command and parsing it again changes nothing: parse is a normal form. */
  lemma {:induction false} ParsingNormalises(text: string)
    requires Parsed(text).kind != UNKNOWN
    ensures Parsed(Print(Parsed(text))) == Parsed(text)
  {
    ParsedIsWellFormed(text);
    ParseOfPrint(Parsed(text));
  }

  // ---------- letter case ----------

  /** Equal, or a small letter and its capital, whose code is 32 less. */
  predicate SameLetter(c: char, d: char) {
    c == d || ('a' <= c <= 'z' && c as int - 32 == d as int) || ('a' <= d <= 'z' && d as int - 32 == c as int)
  }

  predicate SameIgnoringCase(a: string, b: string) {
    |a| == |b| && forall i :: 0 <= i < |a| ==> SameLetter(a[i], b[i])
  }

  lemma {:induction false} UpperIgnoresCase(a: string, b: string)
    ensures Upper(a) == Upper(b) <==> SameIgnoringCase(a, b)
  {
    if Upper(a) == Upper(b) {
      forall i | 0 <= i < |a| ensures SameLetter(a[i], b[i]) {
        assert Upper(a)[i] == Upper(b)[i];
      }
    }
  }

  /** What the parser recognises: the first word is the name in any letter case and enough words follow;
      it takes the arguments the command uses and ignores the rest. */
  lemma {:induction false} RecognisedExactly(text: string, kind: CommandType)
    requires kind != UNKNOWN
    ensures var w := Words(text);
      Parsed(text).kind == kind <==> |w| > Required(kind) && SameIgnoringCase(w[0], Name(kind))
    ensures var w := Words(text);
      Parsed(text).kind == kind ==> Parsed(text).args == if Variadic(kind) then w[1..] else w[1..Required(kind) + 1]
  {
    hide Words, Upper, Name, SameIgnoringCase, Meaning;
    var w := Words(text);
    NamesAreUpperWords(kind);
    if w != [] {
      UpperIgnoresCase(w[0], Name(kind));
    }
    if Matches(kind, w) {
      MeaningIsUnique(kind, w);
    } else if other :| Matches(other, w) {
      MeaningIsUnique(other, w);
    } else {
      NothingMatches(w);
    }
  }

  lemma {:induction false} SpellingIsWord(spelling: string, word: string)
    requires SameIgnoringCase(spelling, word) && word != ""
    requires forall i :: 0 <= i < |word| ==> 'A' <= word[i] <= 'Z'
    ensures IsWord(spelling)
  {
  }

  /** Every spelling of a command's name, in small letters, capitals or both, is understood. */
  lemma {:induction false} AnySpellingParses(cmd: Command, spelling: string)
    requires WellFormed(cmd) && SameIgnoringCase(spelling, Name(cmd.kind))
    ensures Parsed(spelling + Spaced(cmd.args)) == cmd
  {
    hide Words, SameIgnoringCase, IsWord, Parsed;
    assert Spaced(cmd.args) == "" || IsSpace(Spaced(cmd.args)[0]);
    hide Spaced;
    var text := spelling + Spaced(cmd.args);
    SpellingIsWord(spelling, Name(cmd.kind)) by {
      assert forall i :: 0 <= i < |Name(cmd.kind)| ==> 'A' <= Name(cmd.kind)[i] <= 'Z';
    }
    WordsTakeWord(spelling, Spaced(cmd.args));
    WordsOfSpaced(cmd.args);
    RecognisedExactly(text, cmd.kind);
    assert Words(text)[1..] == cmd.args;
  }

  /** The same words up to the letter case of the command name. */
  predicate SameCommandLine(a: seq<string>, b: seq<string>) {
    |a| == |b| && (a != [] ==> SameIgnoringCase(a[0], b[0]) && a[1..] == b[1..])
  }

  lemma {:induction false} LetterCaseDoesNotMatter(a: seq<string>, b: seq<string>)
    requires SameCommandLine(a, b)
    ensures Meaning(a) == Meaning(b)
  {
    hide Upper, SameIgnoringCase, Name, Meaning;
    if a == [] {
      return;
    }
    UpperIgnoresCase(a[0], b[0]);
    assert forall kind :: Matches(kind, a) <==> Matches(kind, b);
    if kind :| Matches(kind, a) {
      MeaningIsUnique(kind, a);
      MeaningIsUnique(kind, b);
      assert Taken(kind, a) == Taken(kind, b) by {
        assert a == [a[0]] + a[1..] && b == [b[0]] + b[1..];
        assert !Variadic(kind) ==> a[1..Required(kind) + 1] == a[1..][..Required(kind)];
        assert !Variadic(kind) ==> b[1..Required(kind) + 1] == b[1..][..Required(kind)];
      }
    } else {
      NothingMatches(a);
      NothingMatches(b);
    }
  }

  /** Any white-space layout and any letter case of the name give the same command. */
  lemma {:induction false} LayoutAndCaseDoNotMatter(
      gapsA: seq<string>, wordsA: seq<string>, endA: string, gapsB: seq<string>, wordsB: seq<string>, endB: string)
    requires IsLayout(gapsA, wordsA, endA) && IsLayout(gapsB, wordsB, endB)
    requires SameCommandLine(wordsA, wordsB)
    ensures Parsed(Layout(gapsA, wordsA, endA)) == Parsed(Layout(gapsB, wordsB, endB))
  {
    WordsOfLayout(gapsA, wordsA, endA);
    WordsOfLayout(gapsB, wordsB, endB);
    LetterCaseDoesNotMatter(wordsA, wordsB);
  }
}
