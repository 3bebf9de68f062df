/** Words, lines and separators: what the tokeniser, the session and the client do to text. */
module Text {
  import opened Prelude
  import opened Decimal

  const CRLF := "\r\n"

  /** One whitespace-free, non-empty token. */
  predicate IsWord(w: string) {
    w != "" && forall i :: 0 <= i < |w| ==> !IsSpace(w[i])
  }

  predicate AllWords(ws: seq<string>) {
    forall i :: 0 <= i < |ws| ==> IsWord(ws[i])
  }

  /** Length of the longest prefix of `s` without whitespace. */
  function WordLength(s: string): (n: nat)
    ensures n <= |s|
    ensures forall i :: 0 <= i < n ==> !IsSpace(s[i])
    ensures n < |s| ==> IsSpace(s[n])
  {
    if s == "" || IsSpace(s[0]) then 0 else 1 + WordLength(s[1..])
  }

  /** The tokens that `stream >> token` yields until it fails. */
  function Words(s: string): (ws: seq<string>)
    ensures AllWords(ws)
    decreases |s|
  {
    if s == "" then []
    else if IsSpace(s[0]) then Words(s[1..])
    else
      var n := WordLength(s);
      [s[..n]] + Words(s[n..])
  }

  lemma {:induction false} WordsSkipSpace(gap: string, rest: string)
    requires AllSpace(gap)
    ensures Words(gap + rest) == Words(rest)
  {
    if gap == "" {
      assert gap + rest == rest;
    } else {
      assert (gap + rest)[1..] == gap[1..] + rest;
      WordsSkipSpace(gap[1..], rest);
    }
  }

  lemma {:induction false} WordsTakeWord(word: string, rest: string)
    requires IsWord(word) && (rest == "" || IsSpace(rest[0]))
    ensures Words(word + rest) == [word] + Words(rest)
  {
    var s := word + rest;
    var n := WordLength(s);
    assert forall i :: 0 <= i < |word| ==> s[i] == word[i];
    assert rest != "" ==> s[|word|] == rest[0];
    assert n == |word|;
    assert s[..n] == word && s[n..] == rest;
  }

  /** Each word preceded by one blank, as the client's string builder appends arguments. */
  function Spaced(words: seq<string>): string {
    if words == [] then "" else " " + words[0] + Spaced(words[1..])
  }

  /** Printing words with single blanks and tokenising gives the words back. */
  lemma {:induction false} WordsOfSpaced(words: seq<string>)
    requires AllWords(words)
    ensures Words(Spaced(words)) == words
  {
    if words == [] {
    } else {
      var tail := Spaced(words[1..]);
      WordsOfSpaced(words[1..]);
      assert Spaced(words) == " " + (words[0] + tail);
      WordsSkipSpace(" ", words[0] + tail);
      WordsTakeWord(words[0], tail);
      assert words == [words[0]] + words[1..];
    }
  }

  /** An arbitrary layout: each word preceded by its own gap, then trailing white space. */
  function Layout(gaps: seq<string>, words: seq<string>, end: string): string
    requires |gaps| == |words|
  {
    if words == [] then end else gaps[0] + words[0] + Layout(gaps[1..], words[1..], end)
  }

  /** White space everywhere it is allowed and wherever it is needed. */
  predicate IsLayout(gaps: seq<string>, words: seq<string>, end: string) {
    && |gaps| == |words| && AllWords(words) && AllSpace(end)
    && forall i :: 0 <= i < |gaps| ==> AllSpace(gaps[i]) && (0 < i ==> gaps[i] != "")
  }

  /** Tokenising forgets the layout: any gaps, as long as words do not touch. */
  lemma {:induction false} WordsOfLayout(gaps: seq<string>, words: seq<string>, end: string)
    requires IsLayout(gaps, words, end)
    ensures Words(Layout(gaps, words, end)) == words
  {
    if words == [] {
      WordsSkipSpace(end, "");
      assert end + "" == end;
    } else {
      var rest := Layout(gaps[1..], words[1..], end);
      assert rest != "" ==> IsSpace(rest[0]);
      WordsOfLayout(gaps[1..], words[1..], end);
      assert Layout(gaps, words, end) == gaps[0] + (words[0] + rest);
      WordsSkipSpace(gaps[0], words[0] + rest);
      WordsTakeWord(words[0], rest);
      assert words == [words[0]] + words[1..];
    }
  }

  // ---------- lines ----------

  predicate IsEol(c: char) {
    c == '\n' || c == '\r'
  }

  predicate OneLine(s: string) {
    forall i :: 0 <= i < |s| ==> !IsEol(s[i])
  }

  /** The session's erase-remove of every line feed and carriage return. */
  function Strip(s: string): (r: string)
    ensures OneLine(r)
  {
    if s == "" then "" else if IsEol(s[0]) then Strip(s[1..]) else [s[0]] + Strip(s[1..])
  }

  lemma {:induction false} StripLine(line: string)
    requires OneLine(line)
    ensures Strip(line + "\n") == line
  {
    if line == "" {
      assert Strip("\n") == "" + Strip("");
    } else {
      assert (line + "\n")[1..] == line[1..] + "\n";
      StripLine(line[1..]);
    }
  }

  /** Index of the first end-of-line character, or the length. */
  function EolIndex(s: string): (n: nat)
    ensures n <= |s| && OneLine(s[..n])
    ensures n < |s| ==> IsEol(s[n])
  {
    if s == "" || IsEol(s[0]) then 0 else 1 + EolIndex(s[1..])
  }

  /** `BufferedReader.readLine` on a finite stream: the line, or `None` at the end, and what is left. */
  function ReadLine(s: string): (r: (Option<string>, string))
    ensures |r.1| <= |s| && (r.0.Some? ==> |r.1| < |s|)
  {
    var n := EolIndex(s);
    if s == "" then (None, "")
    else if n == |s| then (Some(s), "")
    else if s[n] == '\r' && n + 1 < |s| && s[n + 1] == '\n' then (Some(s[..n]), s[n + 2..])
    else (Some(s[..n]), s[n + 1..])
  }

  lemma {:induction false} ReadLineOfLine(line: string, rest: string)
    requires OneLine(line)
    ensures ReadLine(line + CRLF + rest) == (Some(line), rest)
  {
    var s := line + CRLF + rest;
    assert forall i :: 0 <= i < |line| ==> s[i] == line[i];
    assert s[|line|] == '\r' && s[|line| + 1] == '\n';
    assert EolIndex(s) == |line|;
    assert s[..|line|] == line && s[|line| + 2..] == rest;
  }

  lemma WordIsOneLine(w: string)
    requires IsWord(w)
    ensures OneLine(w)
  {
  }

  lemma {:induction false} SpacedIsOneLine(words: seq<string>)
    requires AllWords(words)
    ensures OneLine(Spaced(words))
  {
    if words == [] {
    } else {
      SpacedIsOneLine(words[1..]);
    }
  }

  lemma {:induction false} NumberIsWord(n: int)
    ensures IsWord(ToString(n))
  {
  }
}
