/**
 The message history on disk: one JSON document per line, written to a temporary file that then
 replaces the real one, and read back with tolerance for damaged lines.
 */
module MessageLog {
  import opened Basics
  import opened Messages
  import opened PythonText

  // ---------- JSON documents ----------

  /** A rendered document is made of fixed punctuation and of quoted strings. */
  datatype Token = Punct(text: string) | Quoted(text: string)

  function HexDigit(n: nat): char
    requires n < 16
  {
    if n < 10 then '0' + n as char else 'a' + (n - 10) as char
  }

  /** One character inside a JSON string, with `ensure_ascii=False`. */
  function EscapeChar(c: char): string {
    if c == '"' then "\\\""
    else if c == '\\' then "\\\\"
    else if c == '\n' then "\\n"
    else if c == '\r' then "\\r"
    else if c == '\t' then "\\t"
    else if c == '\U{0008}' then "\\b"
    else if c == '\U{000C}' then "\\f"
    else if c < ' ' then "\\u00" + [HexDigit(c as int / 16), HexDigit(c as int % 16)]
    else [c]
  }

  function Escape(s: string): string {
    if s == "" then "" else Escape(s[..|s| - 1]) + EscapeChar(s[|s| - 1])
  }

  function Render(ts: seq<Token>): string {
    if ts == [] then ""
    else
      var last := ts[|ts| - 1];
      Render(ts[..|ts| - 1]) + match last
        case Punct(t) => t
        case Quoted(t) => "\"" + Escape(t) + "\""
  }

  /**
   The JSON library. What is relied on: rendering then parsing is the identity, a document is
   rendered as an object whose punctuation has no line breaks, a proper prefix of an object is not
   a document, and a piece behind a break in a document holds no break in any of its strings. Such
   a break stands inside a string, so what the piece quotes is the document's own punctuation.
   */
  datatype Codec = Codec(dumps: Message -> string, loads: string -> Option<Message>, tokens: Message -> seq<Token>)
  {
    ghost predicate Lawful() {
      && (forall m: Message :: loads(dumps(m)) == Some(m))
      && (forall m: Message :: dumps(m) != "" && dumps(m)[0] == '{' && dumps(m)[|dumps(m)| - 1] == '}')
      && (forall m: Message, k: nat :: k < |dumps(m)| ==> loads(dumps(m)[..k]) == None)
      && (forall m: Message :: dumps(m) == Render(tokens(m)))
      && (forall m: Message, i: nat :: i < |tokens(m)| && tokens(m)[i].Punct? ==> NoBreak(tokens(m)[i].text))
      && (forall m: Message, a: nat, b: nat :: 0 < a <= b <= |dumps(m)| && IsBreak(dumps(m)[a - 1]) ==>
            PieceSafe(dumps(m)[a..b]))
    }

    /** Whatever this line reads as fits on one line when written. */
    predicate PieceSafe(line: string) {
      var read := loads(Strip(line));
      read.Some? ==> LineSafe(read.value)
    }

    /** No string in the message contains one of the three breaks JSON leaves as they are. */
    predicate LineSafe(m: Message) {
      forall i :: 0 <= i < |tokens(m)| && tokens(m)[i].Quoted? ==> NoUnescapedBreak(tokens(m)[i].text)
    }
  }

  // ---------- reading and writing ----------

  function Payload(codec: Codec, ms: History): string {
    if ms == [] then "" else codec.dumps(ms[0]) + "\n" + Payload(codec, ms[1..])
  }

  function ReadLine(codec: Codec, line: string): History {
    var s := Strip(line);
    if s == "" then [] else
      match codec.loads(s)
      case Some(m) => [m]
      case None => []
  }

  function ReadLines(codec: Codec, lines: seq<string>): History {
    if lines == [] then [] else ReadLines(codec, lines[..|lines| - 1]) + ReadLine(codec, lines[|lines| - 1])
  }

  /** The history in a file; `None` stands for a missing file. */
  function ReadText(codec: Codec, file: Option<string>): History {
    match file
    case None => []
    case Some(text) => ReadLines(codec, SplitLines(text))
  }

  method ReadMessages(codec: Codec, file: Option<string>) returns (messages: History)
    ensures messages == ReadText(codec, file)
  {
    if file.None? { return []; }
    var lines := SplitLines(file.value);
    messages := [];
    for i := 0 to |lines|
      invariant messages == ReadLines(codec, lines[..i])
    {
      ReadLinesStep(codec, lines, i);
      var line := Strip(lines[i]);
      if line == "" { continue; }
      match codec.loads(line) {
        case Some(m) => messages := messages + [m];
        case None =>
      }
    }
    assert lines[..|lines|] == lines;
  }

  lemma ReadLinesStep(codec: Codec, lines: seq<string>, i: nat)
    requires i < |lines|
    ensures ReadLines(codec, lines[..i + 1]) == ReadLines(codec, lines[..i]) + ReadLine(codec, lines[i])
  {
    assert lines[..i + 1][..i] == lines[..i];
  }

  // ---------- line breaks in a rendered document ----------

  lemma EscapeCharBreaks(c: char)
    ensures NoBreak(EscapeChar(c)) <==> !UnescapedBreak(c)
  {
    if c < ' ' {
      var hi, lo := HexDigit(c as int / 16), HexDigit(c as int % 16);
      assert !IsBreak(hi) && !IsBreak(lo);
    } else {
      assert EscapeChar(c) == [c] ==> EscapeChar(c)[0] == c;
    }
  }

  lemma NoBreakConcat(a: string, b: string)
    ensures NoBreak(a + b) <==> NoBreak(a) && NoBreak(b)
  {
    if NoBreak(a + b) {
      assert forall i :: 0 <= i < |a| ==> a[i] == (a + b)[i];
      assert forall i :: 0 <= i < |b| ==> b[i] == (a + b)[|a| + i];
    }
  }

  /** Escaping removes every line break but the three. */
  lemma {:induction false} EscapeBreaksExactly(s: string)
    ensures NoBreak(Escape(s)) <==> NoUnescapedBreak(s)
  {
    if s != "" {
      var n := |s| - 1;
      EscapeBreaksExactly(s[..n]);
      EscapeCharBreaks(s[n]);
      NoBreakConcat(Escape(s[..n]), EscapeChar(s[n]));
      assert NoUnescapedBreak(s) <==> NoUnescapedBreak(s[..n]) && !UnescapedBreak(s[n]);
    }
  }

  lemma QuotedBreaks(t: string)
    ensures NoBreak("\"" + Escape(t) + "\"") <==> NoUnescapedBreak(t)
  {
    EscapeBreaksExactly(t);
    NoBreakConcat("\"", Escape(t));
    NoBreakConcat("\"" + Escape(t), "\"");
  }

  // ---------- escaping loses nothing ----------

  function HexValue(c: char): Option<nat> {
    if '0' <= c <= '9' then Some(c as int - '0' as int)
    else if 'a' <= c <= 'f' then Some(c as int - 'a' as int + 10)
    else None
  }

  /** A JSON reader for the inside of a quoted string: one character and what is left of the text. */
  function ReadChar(s: string): Option<(char, string)>
    requires s != ""
  {
    if s[0] == '"' || s[0] < ' ' then None
    else if s[0] != '\\' then Some((s[0], s[1..]))
    else if |s| < 2 then None
    else if s[1] in {'"', '\\', '/'} then Some((s[1], s[2..]))
    else if s[1] == 'n' then Some(('\n', s[2..]))
    else if s[1] == 'r' then Some(('\r', s[2..]))
    else if s[1] == 't' then Some(('\t', s[2..]))
    else if s[1] == 'b' then Some(('\U{0008}', s[2..]))
    else if s[1] == 'f' then Some(('\U{000C}', s[2..]))
    else if s[1] == 'u' && |s| >= 6 && s[2] == '0' && s[3] == '0' && HexValue(s[4]).Some? && HexValue(s[5]).Some?
    then Some(((16 * HexValue(s[4]).value + HexValue(s[5]).value) as char, s[6..]))
    else None
  }

  function Unescaped(s: string): Option<string>
    decreases |s|
  {
    if s == "" then Some("")
    else
      match ReadChar(s)
      case None => None
      case Some((c, rest)) =>
        if |rest| >= |s| then None
        else match Unescaped(rest) case None => None case Some(t) => Some([c] + t)
  }

  lemma ReadEscapedChar(c: char, rest: string)
    ensures ReadChar(EscapeChar(c) + rest) == Some((c, rest))
  {
    var s := EscapeChar(c) + rest;
    assert |EscapeChar(c)| > 0 && s[|EscapeChar(c)|..] == rest;
    if c < ' ' && |EscapeChar(c)| == 6 {
      assert s[4] == HexDigit(c as int / 16) && s[5] == HexDigit(c as int % 16);
      assert 16 * (c as int / 16) + c as int % 16 == c as int;
    }
  }

  lemma {:induction false} EscapeFirst(s: string)
    requires s != ""
    ensures Escape(s) == EscapeChar(s[0]) + Escape(s[1..])
  {
    var n := |s| - 1;
    if n > 0 {
      EscapeFirst(s[..n]);
      assert s[..n][1..] == s[1..][..n - 1];
    } else {
      assert s[..n] == "" && s[1..] == "";
    }
  }

  /** A quoted string reads back as what was quoted, whatever its characters. */
  lemma {:induction false} UnescapeUndoesEscape(s: string)
    ensures Unescaped(Escape(s)) == Some(s)
  {
    if s != "" {
      EscapeFirst(s);
      ReadEscapedChar(s[0], Escape(s[1..]));
      UnescapeUndoesEscape(s[1..]);
      UnescapeStep(EscapeChar(s[0]), Escape(s[1..]), s[0], s[1..]);
      assert s == [s[0]] + s[1..];
    }
  }

  lemma UnescapeStep(front: string, rest: string, c: char, t: string)
    requires front != "" && ReadChar(front + rest) == Some((c, rest)) && Unescaped(rest) == Some(t)
    ensures Unescaped(front + rest) == Some([c] + t)
  {
  }

  predicate TokensSafe(ts: seq<Token>) {
    forall i :: 0 <= i < |ts| && ts[i].Quoted? ==> NoUnescapedBreak(ts[i].text)
  }

  lemma TokensSafeStep(ts: seq<Token>)
    requires ts != []
    ensures var n := |ts| - 1;
            TokensSafe(ts) <==> TokensSafe(ts[..n]) && (ts[n].Quoted? ==> NoUnescapedBreak(ts[n].text))
  {
    var n := |ts| - 1;
    assert forall i :: 0 <= i < n ==> ts[..n][i] == ts[i];
  }

  lemma {:induction false} RenderBreaksExactly(ts: seq<Token>)
    requires forall i :: 0 <= i < |ts| && ts[i].Punct? ==> NoBreak(ts[i].text)
    ensures NoBreak(Render(ts)) <==> TokensSafe(ts)
  {
    if ts != [] {
      var n := |ts| - 1;
      RenderBreaksExactly(ts[..n]);
      TokensSafeStep(ts);
      match ts[n]
      case Punct(t) => NoBreakConcat(Render(ts[..n]), t);
      case Quoted(t) =>
        QuotedBreaks(t);
        NoBreakConcat(Render(ts[..n]), "\"" + Escape(t) + "\"");
    }
  }

  /** A message takes one line of the file exactly when it is free of the three breaks. */
  lemma DumpsBreaksExactly(codec: Codec, m: Message)
    requires codec.Lawful()
    ensures NoBreak(codec.dumps(m)) <==> codec.LineSafe(m)
  {
    RenderBreaksExactly(codec.tokens(m));
  }

  // ---------- splitting a payload ----------

  lemma LineLengthOf(d: string, rest: string)
    requires NoBreak(d) && (rest == "" || IsBreak(rest[0]))
    ensures LineLength(d + rest) == |d|
  {
    assert IsLineEnd(d + rest, |d|);
    LineEndUnique(d + rest, LineLength(d + rest), |d|);
  }

  lemma SplitFirstLine(d: string, rest: string)
    requires NoBreak(d)
    ensures SplitLines(d + "\n" + rest) == [d] + SplitLines(rest)
  {
    var s := d + "\n" + rest;
    assert s == d + ("\n" + rest);
    LineLengthOf(d, "\n" + rest);
    assert s[|d|] == '\n';
    assert s[..|d|] == d && s[|d| + 1..] == rest;
  }

  /**
   `splitlines`: a text without a break is one line, or none if it is empty; and a break ends a line, a
   carriage return together with the line feed behind it.
   */
  lemma SplitLinesExactly(d: string, c: char, rest: string)
    requires NoBreak(d) && IsBreak(c)
    ensures SplitLines(d) == if d == "" then [] else [d]
    ensures SplitLines(d + [c] + rest) ==
            [d] + SplitLines(if c == '\r' && rest != "" && rest[0] == '\n' then rest[1..] else rest)
  {
    SplitLastLine(d);
    var s := d + ([c] + rest);
    assert s == d + [c] + rest;
    LineLengthOf(d, [c] + rest);
    assert s[|d|] == c && s[..|d|] == d && s[|d| + 1..] == rest;
    if rest != "" { assert s[|d| + 1] == rest[0] && s[|d| + 2..] == rest[1..]; }
  }

  lemma SplitLastLine(d: string)
    requires NoBreak(d)
    ensures SplitLines(d) == if d == "" then [] else [d]
  {
    assert d + "" == d;
    LineLengthOf(d, "");
  }

  function Lines(codec: Codec, ms: History): (ls: seq<string>)
    ensures |ls| == |ms|
  {
    seq(|ms|, i requires 0 <= i < |ms| => codec.dumps(ms[i]))
  }

  predicate AllLineSafe(codec: Codec, ms: History) {
    forall i :: 0 <= i < |ms| ==> codec.LineSafe(ms[i])
  }

  lemma LinesOfFirst(codec: Codec, ms: History, more: seq<string>)
    requires ms != []
    ensures Lines(codec, ms) + more == [codec.dumps(ms[0])] + (Lines(codec, ms[1..]) + more)
  {
  }

  lemma PayloadOfFirst(codec: Codec, ms: History, rest: string)
    requires ms != []
    ensures Payload(codec, ms) + rest == codec.dumps(ms[0]) + "\n" + (Payload(codec, ms[1..]) + rest)
  {
  }

  lemma {:induction false} SplitPayload(codec: Codec, ms: History, rest: string)
    requires codec.Lawful() && AllLineSafe(codec, ms)
    ensures SplitLines(Payload(codec, ms) + rest) == Lines(codec, ms) + SplitLines(rest)
  {
    if ms == [] {
      assert Payload(codec, ms) + rest == rest;
    } else {
      DumpsBreaksExactly(codec, ms[0]);
      PayloadOfFirst(codec, ms, rest);
      SplitFirstLine(codec.dumps(ms[0]), Payload(codec, ms[1..]) + rest);
      SplitPayload(codec, ms[1..], rest);
      LinesOfFirst(codec, ms, SplitLines(rest));
    }
  }

  // ---------- reading back ----------

  lemma {:induction false} ReadLinesConcat(codec: Codec, a: seq<string>, b: seq<string>)
    ensures ReadLines(codec, a + b) == ReadLines(codec, a) + ReadLines(codec, b)
  {
    if b == [] {
      assert a + b == a;
    } else {
      var n := |b| - 1;
      assert (a + b)[..|a + b| - 1] == a + b[..n];
      ReadLinesConcat(codec, a, b[..n]);
    }
  }

  lemma StripDocument(codec: Codec, m: Message)
    requires codec.Lawful()
    ensures Strip(codec.dumps(m)) == codec.dumps(m)
  {
    var d := codec.dumps(m);
    assert !IsSpace(d[0]) && !IsSpace(d[|d| - 1]);
  }

  lemma ReadOwnLine(codec: Codec, m: Message)
    requires codec.Lawful()
    ensures ReadLine(codec, codec.dumps(m)) == [m]
  {
    StripDocument(codec, m);
  }

  lemma {:induction false} ReadLineByLine(codec: Codec, ms: History)
    requires forall i :: 0 <= i < |ms| ==> ReadLine(codec, codec.dumps(ms[i])) == [ms[i]]
    ensures ReadLines(codec, Lines(codec, ms)) == ms
  {
    if ms != [] {
      var n := |ms| - 1;
      ReadLineByLine(codec, ms[..n]);
      assert Lines(codec, ms)[..n] == Lines(codec, ms[..n]);
      assert ms == ms[..n] + [ms[n]];
    }
  }

  lemma ReadOwnLines(codec: Codec, ms: History)
    requires codec.Lawful()
    ensures ReadLines(codec, Lines(codec, ms)) == ms
  {
    forall i | 0 <= i < |ms| ensures ReadLine(codec, codec.dumps(ms[i])) == [ms[i]] {
      ReadOwnLine(codec, ms[i]);
    }
    ReadLineByLine(codec, ms);
  }

  /** A torn line, that is a prefix of a document cut before its end, is skipped. */
  lemma TornLineSkipped(codec: Codec, m: Message, k: nat)
    requires codec.Lawful() && k < |codec.dumps(m)|
    ensures ReadLine(codec, codec.dumps(m)[..k]) == []
  {
    var p := codec.dumps(m)[..k];
    if k > 0 {
      assert p[0] == '{' && !IsSpace(p[0]);
      assert StripLeft(p) == p;
    }
    var s := Strip(p);
    assert s == codec.dumps(m)[..|s|];
  }

  /** Reading undoes writing. */
  lemma ReadUndoesWrite(codec: Codec, ms: History)
    requires codec.Lawful() && AllLineSafe(codec, ms)
    ensures ReadText(codec, Some(Payload(codec, ms))) == ms
  {
    SplitPayload(codec, ms, "");
    assert Payload(codec, ms) + "" == Payload(codec, ms);
    assert Lines(codec, ms) + [] == Lines(codec, ms);
    ReadOwnLines(codec, ms);
  }

  /** The document in which a prefix of the payload breaks off. */
  lemma {:induction false} PrefixOfPayload(codec: Codec, ms: History, n: nat) returns (k: nat, tail: string)
    requires n <= |Payload(codec, ms)|
    ensures k <= |ms| && Payload(codec, ms)[..n] == Payload(codec, ms[..k]) + tail
    ensures if k < |ms| then tail <= codec.dumps(ms[k]) else tail == ""
  {
    if ms == [] {
      k, tail := 0, "";
    } else {
      var d := codec.dumps(ms[0]);
      if n <= |d| {
        k, tail := 0, d[..n];
      } else {
        var j, t := PrefixOfPayload(codec, ms[1..], n - |d| - 1);
        k, tail := j + 1, t;
        assert ms[..k][1..] == ms[1..][..j];
        assert Payload(codec, ms)[..n] == d + "\n" + Payload(codec, ms[1..])[..n - |d| - 1];
      }
    }
  }

  lemma ReadTail(codec: Codec, m: Message, tail: string)
    requires codec.Lawful() && codec.LineSafe(m) && tail <= codec.dumps(m)
    ensures ReadLines(codec, SplitLines(tail)) == if tail == codec.dumps(m) then [m] else []
  {
    DumpsBreaksExactly(codec, m);
    assert forall i :: 0 <= i < |tail| ==> tail[i] == codec.dumps(m)[i];
    SplitLastLine(tail);
    assert [tail][..0] == [];
    if tail == codec.dumps(m) {
      ReadOwnLine(codec, m);
    } else {
      TornLineSkipped(codec, m, |tail|);
      assert tail == codec.dumps(m)[..|tail|];
    }
  }

  /** Reading any character-prefix of the file yields a prefix of the messages. */
  lemma ReadPrefix(codec: Codec, ms: History, n: nat)
    requires codec.Lawful() && AllLineSafe(codec, ms)
    requires n <= |Payload(codec, ms)|
    ensures ReadText(codec, Some(Payload(codec, ms)[..n])) <= ms
  {
    var k, tail := PrefixOfPayload(codec, ms, n);
    ReadFront(codec, ms[..k], tail);
    var extra := ReadLines(codec, SplitLines(tail));
    if k < |ms| {
      ReadTail(codec, ms[k], tail);
    } else {
      SplitLastLine(tail);
    }
    TakeSome(ms, k, extra);
  }

  lemma TakeSome(ms: History, k: nat, extra: History)
    requires k <= |ms| && (extra == [] || (k < |ms| && extra == [ms[k]]))
    ensures ms[..k] + extra <= ms
  {
  }

  lemma ReadFront(codec: Codec, ms: History, tail: string)
    requires codec.Lawful() && AllLineSafe(codec, ms)
    ensures ReadText(codec, Some(Payload(codec, ms) + tail)) == ms + ReadLines(codec, SplitLines(tail))
  {
    SplitPayload(codec, ms, tail);
    ReadLinesConcat(codec, Lines(codec, ms), SplitLines(tail));
    ReadOwnLines(codec, ms);
  }

  // ---------- histories that do not fit on their lines ----------

  /** Only the three breaks occur in the text. */
  predicate OnlyUnescapedBreaks(s: string) {
    forall i :: 0 <= i < |s| && IsBreak(s[i]) ==> UnescapedBreak(s[i])
  }

  lemma OnlyUnescapedConcat(a: string, b: string)
    requires OnlyUnescapedBreaks(a) && OnlyUnescapedBreaks(b)
    ensures OnlyUnescapedBreaks(a + b)
  {
  }

  lemma {:induction false} EscapeOnlyUnescaped(s: string)
    ensures OnlyUnescapedBreaks(Escape(s))
  {
    if s != "" {
      var n := |s| - 1;
      EscapeOnlyUnescaped(s[..n]);
      EscapeCharBreaks(s[n]);
      assert !NoBreak(EscapeChar(s[n])) ==> EscapeChar(s[n]) == [s[n]];
      OnlyUnescapedConcat(Escape(s[..n]), EscapeChar(s[n]));
    }
  }

  lemma {:induction false} RenderOnlyUnescaped(ts: seq<Token>)
    requires forall i :: 0 <= i < |ts| && ts[i].Punct? ==> NoBreak(ts[i].text)
    ensures OnlyUnescapedBreaks(Render(ts))
  {
    if ts != [] {
      var n := |ts| - 1;
      RenderOnlyUnescaped(ts[..n]);
      match ts[n]
      case Punct(t) => OnlyUnescapedConcat(Render(ts[..n]), t);
      case Quoted(t) =>
        EscapeOnlyUnescaped(t);
        OnlyUnescapedConcat("\"", Escape(t));
        OnlyUnescapedConcat("\"" + Escape(t), "\"");
        OnlyUnescapedConcat(Render(ts[..n]), "\"" + Escape(t) + "\"");
    }
  }

  lemma LineLengthPrefix(d: string, rest: string)
    requires LineLength(d) < |d|
    ensures LineLength(d + rest) == LineLength(d)
  {
    assert IsLineEnd(d + rest, LineLength(d));
    LineEndUnique(d + rest, LineLength(d + rest), LineLength(d));
  }

  lemma SplitOff(s: string)
    requires LineLength(s) < |s|
    ensures var n := LineLength(s);
            SplitLines(s) == [s[..n]] + SplitLines(s[n + BreakLength(s, n)..])
  {
  }

  lemma SplitOffPrefix(d: string, rest: string)
    requires LineLength(d) < |d| && d[LineLength(d)] != '\r'
    ensures var n := LineLength(d);
            && SplitLines(d) == [d[..n]] + SplitLines(d[n + 1..])
            && SplitLines(d + rest) == [d[..n]] + SplitLines(d[n + 1..] + rest)
  {
    var n := LineLength(d);
    LineLengthPrefix(d, rest);
    SplitOff(d);
    SplitOff(d + rest);
    assert (d + rest)[n] == d[n] && (d + rest)[..n] == d[..n] && (d + rest)[n + 1..] == d[n + 1..] + rest;
  }

  /** A text as documents are: it does not end on a break and holds none but the three. */
  predicate DocumentText(d: string) {
    d != "" && !IsBreak(d[|d| - 1]) && OnlyUnescapedBreaks(d)
  }

  lemma BehindBreak(d: string, n: nat)
    requires DocumentText(d) && n < |d| && IsBreak(d[n])
    ensures d[n] != '\r' && DocumentText(d[n + 1..])
  {
  }

  lemma SplitWholeLine(d: string, rest: string)
    requires d != "" && LineLength(d) == |d|
    ensures SplitLines(d + ("\n" + rest)) == SplitLines(d) + SplitLines(rest)
  {
    assert d[..|d|] == d && d + ("\n" + rest) == d + "\n" + rest;
    SplitFirstLine(d, rest);
    SplitLastLine(d);
  }

  /** A document's lines, however many, come before those of what is written after it. */
  lemma {:induction false} SplitDocument(d: string, rest: string)
    requires DocumentText(d)
    ensures SplitLines(d + ("\n" + rest)) == SplitLines(d) + SplitLines(rest)
    decreases |d|
  {
    var n := LineLength(d);
    if n == |d| {
      SplitWholeLine(d, rest);
    } else {
      BehindBreak(d, n);
      SplitDocument(d[n + 1..], rest);
      SplitOneMore(d, rest, SplitLines(rest));
    }
  }

  lemma SplitOneMore(d: string, rest: string, ls: seq<string>)
    requires LineLength(d) < |d| && d[LineLength(d)] != '\r'
    requires var t := d[LineLength(d) + 1..]; SplitLines(t + ("\n" + rest)) == SplitLines(t) + ls
    ensures SplitLines(d + ("\n" + rest)) == SplitLines(d) + ls
  {
    SplitOffPrefix(d, "\n" + rest);
    var n := LineLength(d);
    Regroup([d[..n]], SplitLines(d[n + 1..]), ls);
  }

  lemma Regroup(a: seq<string>, b: seq<string>, c: seq<string>)
    ensures a + (b + c) == a + b + c
  {
  }

  lemma ReadFirstLine(codec: Codec, line: string, more: seq<string>)
    ensures ReadLines(codec, [line] + more) == ReadLine(codec, line) + ReadLines(codec, more)
  {
    ReadLinesConcat(codec, [line], more);
    assert [line][..0] == [];
  }

  /** Each piece that starts the text or follows a break reads as something that fits on its line. */
  ghost predicate PiecesSafe(codec: Codec, s: string) {
    forall a, b :: 0 <= a <= b <= |s| && (a == 0 || IsBreak(s[a - 1])) ==> codec.PieceSafe(s[a..b])
  }

  lemma PiecesOfSuffix(codec: Codec, s: string, i: nat)
    requires PiecesSafe(codec, s) && 0 < i <= |s| && IsBreak(s[i - 1])
    ensures PiecesSafe(codec, s[i..])
  {
    forall a, b | 0 <= a <= b <= |s| - i && (a == 0 || IsBreak(s[i..][a - 1])) ensures codec.PieceSafe(s[i..][a..b]) {
      assert s[i..][a..b] == s[i + a..i + b];
      assert a > 0 ==> s[i..][a - 1] == s[i + a - 1];
    }
  }

  lemma ReadPiece(codec: Codec, line: string)
    requires codec.PieceSafe(line)
    ensures AllLineSafe(codec, ReadLine(codec, line))
  {
  }

  lemma AllLineSafeConcat(codec: Codec, a: History, b: History)
    requires AllLineSafe(codec, a) && AllLineSafe(codec, b)
    ensures AllLineSafe(codec, a + b)
  {
  }

  lemma {:induction false} ReadPieces(codec: Codec, s: string)
    requires PiecesSafe(codec, s)
    ensures AllLineSafe(codec, ReadLines(codec, SplitLines(s)))
    decreases |s|
  {
    var n := LineLength(s);
    if n == |s| {
      assert s[..n] == s == s[0..|s|];
      SplitLastLine(s);
      ReadFirstLine(codec, s, []);
      ReadPiece(codec, s);
    } else {
      var i := n + BreakLength(s, n);
      SplitOff(s);
      assert s[0..n] == s[..n] && codec.PieceSafe(s[0..n]);
      ReadFirstLine(codec, s[..n], SplitLines(s[i..]));
      ReadPiece(codec, s[..n]);
      PiecesOfSuffix(codec, s, i);
      ReadPieces(codec, s[i..]);
      AllLineSafeConcat(codec, ReadLine(codec, s[..n]), ReadLines(codec, SplitLines(s[i..])));
    }
  }

  lemma DocumentPieces(codec: Codec, m: Message, i: nat)
    requires codec.Lawful() && 0 < i <= |codec.dumps(m)| && IsBreak(codec.dumps(m)[i - 1])
    ensures PiecesSafe(codec, codec.dumps(m)[i..])
  {
    var d := codec.dumps(m);
    forall a, b | 0 <= a <= b <= |d| - i && (a == 0 || IsBreak(d[i..][a - 1])) ensures codec.PieceSafe(d[i..][a..b]) {
      assert d[i..][a..b] == d[i + a..i + b];
      assert a > 0 ==> d[i..][a - 1] == d[i + a - 1];
    }
  }

  lemma BrokenFirstLine(s: string)
    requires !NoBreak(s)
    ensures LineLength(s) < |s|
  {
    assert LineLength(s) == |s| ==> NoBreak(s) by { assert s[..|s|] == s; }
  }

  /** What is read from the lines of one document. */
  lemma ReadDocument(codec: Codec, m: Message)
    requires codec.Lawful()
    ensures AllLineSafe(codec, ReadLines(codec, SplitLines(codec.dumps(m))))
  {
    var d := codec.dumps(m);
    DumpsBreaksExactly(codec, m);
    if codec.LineSafe(m) {
      SplitLastLine(d);
      ReadOwnLine(codec, m);
      ReadFirstLine(codec, d, []);
    } else {
      ReadBroken(codec, m);
    }
  }

  /** A document broken over several lines. */
  lemma ReadBroken(codec: Codec, m: Message)
    requires codec.Lawful() && !NoBreak(codec.dumps(m))
    ensures AllLineSafe(codec, ReadLines(codec, SplitLines(codec.dumps(m))))
  {
    var d := codec.dumps(m);
    BrokenFirstLine(d);
    var n := LineLength(d);
    var i := n + BreakLength(d, n);
    TornLineSkipped(codec, m, n);
    DocumentPieces(codec, m, i);
    ReadFurther(codec, d);
  }

  lemma ReadFurther(codec: Codec, d: string)
    requires LineLength(d) < |d| && ReadLine(codec, d[..LineLength(d)]) == []
    requires PiecesSafe(codec, d[LineLength(d) + BreakLength(d, LineLength(d))..])
    ensures AllLineSafe(codec, ReadLines(codec, SplitLines(d)))
  {
    var n := LineLength(d);
    var i := n + BreakLength(d, n);
    SplitOff(d);
    ReadFirstLine(codec, d[..n], SplitLines(d[i..]));
    ReadPieces(codec, d[i..]);
  }

  /** Whatever was written, every message read back fits on its line. */
  lemma {:induction false} ReadIsLineSafe(codec: Codec, ms: History)
    requires codec.Lawful()
    ensures AllLineSafe(codec, ReadText(codec, Some(Payload(codec, ms))))
  {
    if ms != [] {
      var d, rest := codec.dumps(ms[0]), Payload(codec, ms[1..]);
      RenderOnlyUnescaped(codec.tokens(ms[0]));
      SplitDocument(d, rest);
      assert Payload(codec, ms) == d + ("\n" + rest);
      ReadLinesConcat(codec, SplitLines(d), SplitLines(rest));
      ReadDocument(codec, ms[0]);
      ReadIsLineSafe(codec, ms[1..]);
    }
  }

  /** Reading undoes writing exactly for the histories whose messages all fit on their lines. */
  lemma ReadUndoesWriteExactly(codec: Codec, ms: History)
    requires codec.Lawful()
    ensures ReadText(codec, Some(Payload(codec, ms))) == ms <==> AllLineSafe(codec, ms)
  {
    ReadIsLineSafe(codec, ms);
    if AllLineSafe(codec, ms) { ReadUndoesWrite(codec, ms); }
  }

  lemma NoBreakPrefix(d: string, p: string, n: nat)
    requires d <= p && n <= |p| && NoBreak(p[..n])
    ensures n >= |d| ==> NoBreak(d)
  {
    assert forall i :: 0 <= i < n && i < |d| ==> d[i] == p[..n][i];
  }

  /** A message with one of the three breaks is torn: its first line is lost to the reader. */
  lemma UnsafeMessageTorn(codec: Codec, m: Message)
    requires codec.Lawful() && !codec.LineSafe(m)
    ensures var lines := SplitLines(Payload(codec, [m]));
            lines != [] && lines[0] != codec.dumps(m) && ReadLine(codec, lines[0]) == []
  {
    DumpsBreaksExactly(codec, m);
    var d := codec.dumps(m);
    var p := Payload(codec, [m]);
    assert [m][1..] == [] && p == d + "\n" + Payload(codec, []) == d + "\n";
    var n := LineLength(p);
    NoBreakPrefix(d, p, n);
    assert p[..n] == d[..n];
    TornLineSkipped(codec, m, n);
  }

  // ---------- the order of file steps ----------

  /** The directory as the reader sees it: the real file and the writer's own temporary one. */
  datatype Disk = Disk(file: Option<string>, tmp: Option<string>)

  datatype Step =
    | CreateTemp
    | WriteTemp(n: nat)     // `n` characters of the payload have reached the temporary file
    | Replace               // after flush and fsync
    | Unlink                // the cleanup when a step fails

  /** What each step does; `Replace` is only reached once the payload has been written and synced. */
  predicate Next(payload: string, d: Disk, step: Step, d': Disk) {
    match step
    case CreateTemp => d' == d.(tmp := Some(""))
    case WriteTemp(n) => d.tmp.Some? && n <= |payload| && d' == d.(tmp := Some(payload[..n]))
    case Replace => d.tmp == Some(payload) && d' == Disk(d.tmp, None)
    case Unlink => d' == d.(tmp := None)
  }

  /** The disk before the write and after each step carried out. */
  predicate Trace(payload: string, steps: seq<Step>, disks: seq<Disk>) {
    && |disks| == |steps| + 1
    && forall i :: 0 <= i < |steps| ==> Next(payload, disks[i], steps[i], disks[i + 1])
  }

  /** The file is the new one once it has been replaced, and the old one before. */
  lemma {:induction false} FileOldOrNew(payload: string, steps: seq<Step>, disks: seq<Disk>, i: nat)
    requires Trace(payload, steps, disks) && i <= |steps|
    ensures disks[i].file == if Replace in steps[..i] then Some(payload) else disks[0].file
  {
    if i > 0 {
      FileOldOrNew(payload, steps, disks, i - 1);
      assert Next(payload, disks[i - 1], steps[i - 1], disks[i]);
      assert steps[..i] == steps[..i - 1] + [steps[i - 1]];
    }
  }

  /** A write that nothing interrupts replaces the file and leaves no temporary one. */
  lemma WriteCompletes(payload: string, before: Disk)
    ensures Trace(payload, [CreateTemp, WriteTemp(|payload|), Replace],
                  [before, before.(tmp := Some("")), before.(tmp := Some(payload)), Disk(Some(payload), None)])
  {
    assert payload[..|payload|] == payload;
  }

  /** Interrupted after any number of steps, a write leaves the old history, or the new one once it has replaced it. */
  lemma InterruptedWrite(codec: Codec, ms: History, steps: seq<Step>, disks: seq<Disk>, i: nat)
    requires codec.Lawful() && AllLineSafe(codec, ms)
    requires Trace(Payload(codec, ms), steps, disks) && i <= |steps|
    ensures ReadText(codec, disks[i].file) == if Replace in steps[..i] then ms else ReadText(codec, disks[0].file)
  {
    FileOldOrNew(Payload(codec, ms), steps, disks, i);
    ReadUndoesWrite(codec, ms);
  }
}
