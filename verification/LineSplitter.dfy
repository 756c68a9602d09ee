/** Reading a streamed response: complete lines are handed to an extractor as they arrive, and what
    is shown at the end does not depend on how the body was cut into chunks. */
module LineSplitter {
  import opened Results
  import opened Text

  /** What the reader needs to know of the wire format: the text in one line, the error frame in a
      body, the response that a body is parsed into, and whether that has a stop reason. */
  datatype Format<!R, !E> = Format(
    lineText: string -> Option<string>, errorFrame: string -> Option<E>,
    parse: string -> R, stopped: R -> bool)

  datatype Chunk = Bytes(text: string) | ReadError

  datatype Failure<E> = Interrupted | ErrorFrame(frame: E) | Truncated

  function TextOf<R, E>(f: Format<R, E>, line: string): string {
    match f.lineText(line)
    case Some(t) => t
    case None => ""
  }

  function Join(parts: seq<string>): string {
    if parts == [] then "" else Join(parts[..|parts| - 1]) + parts[|parts| - 1]
  }

  /** Joining is concatenation. */
  lemma {:induction false} JoinConcat(a: seq<string>, b: seq<string>)
    ensures Join(a + b) == Join(a) + Join(b)
    ensures |b| == 1 ==> Join(b) == b[0]
    decreases |b|
  {
    if b == [] {
      assert a + b == a;
    } else {
      var n := |b| - 1;
      assert (a + b)[..|a| + n] == a + b[..n];
      JoinConcat(a, b[..n]);
      assert |b| == 1 ==> Join(b[..n]) == "";
    }
  }

  /** The position of the first newline, or the length. */
  function FirstNewline(s: string): (n: nat)
    ensures n <= |s| && (n < |s| ==> s[n] == '\n') && '\n' !in s[..n]
  {
    if s == "" || s[0] == '\n' then 0 else
    var n := 1 + FirstNewline(s[1..]);
    assert s[..n] == [s[0]] + s[1..][..n - 1];
    n
  }

  /** The first complete line with its newline, and what follows it. */
  function CutLine(s: string): (r: Option<(string, string)>)
    ensures r.Some? ==> |r.value.1| < |s|
  {
    var n := FirstNewline(s);
    if n == |s| then None else Some((s[..n + 1], s[n + 1..]))
  }

  /** The text of the complete lines of `s`. */
  function LinesText<R, E>(f: Format<R, E>, s: string): string
    decreases |s|
  {
    match CutLine(s)
    case None => ""
    case Some((line, tail)) => TextOf(f, line) + LinesText(f, tail)
  }

  /** What follows the last newline of `s`. */
  function Rest(s: string): string
    decreases |s|
  {
    match CutLine(s)
    case None => s
    case Some((_, tail)) => Rest(tail)
  }

  lemma {:induction false} RestHasNoNewline(s: string)
    ensures '\n' !in Rest(s)
    decreases |s|
  {
    if CutLine(s).Some? {
      var (line, tail) := CutLine(s).value;
      RestHasNoNewline(tail);
    } else {
      assert s[..|s|] == s;
    }
  }

  /** The text of the whole body, counting a last line without newline unless it is blank. */
  function BodyText<R, E>(f: Format<R, E>, body: string): string {
    LinesText(f, body) + if Trim(Rest(body)) == "" then "" else TextOf(f, Rest(body))
  }

  lemma {:induction false} NewlineOfConcat(a: string, b: string)
    requires FirstNewline(a) < |a|
    ensures FirstNewline(a + b) == FirstNewline(a)
  {
    if a[0] != '\n' {
      assert (a + b)[0] == a[0];
      assert (a + b)[1..] == a[1..] + b;
      NewlineOfConcat(a[1..], b);
    }
  }

  lemma CutOfConcat(a: string, b: string)
    requires CutLine(a).Some?
    ensures var (line, tail) := CutLine(a).value; CutLine(a + b) == Some((line, tail + b))
  {
    var n := FirstNewline(a);
    NewlineOfConcat(a, b);
    assert (a + b)[..n + 1] == a[..n + 1];
    assert (a + b)[n + 1..] == a[n + 1..] + b;
  }

  lemma JoinLine(line: string, a: string, b: string)
    ensures line + (a + b) == (line + a) + b
  {
  }

  /** The lines of a text that grows at the end: finished lines stay, the rest goes on. */
  lemma {:induction false} LinesOfConcat<R, E>(f: Format<R, E>, a: string, b: string)
    ensures LinesText(f, a + b) == LinesText(f, a) + LinesText(f, Rest(a) + b)
    ensures Rest(a + b) == Rest(Rest(a) + b)
    decreases |a|
  {
    hide CutLine, TextOf;
    if CutLine(a).Some? {
      var (line, tail) := CutLine(a).value;
      CutOfConcat(a, b);
      LinesOfConcat(f, tail, b);
      JoinLine(TextOf(f, line), LinesText(f, tail), LinesText(f, Rest(tail) + b));
    }
  }

  /** The texts of the chunks, one by one. */
  function Texts(chunks: seq<Chunk>): (r: seq<string>)
    requires ReadError !in chunks
    ensures |r| == |chunks| && forall k :: 0 <= k < |chunks| ==> r[k] == chunks[k].text
  {
    if chunks == [] then [] else Texts(chunks[..|chunks| - 1]) + [chunks[|chunks| - 1].text]
  }

  /** The body that was received, if no read failed. */
  function Body(chunks: seq<Chunk>): Option<string> {
    if ReadError in chunks then None else Some(Join(Texts(chunks)))
  }

  /** The outcome of an attempt as a function of the body alone. */
  function Outcome<R, E>(f: Format<R, E>, body: Option<string>): Result<R, Failure<E>> {
    match body
    case None => Err(Interrupted)
    case Some(b) =>
      if f.errorFrame(b).Some? then Err(ErrorFrame(f.errorFrame(b).value))
      else if !f.stopped(f.parse(b)) then Err(Truncated)
      else Ok(f.parse(b))
  }

  /** Hands every complete line in `pending` to the extractor and keeps what follows the last. */
  method DrainLines<R, E>(f: Format<R, E>, arrived: string) returns (deltas: string, pending: string)
    ensures deltas == LinesText(f, arrived) && pending == Rest(arrived)
  {
    hide TextOf;
    deltas, pending := "", arrived;
    var nl := FirstNewline(pending);
    while nl < |pending|
      invariant nl == FirstNewline(pending)
      invariant deltas + LinesText(f, pending) == LinesText(f, arrived)
      invariant Rest(pending) == Rest(arrived)
      decreases |pending|
    {
      var line := pending[..nl + 1];
      JoinLine(deltas, TextOf(f, line), LinesText(f, pending[nl + 1..]));
      pending := pending[nl + 1..];
      deltas := deltas + TextOf(f, line);
      nl := FirstNewline(pending);
    }
    assert deltas + "" == deltas;
  }

  lemma OneMoreChunk(chunks: seq<Chunk>, i: nat)
    requires i < |chunks| && ReadError !in chunks[..i] && chunks[i].Bytes?
    ensures ReadError !in chunks[..i + 1]
    ensures Join(Texts(chunks[..i + 1])) == Join(Texts(chunks[..i])) + chunks[i].text
  {
    assert chunks[..i + 1] == chunks[..i] + [chunks[i]] && chunks[..i + 1][..i] == chunks[..i];
    var texts := Texts(chunks[..i + 1]);
    assert texts[..|texts| - 1] == Texts(chunks[..i]);
  }

  /** Reads the chunks of one attempt. The outcome is a function of the body, so it does not depend
      on how the body was cut. `shown` is what the user interface was given: the buffered
      text of a complete, valid response, and nothing otherwise. */
  method ReadAttempt<R, E>(f: Format<R, E>, chunks: seq<Chunk>) returns (r: Result<R, Failure<E>>, shown: string)
    ensures r == Outcome(f, Body(chunks))
    ensures r == Err(Interrupted) <==> ReadError in chunks
    ensures ReadError !in chunks ==>
              var body := Join(Texts(chunks));
              && (r.Ok? <==> f.errorFrame(body).None? && f.stopped(f.parse(body)))
              && (r.Ok? ==> r.value == f.parse(body) && shown == BodyText(f, body))
              && (r == Err(Truncated) <==> f.errorFrame(body).None? && !f.stopped(f.parse(body)))
              && (forall frame :: r == Err(ErrorFrame(frame)) <==> f.errorFrame(body) == Some(frame))
    ensures r.Err? ==> shown == ""
  {
    hide Rest, LinesText, Trim, Join, Texts, TextOf;
    var body, pending, deltas := "", "", "";
    Nothing(f);
    for i := 0 to |chunks|
      invariant ReadError !in chunks[..i]
      invariant body == Join(Texts(chunks[..i]))
      invariant '\n' !in pending
      invariant deltas == LinesText(f, body) && pending == Rest(body)
    {
      if chunks[i].ReadError? { return Err(Interrupted), ""; }
      OneMoreChunk(chunks, i);
      LinesOfConcat(f, body, chunks[i].text);
      RestHasNoNewline(body + chunks[i].text);
      body := body + chunks[i].text;
      pending := pending + chunks[i].text;
      var more, rest := DrainLines(f, pending);
      deltas, pending := deltas + more, rest;
    }
    assert chunks[..|chunks|] == chunks;
    if Trim(pending) != "" {
      deltas := deltas + TextOf(f, pending);
    } else {
      assert deltas + "" == deltas;
    }
    var frame := f.errorFrame(body);
    if frame.Some? { return Err(ErrorFrame(frame.value)), ""; }
    var response := f.parse(body);
    if !f.stopped(response) { return Err(Truncated), ""; }
    return Ok(response), deltas;
  }

  lemma Nothing<R, E>(f: Format<R, E>)
    ensures LinesText(f, "") == "" && Rest("") == "" && Join(Texts([])) == ""
  {
  }

  // ---------- The text of a body, line by line ----------

  /** The lines of a body, each but the last ending in its only newline. */
  function SplitLines(s: string): (lines: seq<string>)
    ensures |lines| > 0
    decreases |s|
  {
    match CutLine(s)
    case None => [s]
    case Some((line, tail)) => [line] + SplitLines(tail)
  }

  /** What the extractor finds in the lines, in order; a line may have no text. */
  function TextOfAll<R, E>(f: Format<R, E>, lines: seq<string>): string {
    if lines == [] then ""
    else (if f.lineText(lines[0]).Some? then f.lineText(lines[0]).value else "") + TextOfAll(f, lines[1..])
  }

  predicate IsLine(line: string) {
    |line| > 0 && line[|line| - 1] == '\n' && '\n' !in line[..|line| - 1]
  }

  function JoinLines(lines: seq<string>): string {
    if lines == [] then "" else lines[0] + JoinLines(lines[1..])
  }

  lemma CutMeaning(s: string)
    ensures match CutLine(s)
            case None => '\n' !in s
            case Some((line, tail)) => line + tail == s && IsLine(line)
  {
    var n := FirstNewline(s);
    if n < |s| {
      assert s[..n + 1][..n] == s[..n];
    } else {
      assert s[..n] == s;
    }
  }

  lemma JoinCons(line: string, lines: seq<string>)
    ensures JoinLines([line] + lines) == line + JoinLines(lines)
  {
    assert ([line] + lines)[1..] == lines;
  }

  lemma TextCons<R, E>(f: Format<R, E>, line: string, lines: seq<string>)
    ensures TextOfAll(f, [line] + lines) == TextOf(f, line) + TextOfAll(f, lines)
  {
    assert ([line] + lines)[0] == line && ([line] + lines)[1..] == lines;
  }

  lemma {:induction false} LinesTextIsLineByLine<R, E>(f: Format<R, E>, body: string)
    ensures var lines := SplitLines(body);
            && LinesText(f, body) == TextOfAll(f, lines[..|lines| - 1])
            && Rest(body) == lines[|lines| - 1]
    decreases |body|
  {
    hide CutLine, TextOf;
    if CutLine(body).Some? {
      var (line, tail) := CutLine(body).value;
      var rest := SplitLines(tail);
      LinesTextIsLineByLine(f, tail);
      TextCons(f, line, rest[..|rest| - 1]);
      assert ([line] + rest)[..|rest|] == [line] + rest[..|rest| - 1];
    }
  }

  lemma {:induction false} SplitLinesAreLines(body: string)
    ensures var lines := SplitLines(body);
            && JoinLines(lines) == body
            && (forall i :: 0 <= i < |lines| - 1 ==> IsLine(lines[i]))
            && '\n' !in lines[|lines| - 1]
    decreases |body|
  {
    CutMeaning(body);
    hide CutLine, IsLine;
    if CutLine(body).Some? {
      var (line, tail) := CutLine(body).value;
      SplitLinesAreLines(tail);
      JoinCons(line, SplitLines(tail));
    } else {
      JoinCons(body, []);
      assert [body] + [] == [body];
    }
  }

  /** The lines joined are the body; all but the last are complete lines, the last has no newline;
      and the body's text is the extractor mapped over the complete lines and a non-blank last one. */
  lemma BodyTextIsLineByLine<R, E>(f: Format<R, E>, body: string)
    ensures var lines := SplitLines(body);
            var n := |lines| - 1;
            && JoinLines(lines) == body
            && (forall i :: 0 <= i < n ==> IsLine(lines[i])) && '\n' !in lines[n]
            && BodyText(f, body) ==
               TextOfAll(f, lines[..n]) + if Blank(lines[n]) then "" else TextOfAll(f, [lines[n]])
  {
    var last := SplitLines(body)[|SplitLines(body)| - 1];
    var _, _ := TrimMeaning(last);
    TextCons(f, last, []);
    assert [last] + [] == [last];
    SplitLinesAreLines(body);
    LinesTextIsLineByLine(f, body);
    hide Trim, IsWhitespace, TextOf, SplitLines, LinesText, IsLine;
  }
}
