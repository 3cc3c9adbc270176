/** Splitting a byte stream into lines and back (net/protocol/text.go). A byte is a char here. */
module Lines {
  import opened Common

  function IndexFrom(s: string, c: char, i: nat): (r: int)
    requires i <= |s|
    ensures r == -1 || i <= r < |s|
    ensures r < 0 ==> forall k | i <= k < |s| :: s[k] != c
    ensures r >= 0 ==> s[r] == c && forall k | i <= k < r :: s[k] != c
    decreases |s| - i
  {
    if i == |s| then -1 else if s[i] == c then i else IndexFrom(s, c, i + 1)
  }

  /** bytes.IndexByte. */
  function IndexByte(s: string, c: char): (r: int)
    ensures -1 <= r < |s|
    ensures r < 0 <==> c !in s
    ensures r >= 0 ==> s[r] == c && forall k | 0 <= k < r :: s[k] != c
  {
    IndexFrom(s, c, 0)
  }

  function TrimCarriageReturn(line: string): string {
    if line != "" && line[|line| - 1] == '\r' then line[..|line| - 1] else line
  }

  /** The lines that a newline has ended, each without its newline and one trailing carriage return. */
  function CompleteLines(s: string): seq<string> {
    if s == "" then []
    else
      var (before, c) := (s[..|s| - 1], s[|s| - 1]);
      if c == '\n' then CompleteLines(before) + [TrimCarriageReturn(Remainder(before))] else CompleteLines(before)
  }

  /** The bytes after the last newline. */
  function Remainder(s: string): string {
    if s == "" then ""
    else
      var (before, c) := (s[..|s| - 1], s[|s| - 1]);
      if c == '\n' then "" else Remainder(before) + [c]
  }

  function LastLine(remainder: string): seq<string> {
    if remainder == "" then [] else [TrimCarriageReturn(remainder)]
  }

  /** The lines of a whole stream: a non-empty remainder counts as a last line. */
  function LinesOf(s: string): seq<string> {
    CompleteLines(s) + LastLine(Remainder(s))
  }

  lemma ConcatAssociates<T>(a: seq<T>, b: seq<T>, c: seq<T>)
    ensures a + (b + c) == (a + b) + c
  {
  }

  lemma {:induction false} WithoutNewline(s: string)
    requires '\n' !in s
    ensures CompleteLines(s) == [] && Remainder(s) == s
  {
    if s != "" {
      WithoutNewline(s[..|s| - 1]);
    }
  }

  lemma {:induction false} RemainderHasNoNewline(s: string)
    ensures '\n' !in Remainder(s)
  {
    if s != "" {
      RemainderHasNoNewline(s[..|s| - 1]);
    }
  }

  /** One more byte completes the remainder as a line, or joins it. */
  lemma OneMoreByte(s: string, c: char)
    ensures CompleteLines(s + [c]) == CompleteLines(s) + if c == '\n' then [TrimCarriageReturn(Remainder(s))] else []
    ensures Remainder(s + [c]) == if c == '\n' then "" else Remainder(s) + [c]
  {
    assert (s + [c])[..|s|] == s;
  }

  /** More bytes only ever extend the remainder: this is what makes the cutting into chunks invisible. */
  lemma {:induction false} AppendExtendsRemainder(s: string, t: string)
    ensures CompleteLines(s + t) == CompleteLines(s) + CompleteLines(Remainder(s) + t)
    ensures Remainder(s + t) == Remainder(Remainder(s) + t)
  {
    hide CompleteLines, Remainder, TrimCarriageReturn;
    var r := Remainder(s);
    if t == "" {
      RemainderHasNoNewline(s);
      WithoutNewline(r);
      assert s + t == s && r + t == r;
    } else {
      var (u, c) := (t[..|t| - 1], t[|t| - 1]);
      AppendExtendsRemainder(s, u);
      OneMoreByte(s + u, c);
      OneMoreByte(r + u, c);
      assert t == u + [c];
      ConcatAssociates(s, u, [c]);
      ConcatAssociates(r, u, [c]);
    }
  }

  lemma CompleteLinesGrow(s: string, t: string)
    requires s <= t
    ensures CompleteLines(s) <= CompleteLines(t) <= LinesOf(t)
  {
    assert t == s + t[|s|..];
    AppendExtendsRemainder(s, t[|s|..]);
  }

  /** A stream that starts with a newline-free line. */
  lemma FirstLine(line: string, rest: string)
    requires '\n' !in line
    ensures CompleteLines(line + "\n" + rest) == [TrimCarriageReturn(line)] + CompleteLines(rest)
    ensures Remainder(line + "\n" + rest) == Remainder(rest)
    ensures LinesOf(line + "\n" + rest) == [TrimCarriageReturn(line)] + LinesOf(rest)
  {
    var head := line + "\n";
    assert head[..|head| - 1] == line;
    WithoutNewline(line);
    AppendExtendsRemainder(head, rest);
    assert Remainder(head) + rest == rest;
    ConcatAssociates([TrimCarriageReturn(line)], CompleteLines(rest), LastLine(Remainder(rest)));
  }

  lemma {:induction false} NoLineHoldsANewline(s: string)
    ensures forall line | line in CompleteLines(s) :: '\n' !in line
    ensures forall line | line in LinesOf(s) :: '\n' !in line
  {
    RemainderHasNoNewline(s);
    if s != "" {
      NoLineHoldsANewline(s[..|s| - 1]);
      RemainderHasNoNewline(s[..|s| - 1]);
    }
  }

  // ---------- Marshal ----------

  predicate EndsWith(s: string, c: char) {
    s != "" && s[|s| - 1] == c
  }

  function Terminated(message: string): string {
    if EndsWith(message, '\n') then message else message + "\n"
  }

  ghost function Marshalled(data: seq<string>): string {
    if data == [] then "" else Terminated(data[0]) + Marshalled(data[1..])
  }

  lemma MarshalledStep(result: string, data: seq<string>, i: nat)
    requires i < |data|
    ensures result + Marshalled(data[i..]) == (result + Terminated(data[i])) + Marshalled(data[i + 1..])
  {
    assert data[i..][1..] == data[i + 1..];
    ConcatAssociates(result, Terminated(data[i]), Marshalled(data[i + 1..]));
  }

  /** The context is live for the first `live` looks at it and done from then on. */
  method Marshal(live: nat, data: seq<string>) returns (r: Option<string>)
    ensures r == if live <= |data| then None else Some(Marshalled(data))
  {
    if live == 0 {
      return None;
    }
    var result := "";
    ghost var todo := Marshalled(data);
    assert data[0..] == data;
    for i := 0 to |data|
      invariant i < live
      invariant todo == Marshalled(data[i..]) && result + todo == Marshalled(data)
    {
      if i + 1 >= live {
        return None;
      }
      MarshalledStep(result, data, i);
      ghost var grown := result + Terminated(data[i]);
      todo := Marshalled(data[i + 1..]);
      result := result + data[i];
      if !EndsWith(data[i], '\n') {
        result := result + "\n";
      }
      assert result == grown;
    }
    assert todo == "" && result + todo == result;
    return Some(result);
  }

  /** A message that reading gives back as it was: no newline in it, no carriage return at its end. */
  predicate Clean(message: string) {
    '\n' !in message && !EndsWith(message, '\r')
  }

  function TrimEach(data: seq<string>): seq<string> {
    seq(|data|, i requires 0 <= i < |data| => TrimCarriageReturn(data[i]))
  }

  lemma {:induction false} LinesOfMarshalled(data: seq<string>)
    requires forall m | m in data :: '\n' !in m
    ensures LinesOf(Marshalled(data)) == TrimEach(data)
  {
    if data == [] {
      assert TrimEach(data) == [];
    } else {
      var m := data[0];
      assert m in data;
      assert Marshalled(data) == m + "\n" + Marshalled(data[1..]);
      FirstLine(m, Marshalled(data[1..]));
      LinesOfMarshalled(data[1..]);
      assert TrimEach(data) == [TrimCarriageReturn(m)] + TrimEach(data[1..]);
    }
  }

  lemma TrimEachKeeps(data: seq<string>)
    ensures TrimEach(data) == data <==> forall m | m in data :: !EndsWith(m, '\r')
  {
    if TrimEach(data) == data {
      forall i | 0 <= i < |data|
        ensures !EndsWith(data[i], '\r')
      {
        assert TrimEach(data)[i] == data[i];
      }
    } else {
      var i :| 0 <= i < |data| && TrimEach(data)[i] != data[i];
      assert data[i] in data;
    }
  }

  /** Reading what was marshalled gives the messages back exactly when all of them are clean. */
  lemma RoundTrip(data: seq<string>)
    ensures LinesOf(Marshalled(data)) == data <==> forall m | m in data :: Clean(m)
  {
    if LinesOf(Marshalled(data)) == data {
      NoLineHoldsANewline(Marshalled(data));
    }
    if forall m | m in data :: '\n' !in m {
      LinesOfMarshalled(data);
      TrimEachKeeps(data);
    }
  }

  // ---------- What a stream of lines looks like ----------

  /** Each line with its ending. */
  ghost function Joined(lines: seq<string>, endings: seq<string>): string
    requires |lines| == |endings|
  {
    if lines == [] then ""
    else Joined(lines[..|lines| - 1], endings[..|endings| - 1]) + lines[|lines| - 1] + endings[|endings| - 1]
  }

  lemma JoinedMore(lines: seq<string>, endings: seq<string>, line: string, ending: string)
    requires |lines| == |endings|
    ensures Joined(lines + [line], endings + [ending]) == Joined(lines, endings) + line + ending
  {
    assert (lines + [line])[..|lines|] == lines && (endings + [ending])[..|endings|] == endings;
  }

  /** A carriage return at the end of a line always belongs to the ending, if the line has one left it had two. */
  predicate EndedBy(line: string, ending: string) {
    ending == "\r\n" || (ending == "\n" && !EndsWith(line, '\r'))
  }

  /** All of a remainder but one carriage return at its end. */
  predicate CutOffBy(line: string, ending: string) {
    line + ending != "" && (ending == "\r" || (ending == "" && !EndsWith(line, '\r')))
  }

  ghost predicate AllEnded(lines: seq<string>, endings: seq<string>) {
    |lines| == |endings| && forall i | 0 <= i < |lines| :: '\n' !in lines[i] && EndedBy(lines[i], endings[i])
  }

  lemma TrimmedAndEnding(line: string) returns (ending: string)
    ensures line == TrimCarriageReturn(line) + ending && (ending == "" || ending == "\r")
    ensures ending == "" ==> !EndsWith(TrimCarriageReturn(line), '\r')
    ensures EndedBy(TrimCarriageReturn(line), ending + "\n")
  {
    ending := if EndsWith(line, '\r') then "\r" else "";
    assert "\r" + "\n" == "\r\n" && "" + "\n" == "\n";
  }

  lemma OneMoreEnded(s: string, lines: seq<string>, endings: seq<string>, line: string, ending: string)
    requires AllEnded(lines, endings) && s == Joined(lines, endings) + (line + ending)
    requires '\n' !in line && EndedBy(line, ending + "\n")
    ensures AllEnded(lines + [line], endings + [ending + "\n"])
    ensures s + "\n" == Joined(lines + [line], endings + [ending + "\n"])
  {
    hide EndedBy, Joined;
    JoinedMore(lines, endings, line, ending + "\n");
    assert Joined(lines, endings) + line + (ending + "\n") == Joined(lines, endings) + (line + ending) + "\n";
  }

  lemma {:induction false} CompleteLinesLoseEndings(s: string) returns (endings: seq<string>)
    ensures AllEnded(CompleteLines(s), endings) && s == Joined(CompleteLines(s), endings) + Remainder(s)
  {
    hide TrimCarriageReturn, EndedBy, Joined, CompleteLines, Remainder;
    if s == "" {
      NothingEnded();
      return [];
    }
    var (before, c) := (s[..|s| - 1], s[|s| - 1]);
    assert s == before + [c];
    endings := CompleteLinesLoseEndings(before);
    OneMoreByte(before, c);
    if c == '\n' {
      var line := Remainder(before);
      var ending := TrimmedAndEnding(line);
      RemainderHasNoNewline(before);
      OneMoreEnded(before, CompleteLines(before), endings, TrimCarriageReturn(line), ending);
      endings := endings + [ending + "\n"];
    } else {
      var lines := CompleteLines(before);
      assert lines + [] == lines;
      assert s == Joined(lines, endings) + (Remainder(before) + [c]);
    }
  }

  lemma NothingEnded()
    ensures AllEnded(CompleteLines(""), []) && "" == Joined(CompleteLines(""), []) + Remainder("")
  {
  }

  /** Reading loses nothing but the endings: the stream is its lines, each followed by a newline or a carriage return
      and a newline, the last perhaps cut off, and no line but those that had two keeps a carriage return. */
  lemma OnlyEndingsAreLost(s: string) returns (endings: seq<string>, last: seq<string>, ending: string)
    ensures LinesOf(s) == CompleteLines(s) + last && AllEnded(CompleteLines(s), endings)
    ensures if last == [] then s == Joined(LinesOf(s), endings)
            else |last| == 1 && '\n' !in last[0] && CutOffBy(last[0], ending)
                 && s == Joined(LinesOf(s), endings + [ending])
  {
    endings := CompleteLinesLoseEndings(s);
    RemainderHasNoNewline(s);
    last := LastLine(Remainder(s));
    ending := TrimmedAndEnding(Remainder(s));
    if last == [] {
      assert CompleteLines(s) + [] == CompleteLines(s);
    } else {
      JoinedMore(CompleteLines(s), endings, last[0], ending);
    }
  }

  lemma ComesBack(line: string, ending: string, rest: string)
    requires '\n' !in line && EndedBy(line, ending)
    ensures LinesOf(line + ending + rest) == [line] + LinesOf(rest)
  {
    if ending == "\r\n" {
      assert line + ending + rest == (line + "\r") + "\n" + rest;
      FirstLine(line + "\r", rest);
    } else {
      FirstLine(line, rest);
    }
  }

  /** Each message followed by a carriage return and a newline. */
  ghost function WithCrlf(data: seq<string>): string {
    if data == [] then "" else data[0] + "\r\n" + WithCrlf(data[1..])
  }

  /** Lines ended that way come back exactly when they hold no newline, whatever carriage returns they hold. */
  lemma CrlfRoundTrip(data: seq<string>)
    ensures LinesOf(WithCrlf(data)) == data <==> forall m | m in data :: '\n' !in m
  {
    if forall m | m in data :: '\n' !in m {
      CrlfComesBack(data);
    }
    if LinesOf(WithCrlf(data)) == data {
      NoLineHoldsANewline(WithCrlf(data));
    }
  }

  lemma {:induction false} CrlfComesBack(data: seq<string>)
    requires forall m | m in data :: '\n' !in m
    ensures LinesOf(WithCrlf(data)) == data
  {
    if data != [] {
      assert data[0] in data;
      ComesBack(data[0], "\r\n", WithCrlf(data[1..]));
      CrlfComesBack(data[1..]);
      assert data == [data[0]] + data[1..];
    }
  }

  // ---------- The splitting goroutine on its own ----------

  function UpTo<T>(s: seq<T>, limit: nat): seq<T> {
    if limit < |s| then s[..limit] else s
  }

  /** `sent` has gone out of the lines of `all`, and `pending` and `later` hold the rest. */
  ghost predicate OnTheWay(all: string, sent: seq<string>, pending: string, later: string) {
    sent + LinesOf(pending + later) == LinesOf(all)
  }

  lemma SendLine(all: string, sent: seq<string>, pending: string, later: string)
    requires '\n' in pending && OnTheWay(all, sent, pending, later)
    ensures var i := IndexByte(pending, '\n');
            OnTheWay(all, sent + [TrimCarriageReturn(pending[..i])], pending[i + 1..], later)
  {
    var i := IndexByte(pending, '\n');
    var (line, rest) := (pending[..i], pending[i + 1..] + later);
    assert pending + later == line + "\n" + rest;
    FirstLine(line, rest);
    ConcatAssociates(sent, [TrimCarriageReturn(line)], LinesOf(rest));
  }

  lemma TakeChunk(all: string, sent: seq<string>, pending: string, chunks: seq<string>, c: nat)
    requires c < |chunks| && OnTheWay(all, sent, pending, Flatten(chunks[c..]))
    ensures OnTheWay(all, sent, pending + chunks[c], Flatten(chunks[c + 1..]))
  {
    assert chunks[c..][1..] == chunks[c + 1..];
    ConcatAssociates(pending, chunks[c], Flatten(chunks[c + 1..]));
  }

  lemma NothingSentYet(chunks: seq<string>)
    ensures OnTheWay(Flatten(chunks), [], "", Flatten(chunks[0..]))
  {
    assert chunks[0..] == chunks && "" + Flatten(chunks) == Flatten(chunks);
  }

  lemma OnlyLastLineLeft(all: string, sent: seq<string>, pending: string, chunks: seq<string>)
    requires '\n' !in pending && OnTheWay(all, sent, pending, Flatten(chunks[|chunks|..]))
    ensures LinesOf(all) == sent + LastLine(pending)
  {
    assert pending + Flatten(chunks[|chunks|..]) == pending;
    WithoutNewline(pending);
  }

  /** The inner loop of Read's goroutine: send every line `pending` completes, as far as the context allows. */
  method SendCompleteLines(ghost all: string, ghost later: string, limit: nat, sent0: seq<string>, pending0: string)
    returns (sent: seq<string>, pending: string, refused: bool)
    requires OnTheWay(all, sent0, pending0, later) && |sent0| <= limit
    ensures OnTheWay(all, sent, pending, later) && |sent| <= limit
    ensures refused ==> sent == UpTo(LinesOf(all), limit)
    ensures !refused ==> '\n' !in pending
  {
    sent, pending, refused := sent0, pending0, false;
    while true
      invariant OnTheWay(all, sent, pending, later) && |sent| <= limit && !refused
      decreases |pending|
    {
      var idx := IndexByte(pending, '\n');
      if idx < 0 {
        break;
      }
      SendLine(all, sent, pending, later);
      var line := TrimCarriageReturn(pending[..idx]);
      if |sent| == limit {
        refused := true;
        assert sent + [line] <= LinesOf(all);
        return;
      }
      sent := sent + [line];
      pending := pending[idx + 1..];
    }
  }

  /** The body of Read's goroutine. The context lets `limit` sends through and refuses the next. Whatever
      the chunks, the lines sent are those of the concatenation, up to the refused one. */
  method SplitChunks(chunks: seq<string>, limit: nat) returns (sent: seq<string>)
    ensures sent == UpTo(LinesOf(Flatten(chunks)), limit)
    ensures forall data | WithCrlf(data) == Flatten(chunks) && (forall m | m in data :: '\n' !in m) ::
              sent == UpTo(data, limit)
  {
    forall data | WithCrlf(data) == Flatten(chunks) && (forall m | m in data :: '\n' !in m)
      ensures LinesOf(Flatten(chunks)) == data
    {
      CrlfRoundTrip(data);
    }
    sent := [];
    var pending := "";
    ghost var all := Flatten(chunks);
    NothingSentYet(chunks);
    for c := 0 to |chunks|
      invariant OnTheWay(all, sent, pending, Flatten(chunks[c..])) && |sent| <= limit
      invariant '\n' !in pending
    {
      TakeChunk(all, sent, pending, chunks, c);
      pending := pending + chunks[c];
      var refused: bool;
      sent, pending, refused := SendCompleteLines(all, Flatten(chunks[c + 1..]), limit, sent, pending);
      if refused {
        return;
      }
    }
    OnlyLastLineLeft(all, sent, pending, chunks);
    if |pending| > 0 {
      var line := TrimCarriageReturn(pending);
      if |sent| < limit {
        sent := sent + [line];
      }
    }
  }
}
