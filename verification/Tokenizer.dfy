/** The streaming tokenizer (tokenizer/state.go) over the peekable buffer. */
module Tokenizer {
  import opened Common
  import opened ByteStreams
  import opened TokenGrammar

  // ---------- Positions ----------

  datatype Position = Position(offset: nat, column: nat, line: nat)

  function Newlines(s: string): nat {
    if s == "" then 0 else Newlines(s[..|s| - 1]) + if s[|s| - 1] == '\n' then 1 else 0
  }

  /** Index of the last newline, or -1. */
  function LastNewline(s: string): (r: int)
    ensures -1 <= r < |s|
    ensures r >= 0 ==> s[r] == '\n'
    ensures forall i | r < i < |s| :: s[i] != '\n'
  {
    if s == "" then -1 else if s[|s| - 1] == '\n' then |s| - 1 else LastNewline(s[..|s| - 1])
  }

  /** Where a byte stands that comes right after s: bytes before it, bytes since the last newline, newlines before
      it. */
  function PositionAfter(s: string): Position {
    Position(|s|, |s| - 1 - LastNewline(s), 1 + Newlines(s))
  }

  lemma PositionAfterOneMore(s: string, c: char)
    ensures var p := PositionAfter(s);
            PositionAfter(s + [c]) == if c == '\n' then Position(p.offset + 1, 0, p.line + 1)
                                      else Position(p.offset + 1, p.column + 1, p.line)
  {
    assert (s + [c])[..|s|] == s;
  }

  // ---------- What there is to read ----------

  datatype Token = Token(tokenType: TokenType, position: Position, content: string)

  datatype Result = Tok(token: Token) | Fail(error: Error)

  /** The stream as the tokenizer sees it: what it has consumed, what is left, and the reader's error once a look
      has run into it, after which nothing more can be read. */
  datatype View = View(consumed: string, rest: string, sticky: Option<Error>)

  function Took(v: View, n: nat): View
    requires n <= |v.rest|
  {
    View(v.consumed + v.rest[..n], v.rest[n..], v.sticky)
  }

  lemma TookTook(v: View, m: nat, n: nat)
    requires m + n <= |v.rest|
    ensures Took(Took(v, m), n) == Took(v, m + n)
    ensures Took(v, m).rest[..n] == v.rest[m..m + n]
  {
    assert v.rest[..m + n] == v.rest[..m] + v.rest[m..][..n];
    assert v.consumed + v.rest[..m] + v.rest[m..][..n] == v.consumed + v.rest[..m + n];
  }

  /** The error a look at the next n bytes gives. */
  function PeekError(v: View, n: nat, end: End): Option<Error> {
    FillError(n, v.sticky, false, |v.rest|, end)
  }

  lemma NothingWrong(v: View, end: End)
    requires PeekError(v, 1, end).None?
    ensures v.rest != "" && v.sticky.None? && FillError(1, v.sticky, false, |v.rest|, end).None?
    ensures Took(v, 1) == View(v.consumed + [v.rest[0]], v.rest[1..], v.sticky)
  {
  }

  /** A look leaves the bytes alone; it may run into the reader's error. */
  function Looked(v: View, e: Option<Error>): View {
    if e.Some? && e.value.ReadError? then v.(sticky := e) else v
  }

  datatype Run = Digits | HexDigits | BinaryDigits | WordChars

  predicate InRun(c: char, run: Run) {
    match run
    case Digits => IsDigit(c)
    case HexDigits => IsHexDigit(c)
    case BinaryDigits => IsBinaryDigit(c)
    case WordChars => IsWordChar(c)
  }

  /** The first n bytes belong to the run and no more do. */
  ghost predicate IsRun(s: string, run: Run, n: nat) {
    n <= |s| && (forall i | 0 <= i < n :: InRun(s[i], run)) && (n < |s| ==> !InRun(s[n], run))
  }

  // ---------- What one call of Next must do ----------

  /** More input could still change the token, and the tokenizer notices: it looks past the end before deciding. */
  ghost predicate Undecided(s: string, t: TokenType, n: nat)
    requires n <= |s|
  {
    || (n == |s| && (t.Number? || t.Float? || t.HexDecimal? || t.Binary? || t.Word? || s == "-"))
    || (t.Number? && LoneZero(s, n) && |s| == n + 1)
  }

  predicate LoneZero(s: string, n: nat)
    requires n <= |s|
  {
    n == Sign(s) + 1 && s[n - 1] == '0'
  }

  ghost predicate Starved(s: string) {
    NoToken(s) || exists t, n: nat :: n <= |s| && LongestMatch(s, t, n) && Undecided(s, t, n)
  }

  /** A number followed by the stream's only other byte: the look for a fraction runs into the reader's error, which
      is dropped there but stays with the buffer. */
  predicate SwallowsError(s: string, t: TokenType, n: nat, end: End)
    requires n <= |s|
  {
    end.Failing? && t.Number? && |s| == n + 1
  }

  /** From a stream with bytes left: the longest match, at its exact position, or the one error the stream allows. */
  ghost predicate Parsed(v: View, end: End, after: View, r: Result) {
    match r
    case Tok(token) =>
      var n := |token.content|;
      && n <= |v.rest| && token.content == v.rest[..n]
      && LongestMatch(v.rest, token.tokenType, n)
      && token.position == PositionAfter(v.consumed)
      && (end.Failing? ==> !Undecided(v.rest, token.tokenType, n))
      && var swallowed := SwallowsError(v.rest, token.tokenType, n, end);
         after == Took(v, n).(sticky := if swallowed then Some(ReadError(end.code)) else None)
    case Fail(error) =>
      && v.consumed + v.rest == after.consumed + after.rest
      && if end.Failing? then error == ReadError(end.code) && Starved(v.rest)
         else error == UnknownToken && NoToken(v.rest)
  }

  /** One call of Next, whatever state it finds. */
  ghost predicate Nexted(v: View, end: End, after: View, r: Result) {
    if PeekError(v, 1, end).Some? then r == Fail(PeekError(v, 1, end).value) && after == Looked(v, PeekError(v, 1, end))
    else Parsed(v, end, after, r)
  }

  class State {
    const items: Peekable
    var err: Option<Error>
    var offset: nat
    var column: nat
    var line: nat
    ghost var consumed: string

    ghost function Footprint(): set<object?>
      reads this, items
    {
      {this} + items.Footprint()
    }

    /** The position fields describe the bytes consumed so far, and the buffer holds at most two bytes. */
    ghost predicate Valid()
      reads Footprint()
    {
      && this !in items.Footprint()
      && items.Valid() && items.source != null && items.count <= 2
      && Position(offset, column, line) == PositionAfter(consumed)
    }

    ghost function Now(): View
      requires Valid()
      reads Footprint()
    {
      View(consumed, items.Unconsumed(), items.err)
    }

    ghost function End(): End {
      items.End()
    }

    constructor (reader: Reader)
      ensures Valid() && fresh(items) && fresh(items.Footprint() - {reader})
      ensures err.None? && Now() == View("", old(reader.rest), None) && End() == reader.end
    {
      var bytes := new ReaderIterator(reader);
      items := new Peekable(bytes);
      err, offset, column, line, consumed := None, 0, 0, 1, "";
    }

    method Peek() returns (c: char, e: Option<Error>)
      requires Valid()
      modifies items.Footprint()
      ensures Valid() && fresh(Footprint() - old(Footprint()))
      ensures e == PeekError(old(Now()), 1, End()) && Now() == Looked(old(Now()), e)
      ensures e.None? ==> c == Now().rest[0]
    {
      c, e := items.Peek();
    }

    method Peek2() returns (first: char, second: char, e: Option<Error>)
      requires Valid()
      modifies items.Footprint()
      ensures Valid() && fresh(Footprint() - old(Footprint()))
      ensures e == PeekError(old(Now()), 2, End()) && Now() == Looked(old(Now()), e)
      ensures e.None? ==> first == Now().rest[0] && second == Now().rest[1]
    {
      first, second, e := items.Peek2();
    }

    method Read() returns (position: Position, c: char, e: Option<Error>)
      requires Valid()
      modifies Footprint()
      ensures Valid() && fresh(Footprint() - old(Footprint())) && err == old(err)
      ensures e == PeekError(old(Now()), 1, End())
      ensures Now() == if e.None? then Took(old(Now()), 1) else Looked(old(Now()), e)
      ensures position == PositionAfter(old(consumed))
      ensures e.None? ==> c == old(Now()).rest[0]
    {
      hide PositionAfter, Took, PeekError, Peekable.Valid, Peekable.Unconsumed;
      position := Position(offset, column, line);
      ghost var v := Now();
      c, e := Peek();
      if e.Some? {
        return position, '\0', e;
      }
      NothingWrong(v, End());
      e := items.ConsumeN(1);
      Advance(c);
    }

    method Advance(c: char)
      requires Position(offset, column, line) == PositionAfter(consumed)
      modifies this`offset, this`column, this`line, this`consumed
      ensures Position(offset, column, line) == PositionAfter(consumed) && consumed == old(consumed) + [c]
    {
      PositionAfterOneMore(consumed, c);
      consumed := consumed + [c];
      offset := offset + 1;
      if c == '\n' {
        line, column := line + 1, 0;
        return;
      }
      column := column + 1;
    }

    /** One pass of the loops that read on while the next byte belongs to a run. */
    method ReadIf(run: Run) returns (c: char, more: bool, e: Option<Error>)
      requires Valid() && Now().sticky.None?
      modifies Footprint()
      ensures Valid() && fresh(Footprint() - old(Footprint())) && err == old(err)
      ensures var v := old(Now());
              && more == (v.rest != "" && InRun(v.rest[0], run))
              && e == (if v.rest == "" && End().Failing? then Some(ReadError(End().code)) else None)
              && Now() == (if more then Took(v, 1) else Looked(v, e))
              && (more ==> c == v.rest[0])
    {
      hide Peekable.Valid, Peekable.Unconsumed;
      more := false;
      c, e := Peek();
      if e == Some(NotEnoughItems) {
        return c, false, None;
      }
      if e.Some? || !InRun(c, run) {
        return;
      }
      more := true;
      var position;
      position, c, e := Read();
    }

    /** The state after a run of n bytes was read, and the error that ended it, if one did. */
    ghost predicate RunRead(v: View, run: Run, n: nat, content0: string, content: string, e: Option<Error>,
                            after: View) {
      && IsRun(v.rest, run, n) && content == content0 + v.rest[..n]
      && e == (if n == |v.rest| && End().Failing? then Some(ReadError(End().code)) else None)
      && after == Looked(Took(v, n), e)
    }

    ghost predicate Reading(v: View, run: Run, n: nat, content0: string, content: string, now: View) {
      && n <= |v.rest| && (forall i | 0 <= i < n :: InRun(v.rest[i], run))
      && content == content0 + v.rest[..n] && now == Took(v, n)
    }

    lemma NothingRead(v: View, run: Run, content0: string)
      ensures Reading(v, run, 0, content0, content0, v)
    {
    }

    lemma ReadOneMore(v: View, run: Run, n: nat, content0: string, content: string, now: View)
      requires Reading(v, run, n, content0, content, now) && now.rest != "" && InRun(now.rest[0], run)
      ensures n + 1 <= |v.rest| && Took(now, 1).sticky == now.sticky
      ensures Reading(v, run, n + 1, content0, content + [now.rest[0]], Took(now, 1))
    {
      TookTook(v, n, 1);
      assert content0 + v.rest[..n + 1] == content0 + v.rest[..n] + [v.rest[n]];
    }

    lemma RunEnds(v: View, run: Run, n: nat, content0: string, content: string, now: View, e: Option<Error>)
      requires Reading(v, run, n, content0, content, now)
      requires !(now.rest != "" && InRun(now.rest[0], run))
      requires e == if now.rest == "" && End().Failing? then Some(ReadError(End().code)) else None
      ensures RunRead(v, run, n, content0, content, e, Looked(now, e))
    {
    }

    /** The loops that append to a token's content while the next byte belongs to a run. */
    method ReadRun(run: Run, content0: string) returns (content: string, ghost n: nat, e: Option<Error>)
      requires Valid() && Now().sticky.None?
      modifies Footprint()
      ensures Valid() && fresh(Footprint() - old(Footprint())) && err == old(err)
      ensures RunRead(old(Now()), run, n, content0, content, e, Now())
    {
      hide Reading, RunRead, Took, Looked, InRun, Peekable.Valid, Peekable.Unconsumed;
      content, n := content0, 0;
      ghost var start := Now();
      NothingRead(start, run, content0);
      while true
        invariant n <= |start.rest|
        invariant Valid() && fresh(Footprint() - old(Footprint())) && err == old(err)
        invariant Reading(start, run, n, content0, content, Now()) && Now().sticky.None?
        decreases |start.rest| - n
      {
        ghost var now := Now();
        var next, more;
        next, more, e := ReadIf(run);
        if !more {
          RunEnds(start, run, n, content0, content, now, e);
          return;
        }
        ReadOneMore(start, run, n, content0, content, now);
        content, n := content + [next], n + 1;
      }
    }

    // ---------- One token ----------

    /** The first byte of a token has just been read; v is the stream before it. */
    ghost predicate Started(v: View, position: Position, c: char, now: View) {
      && v.sticky.None? && v.rest != "" && c == v.rest[0]
      && position == PositionAfter(v.consumed) && now == Took(v, 1)
    }

    /** The token has its first k bytes, and they are all that has been read of it. */
    ghost predicate Holds(v: View, position: Position, k: nat, content: string, now: View) {
      && v.sticky.None? && 1 <= k <= |v.rest| && content == v.rest[..k]
      && position == PositionAfter(v.consumed) && now == Took(v, k)
    }

    lemma StartedHolds(v: View, position: Position, c: char, now: View)
      requires Started(v, position, c, now)
      ensures Holds(v, position, 1, [c], now)
    {
    }

    lemma HoldsMore(v: View, position: Position, k: nat, content: string, now: View)
      requires Holds(v, position, k, content, now) && now.rest != ""
      ensures k < |v.rest| && now.rest[0] == v.rest[k]
      ensures Holds(v, position, k + 1, content + [now.rest[0]], Took(now, 1))
    {
      TookTook(v, k, 1);
      assert v.rest[..k + 1] == v.rest[..k] + [v.rest[k]];
    }

    /** A run read on top of the first k bytes of a token. */
    lemma HoldsRun(v: View, position: Position, k: nat, content0: string, now: View, run: Run, n: nat, content: string,
                   e: Option<Error>, after: View)
      requires Holds(v, position, k, content0, now) && RunRead(now, run, n, content0, content, e, after)
      ensures k + n <= |v.rest| && content == v.rest[..k + n]
      ensures forall i | k <= i < k + n :: InRun(v.rest[i], run)
      ensures k + n < |v.rest| ==> !InRun(v.rest[k + n], run)
      ensures e.Some? <==> k + n == |v.rest| && End().Failing?
      ensures e.Some? ==> e == Some(ReadError(End().code))
      ensures e.None? ==> Holds(v, position, k + n, content, after)
      ensures v.consumed + v.rest == after.consumed + after.rest
    {
      TookTook(v, k, n);
      assert forall i | 0 <= i < n :: now.rest[i] == v.rest[k + i];
      assert content == v.rest[..k] + v.rest[k..][..n];
    }

    lemma TokenParsed(v: View, position: Position, n: nat, content: string, now: View, t: TokenType)
      requires Holds(v, position, n, content, now) && LongestMatch(v.rest, t, n)
      requires End().Failing? ==> !Undecided(v.rest, t, n) && !SwallowsError(v.rest, t, n, End())
      ensures Parsed(v, End(), now, Tok(Token(t, position, content)))
    {
    }

    lemma TokenStarved(v: View, t: TokenType, n: nat, after: View)
      requires End().Failing? && n <= |v.rest| && LongestMatch(v.rest, t, n) && Undecided(v.rest, t, n)
      requires v.consumed + v.rest == after.consumed + after.rest
      ensures Parsed(v, End(), after, Fail(ReadError(End().code)))
    {
    }

    method ParseWhitespace(position: Position, c: char, ghost v: View) returns (r: Result)
      requires Valid() && Started(v, position, c, Now()) && IsWhitespace(c)
      ensures Parsed(v, End(), Now(), r)
    {
      WhitespaceIsLongest(v.rest);
      return Tok(Token(WhitespaceType(c), position, [c]));
    }

    method ParseSymbol(position: Position, chars: string, ghost v: View) returns (r: Result)
      requires Valid() && Holds(v, position, 1, chars, Now()) && IsSymbol(v.rest[..1])
      requires v.rest[0] == '-' ==> if |v.rest| > 1 then !IsDigit(v.rest[1]) else !End().Failing?
      ensures Parsed(v, End(), Now(), r)
    {
      SymbolIsLongest(v.rest);
      return Tok(Token(Symbol, position, chars));
    }

    /** The rest of a word, read on top of its first letter. */
    lemma WordRun(v: View, position: Position, c: char, now: View, n: nat, content: string, e: Option<Error>,
                  after: View)
      requires Started(v, position, c, now) && IsAlpha(c) && RunRead(now, WordChars, n, [c], content, e, after)
      ensures Parsed(v, End(), after, if e.Some? then Fail(e.value) else Tok(Token(Word, position, content)))
    {
      hide Parsed, RunRead, LongestMatch;
      StartedHolds(v, position, c, now);
      HoldsRun(v, position, 1, [c], now, WordChars, n, content, e, after);
      WordIsLongest(v.rest, n + 1);
      if e.Some? {
        TokenStarved(v, Word, n + 1, after);
      } else {
        TokenParsed(v, position, n + 1, content, after, Word);
      }
    }

    method ParseWord(position: Position, c: char, ghost v: View) returns (r: Result)
      requires Valid() && Started(v, position, c, Now()) && IsAlpha(c)
      modifies Footprint()
      ensures Valid() && fresh(Footprint() - old(Footprint())) && err == old(err)
      ensures Parsed(v, End(), Now(), r)
    {
      hide Parsed, RunRead, Peekable.Valid, Peekable.Unconsumed;
      ghost var now := Now();
      var content, e;
      ghost var n;
      content, n, e := ReadRun(WordChars, [c]);
      WordRun(v, position, c, now, n, content, e, Now());
      return if e.Some? then Fail(e.value) else Tok(Token(Word, position, content));
    }

    // ---------- Numbers ----------

    /** A sign, if there is one, and one digit have been read. */
    ghost predicate NumberStarted(v: View, position: Position, k: nat, content: string, now: View) {
      Holds(v, position, k, content, now) && k == Sign(v.rest) + 1 && IsDigit(v.rest[k - 1])
    }

    /** What parseBasePrefix leaves behind after a lone zero of k bytes. */
    ghost predicate BaseTried(v: View, position: Position, k: nat, tokenType: TokenType, matched: bool, content: string,
                              e: Option<Error>, after: View)
    {
      if e.Some? then Parsed(v, End(), after, Fail(e.value))
      else if matched then Parsed(v, End(), after, Tok(Token(tokenType, position, content)))
      else Holds(v, position, k, content, after) && !StartsBased(v.rest, k) && (End().Failing? ==> k + 2 <= |v.rest|)
    }

    /** Too little left after a lone zero to tell what it starts. */
    lemma LoneZeroStarved(v: View, position: Position, k: nat, content: string, now: View)
      requires NumberStarted(v, position, k, content, now) && LoneZero(v.rest, k) && End().Failing? && |v.rest| < k + 2
      ensures Parsed(v, End(), now.(sticky := Some(ReadError(End().code))), Fail(ReadError(End().code)))
    {
      var n := if k < |v.rest| && IsDigit(v.rest[k]) then k + 1 else k;
      NumberIsLongest(v.rest, n);
      TokenStarved(v, Number, n, now.(sticky := Some(ReadError(End().code))));
    }

    /** A base letter and the run of its digits, the first of which was seen before. */
    lemma BasedRun(v: View, position: Position, k: nat, content0: string, now: View, run: Run, n: nat, content: string,
                   e: Option<Error>, after: View)
      requires 1 < k && Holds(v, position, k, content0, now) && RunRead(now, run, n, content0, content, e, after)
      requires k == Sign(v.rest) + 2 && v.rest[k - 2] == '0' && k < |v.rest|
      requires || (run.HexDigits? && IsHexPrefix(v.rest[k - 1]) && IsHexDigit(v.rest[k]))
               || (run.BinaryDigits? && IsBinaryPrefix(v.rest[k - 1]) && IsBinaryDigit(v.rest[k]))
      ensures var t := if run.HexDigits? then HexDecimal else Binary;
              Parsed(v, End(), after, if e.Some? then Fail(e.value) else Tok(Token(t, position, content)))
    {
      hide Parsed, Holds, RunRead;
      HoldsRun(v, position, k, content0, now, run, n, content, e, after);
      assert n > 0;
      var w := v.rest[..k + n];
      assert forall i | 0 <= i < |w| :: w[i] == v.rest[i];
      assert Sign(w) == Sign(v.rest);
      var t := if run.HexDigits? then HexDecimal else Binary;
      if run.HexDigits? {
        HexIsLongest(v.rest, k + n);
      } else {
        BinaryIsLongest(v.rest, k + n);
      }
      if e.Some? {
        TokenStarved(v, t, k + n, after);
      } else {
        TokenParsed(v, position, k + n, content, after, t);
      }
    }

    method ParseBasePrefix(position: Position, content0: string, ghost v: View, ghost k: nat)
      returns (tokenType: TokenType, matched: bool, content: string, e: Option<Error>)
      requires Valid() && NumberStarted(v, position, k, content0, Now()) && LoneZero(v.rest, k)
      modifies Footprint()
      ensures Valid() && fresh(Footprint() - old(Footprint())) && err == old(err)
      ensures BaseTried(v, position, k, tokenType, matched, content, e, Now())
    {
      tokenType, matched, content := Number, false, content0;
      ghost var now := Now();
      var prefix, digit;
      prefix, digit, e := Peek2();
      if e == Some(NotEnoughItems) {
        e := None;
        return;
      }
      if e.Some? {
        LoneZeroStarved(v, position, k, content0, now);
        return;
      }
      assert prefix == v.rest[k] && digit == v.rest[k + 1];
      var run;
      if IsHexPrefix(prefix) && IsHexDigit(digit) {
        tokenType, run := HexDecimal, HexDigits;
      } else if IsBinaryPrefix(prefix) && IsBinaryDigit(digit) {
        tokenType, run := Binary, BinaryDigits;
      } else {
        return;
      }
      content, e := ReadBased(position, content0, run, v, k);
      matched := e.None?;
    }

    /** The rest of parseBasePrefix, once the letter and the digit after it have been recognised. */
    method ReadBased(position: Position, content0: string, run: Run, ghost v: View, ghost k: nat)
      returns (content: string, e: Option<Error>)
      requires Valid() && Holds(v, position, k, content0, Now()) && LoneZero(v.rest, k) && k + 2 <= |v.rest|
      requires || (run.HexDigits? && IsHexPrefix(v.rest[k]) && IsHexDigit(v.rest[k + 1]))
               || (run.BinaryDigits? && IsBinaryPrefix(v.rest[k]) && IsBinaryDigit(v.rest[k + 1]))
      modifies Footprint()
      ensures Valid() && fresh(Footprint() - old(Footprint())) && err == old(err)
      ensures var t := if run.HexDigits? then HexDecimal else Binary;
              Parsed(v, End(), Now(), if e.Some? then Fail(e.value) else Tok(Token(t, position, content)))
    {
      hide Parsed, RunRead, Peekable.Valid, Peekable.Unconsumed;
      HoldsMore(v, position, k, content0, Now());
      var at, prefix;
      at, prefix, e := Read();
      content := content0 + [prefix];
      ghost var (now, content1) := (Now(), content);
      ghost var n;
      content, n, e := ReadRun(run, content);
      BasedRun(v, position, k + 1, content1, now, run, n, content, e, Now());
    }

    method HasFloatFraction() returns (b: bool)
      requires Valid() && Now().sticky.None?
      modifies items.Footprint()
      ensures Valid() && fresh(Footprint() - old(Footprint()))
      ensures Now() == Looked(old(Now()), PeekError(old(Now()), 2, End()))
      ensures b == StartsFraction(old(Now()).rest, 0)
    {
      var first, second, e;
      first, second, e := Peek2();
      b := e.None? && first == '.' && IsDigit(second);
    }

    /** All the digits there are after the sign. */
    ghost predicate Decimal(s: string, m: nat) {
      && Sign(s) < m <= |s| && (forall i | Sign(s) <= i < m :: IsDigit(s[i]))
      && (m < |s| ==> !IsDigit(s[m])) && !StartsBased(s, m)
    }

    /** The rest of the digits, read on top of the sign and the first digit. */
    lemma DigitsRun(v: View, position: Position, k: nat, content0: string, now: View, n: nat, content: string,
                    e: Option<Error>, after: View)
      requires NumberStarted(v, position, k, content0, now) && !StartsBased(v.rest, k)
      requires End().Failing? && LoneZero(v.rest, k) ==> k + 2 <= |v.rest|
      requires RunRead(now, Digits, n, content0, content, e, after)
      ensures Decimal(v.rest, k + n)
      ensures e.Some? ==> Parsed(v, End(), after, Fail(e.value))
      ensures e.None? ==> Holds(v, position, k + n, content, after) && after.sticky.None?
      ensures e.None? && End().Failing? ==> k + n < |v.rest| && !(LoneZero(v.rest, k + n) && |v.rest| == k + n + 1)
    {
      hide Parsed, RunRead, LongestMatch;
      HoldsRun(v, position, k, content0, now, Digits, n, content, e, after);
      if e.Some? {
        NumberIsLongest(v.rest, k + n);
        TokenStarved(v, Number, k + n, after);
      }
    }

    /** A whole number that turned out to have no fraction. */
    lemma NumberParsed(v: View, position: Position, m: nat, content: string, now: View)
      requires Holds(v, position, m, content, now) && Decimal(v.rest, m) && !StartsFraction(now.rest, 0)
      requires End().Failing? ==> m < |v.rest| && !(LoneZero(v.rest, m) && |v.rest| == m + 1)
      ensures Parsed(v, End(), Looked(now, PeekError(now, 2, End())), Tok(Token(Number, position, content)))
    {
      hide LongestMatch;
      NumberIsLongest(v.rest, m);
    }

    /** The digits after a sign and one digit, then a fraction if one follows. */
    method ParseDecimal(position: Position, content0: string, ghost v: View, ghost k: nat) returns (r: Result)
      requires Valid() && NumberStarted(v, position, k, content0, Now()) && !StartsBased(v.rest, k)
      requires End().Failing? && LoneZero(v.rest, k) ==> k + 2 <= |v.rest|
      modifies Footprint()
      ensures Valid() && fresh(Footprint() - old(Footprint())) && err == old(err)
      ensures Parsed(v, End(), Now(), r)
    {
      hide Parsed, RunRead, Looked, PeekError, Holds, Decimal, StartsFraction, StartsBased, LoneZero, Sign,
        Peekable.Valid, Peekable.Unconsumed;
      ghost var now := Now();
      LoneZeroContent(v, position, k, content0, now);
      var content, e;
      ghost var n;
      content, n, e := ReadRun(Digits, content0);
      DigitsRun(v, position, k, content0, now, n, content, e, Now());
      if e.Some? {
        return Fail(e.value);
      }
      now := Now();
      var fraction := HasFloatFraction();
      if fraction {
        FractionSeen(v, position, k + n, content, now);
        r := ParseFraction(position, content, v, k + n);
        return;
      }
      NumberParsed(v, position, k + n, content, now);
      return Tok(Token(Number, position, content));
    }

    lemma FractionSeen(v: View, position: Position, m: nat, content: string, now: View)
      requires Holds(v, position, m, content, now) && StartsFraction(now.rest, 0)
      ensures StartsFraction(v.rest, m) && Looked(now, PeekError(now, 2, End())) == now
    {
    }

    /** The digits of the fraction, read on top of the dot. */
    lemma FractionRun(v: View, position: Position, m: nat, content0: string, now: View, n: nat, content: string,
                      e: Option<Error>, after: View)
      requires Decimal(v.rest, m) && StartsFraction(v.rest, m)
      requires Holds(v, position, m + 1, content0, now) && RunRead(now, Digits, n, content0, content, e, after)
      ensures Parsed(v, End(), after, if e.Some? then Fail(e.value) else Tok(Token(Float, position, content)))
    {
      hide Parsed, RunRead, LongestMatch;
      HoldsRun(v, position, m + 1, content0, now, Digits, n, content, e, after);
      FractionIsFloat(v.rest, m, n);
      if e.Some? {
        TokenStarved(v, Float, m + 1 + n, after);
      } else {
        TokenParsed(v, position, m + 1 + n, content, after, Float);
      }
    }

    /** The dot and the digits after it. */
    method ParseFraction(position: Position, content0: string, ghost v: View, ghost m: nat) returns (r: Result)
      requires Valid() && Holds(v, position, m, content0, Now()) && Decimal(v.rest, m) && StartsFraction(v.rest, m)
      modifies Footprint()
      ensures Valid() && fresh(Footprint() - old(Footprint())) && err == old(err)
      ensures Parsed(v, End(), Now(), r)
    {
      hide Parsed, RunRead, Decimal, Peekable.Valid, Peekable.Unconsumed;
      HoldsMore(v, position, m, content0, Now());
      var at, dot, e;
      at, dot, e := Read();
      var content := content0 + [dot];
      ghost var (now, content1) := (Now(), content);
      ghost var n;
      content, n, e := ReadRun(Digits, content);
      FractionRun(v, position, m, content1, now, n, content, e, Now());
      if e.Some? {
        return Fail(e.value);
      }
      return Tok(Token(Float, position, content));
    }

    lemma FractionIsFloat(s: string, dot: nat, n: nat)
      requires StartsFraction(s, dot) && Decimal(s, dot)
      requires dot + 1 + n <= |s| && forall i | dot + 1 <= i < dot + 1 + n :: IsDigit(s[i])
      requires dot + 1 + n < |s| ==> !IsDigit(s[dot + 1 + n])
      ensures LongestMatch(s, Float, dot + 1 + n)
    {
      var w := s[..dot + 1 + n];
      assert n > 0;
      assert forall i | 0 <= i < |w| :: w[i] == s[i];
      assert IsFloatAt(w, dot);
      FloatIsLongest(s, dot, dot + 1 + n);
    }

    method ParseNumber(position: Position, c: char, ghost v: View) returns (r: Result)
      requires Valid() && Started(v, position, c, Now()) && (c == '-' || IsDigit(c))
      modifies Footprint()
      ensures Valid() && fresh(Footprint() - old(Footprint())) && err == old(err)
      ensures Parsed(v, End(), Now(), r)
    {
      hide Parsed, Holds, Took, Peekable.Valid, Peekable.Unconsumed;
      DigitStarts(v, position, c, Now());
      if c == '-' {
        assert [c] == "-";
        ghost var now := Now();
        var next, e := Peek();
        if e == Some(NotEnoughItems) || (e.None? && !IsDigit(next)) {
          MinusIsSymbol(v, position, now, e);
          r := ParseSymbol(position, [c], v);
          return;
        }
        if e.Some? {
          LoneMinusStarved(v, position, now);
          return Fail(e.value);
        }
        MinusThenDigit(v, position, now);
        var at;
        at, next, e := Read();
        r := ParseDigits(position, [c, next], v, 2);
        return;
      }
      r := ParseDigits(position, [c], v, 1);
    }

    /** From the first digit on: another base after a lone zero, or a decimal number. */
    method ParseDigits(position: Position, content0: string, ghost v: View, ghost k: nat) returns (r: Result)
      requires Valid() && NumberStarted(v, position, k, content0, Now())
      modifies Footprint()
      ensures Valid() && fresh(Footprint() - old(Footprint())) && err == old(err)
      ensures Parsed(v, End(), Now(), r)
    {
      hide Parsed, Holds, StartsBased, Peekable.Valid, Peekable.Unconsumed;
      LoneZeroContent(v, position, k, content0, Now());
      var content := content0;
      if content == "0" || content == "-0" {
        var tokenType, matched, e;
        tokenType, matched, content, e := ParseBasePrefix(position, content, v, k);
        if e.Some? {
          return Fail(e.value);
        }
        if matched {
          return Tok(Token(tokenType, position, content));
        }
      }
      r := ParseDecimal(position, content, v, k);
    }

    lemma DigitStarts(v: View, position: Position, c: char, now: View)
      requires Started(v, position, c, now) && (c == '-' || IsDigit(c))
      ensures Holds(v, position, 1, [c], now)
      ensures c != '-' ==> NumberStarted(v, position, 1, [c], now)
    {
    }

    lemma LoneZeroContent(v: View, position: Position, k: nat, content: string, now: View)
      requires NumberStarted(v, position, k, content, now)
      ensures k <= |v.rest| && now.sticky.None?
      ensures content == "0" || content == "-0" <==> LoneZero(v.rest, k)
      ensures !LoneZero(v.rest, k) ==> !StartsBased(v.rest, k)
    {
    }

    /** A minus that the end or another byte than a digit follows. */
    lemma MinusIsSymbol(v: View, position: Position, now: View, e: Option<Error>)
      requires Holds(v, position, 1, "-", now) && e == PeekError(now, 1, End())
      requires e == Some(NotEnoughItems) || (e.None? && !IsDigit(now.rest[0]))
      ensures Looked(now, e) == now && IsSymbol(v.rest[..1])
      ensures v.rest[0] == '-' ==> if |v.rest| > 1 then !IsDigit(v.rest[1]) else !End().Failing?
    {
      assert v.rest[..1] == "-";
    }

    lemma MinusThenDigit(v: View, position: Position, now: View)
      requires Holds(v, position, 1, "-", now) && PeekError(now, 1, End()).None? && IsDigit(now.rest[0])
      ensures Looked(now, None) == now && now.rest != ""
      ensures NumberStarted(v, position, 2, ['-', now.rest[0]], Took(now, 1))
    {
      HoldsMore(v, position, 1, "-", now);
      assert v.rest[0] == v.rest[..1][0];
    }

    /** The reader fails right after a minus. */
    lemma LoneMinusStarved(v: View, position: Position, now: View)
      requires Holds(v, position, 1, "-", now)
      requires PeekError(now, 1, End()).Some? && PeekError(now, 1, End()) != Some(NotEnoughItems)
      ensures var e := PeekError(now, 1, End());
              Parsed(v, End(), Looked(now, e), Fail(e.value))
    {
      assert v.rest[..1] == "-" == v.rest;
      SymbolIsLongest(v.rest);
      TokenStarved(v, Symbol, 1, Looked(now, PeekError(now, 1, End())));
    }

    // ---------- Quoted strings ----------

    /** An open quote and what follows it, with no closing quote yet. */
    ghost predicate Quoting(v: View, position: Position, n: nat, content: string, escaped: bool, now: View) {
      && Holds(v, position, n, content, now) && IsQuote(v.rest[0]) && Unclosed(v.rest, n)
      && escaped == Escaped(v.rest, n, Escapes(v.rest[0]))
    }

    lemma QuoteStarts(v: View, position: Position, quote: char, now: View)
      requires Started(v, position, quote, now) && IsQuote(quote)
      ensures Quoting(v, position, 1, [quote], false, now) && now.sticky.None? && v.rest != "" && v.rest[0] == quote
    {
    }

    /** Another byte of a quoted string: it closes the string, or the string goes on. */
    lemma QuoteMore(v: View, position: Position, n: nat, content: string, escaped: bool, now: View)
      requires Quoting(v, position, n, content, escaped, now) && now.rest != ""
      ensures n < |v.rest| && Took(now, 1).sticky.None?
      ensures var (quote, c, more) := (v.rest[0], now.rest[0], content + [now.rest[0]]);
              if !escaped && c == quote then
                Parsed(v, End(), Took(now, 1), Tok(Token(QuoteType(quote), position, more)))
              else Quoting(v, position, n + 1, more, Escapes(quote) && !escaped && c == '\\', Took(now, 1))
    {
      hide LongestMatch, Parsed;
      HoldsMore(v, position, n, content, now);
      if !escaped && now.rest[0] == v.rest[0] {
        QuotedIsLongest(v.rest, n + 1);
        TokenParsed(v, position, n + 1, content + [now.rest[0]], Took(now, 1), QuoteType(v.rest[0]));
      }
    }

    /** The stream ends inside the quotes. */
    lemma QuoteNeverCloses(v: View, position: Position, n: nat, content: string, escaped: bool, now: View)
      requires Quoting(v, position, n, content, escaped, now) && now.rest == ""
      ensures var e := PeekError(now, 1, End());
              e.Some?
              && Parsed(v, End(), Looked(now, e), Fail(if e.value.NotEnoughItems? then UnknownToken else e.value))
    {
      StuckOnlyOnOpenQuote(v.rest);
    }

    method ParseQuotedString(tokenType: TokenType, position: Position, quote: char, allowEscapes: bool, ghost v: View)
      returns (r: Result)
      requires Valid() && Started(v, position, quote, Now())
      requires IsQuote(quote) && tokenType == QuoteType(quote) && allowEscapes == Escapes(quote)
      modifies Footprint()
      ensures Valid() && fresh(Footprint() - old(Footprint())) && err == old(err)
      ensures Parsed(v, End(), Now(), r)
    {
      hide Parsed, Quoting, Started, QuoteType, Escapes, Took, Peekable.Valid, Peekable.Unconsumed;
      var content, escaped := [quote], false;
      ghost var n := 1;
      QuoteStarts(v, position, quote, Now());
      while true
        invariant n <= |v.rest|
        invariant Valid() && fresh(Footprint() - old(Footprint())) && err == old(err)
        invariant Quoting(v, position, n, content, escaped, Now()) && Now().sticky.None?
        invariant escaped ==> allowEscapes
        decreases |v.rest| - n
      {
        ghost var (now, content1, escaped1) := (Now(), content, escaped);
        var at, next, e := Read();
        if e.Some? {
          QuoteNeverCloses(v, position, n, content, escaped, now);
          return Fail(if e.value.NotEnoughItems? then UnknownToken else e.value);
        }
        content := content + [next];
        QuoteMore(v, position, n, content1, escaped1, now);
        n := n + 1;
        if allowEscapes && escaped {
          escaped := false;
          continue;
        }
        if allowEscapes && next == '\\' {
          escaped := true;
          continue;
        }
        if next == quote {
          return Tok(Token(tokenType, position, content));
        }
      }
    }

    // ---------- The iterator's own methods ----------

    lemma FirstByte(v: View)
      requires PeekError(v, 1, End()).None?
      ensures v.rest != "" && Started(v, PositionAfter(v.consumed), v.rest[0], Took(v, 1))
      ensures Holds(v, PositionAfter(v.consumed), 1, [v.rest[0]], Took(v, 1))
      ensures var c := v.rest[0];
              !IsWhitespace(c) && !IsDigit(c) && !IsAlpha(c) && !IsQuote(c) ==> IsSymbol(v.rest[..1])
    {
    }

    method ParseToken() returns (r: Result)
      requires Valid()
      modifies Footprint()
      ensures Valid() && fresh(Footprint() - old(Footprint())) && err == old(err)
      ensures Nexted(old(Now()), End(), Now(), r)
    {
      hide Parsed, Started, Holds, Took, PositionAfter, Peekable.Valid, Peekable.Unconsumed;
      ghost var v := Now();
      var position, c, e := Read();
      if e.Some? {
        return Fail(e.value);
      }
      FirstByte(v);
      if IsWhitespace(c) {
        r := ParseWhitespace(position, c, v);
      } else if c == '-' || IsDigit(c) {
        r := ParseNumber(position, c, v);
      } else if IsAlpha(c) {
        r := ParseWord(position, c, v);
      } else if c == '\'' {
        r := ParseQuotedString(SingleQuoteString, position, c, true, v);
      } else if c == '"' {
        r := ParseQuotedString(DoubleQuoteString, position, c, true, v);
      } else if c == '`' {
        r := ParseQuotedString(DiagonalQuoteString, position, c, false, v);
      } else {
        r := ParseSymbol(position, [c], v);
      }
    }

    method Next() returns (token: Option<Token>)
      requires Valid()
      modifies Footprint()
      ensures Valid() && fresh(Footprint() - old(Footprint()))
      ensures if token.Some? then err == old(err) && Nexted(old(Now()), End(), Now(), Tok(token.value))
              else err.Some? && Nexted(old(Now()), End(), Now(), Fail(err.value))
    {
      hide Nexted, Peekable.Valid, Peekable.Unconsumed;
      var r := ParseToken();
      if r.Fail? {
        err := Some(r.error);
        return None;
      }
      return Some(r.token);
    }

    /** True exactly when a byte is left and nothing has gone wrong; a reader's failure is kept in err. */
    method HasNext() returns (b: bool)
      requires Valid()
      modifies Footprint()
      ensures Valid() && fresh(Footprint() - old(Footprint()))
      ensures b == (old(err).None? && old(Now()).sticky.None? && old(Now()).rest != "")
      ensures b ==> err == old(err) && Now() == old(Now())
      ensures old(err).Some? ==> err == old(err) && Now() == old(Now())
      ensures !b && old(err).None? ==>
                var e := PeekError(old(Now()), 1, End());
                e.Some? && err == (if e.value.NotEnoughItems? then None else e) && Now() == Looked(old(Now()), e)
    {
      hide Peekable.Valid, Peekable.Unconsumed;
      if err.Some? {
        return false;
      }
      var c, e := Peek();
      if e == Some(NotEnoughItems) {
        return false;
      }
      if e.Some? {
        err := e;
        return false;
      }
      return true;
    }

    method Err() returns (e: Option<Error>)
      requires Valid()
      ensures e == if err.Some? then err else Now().sticky
    {
      return if err.Some? then err else items.err;
    }
  }
}
