/** Whole runs of the tokenizer: iterator/iterator.go's Materialize over tokenizer/state.go, against the
    longest-match reading of the whole input. */
module Lexing {
  import opened Common
  import opened ByteStreams
  import opened TokenGrammar
  import opened Tokenizer

  function Contents(toks: seq<Token>): string {
    if toks == [] then "" else Contents(toks[..|toks| - 1]) + toks[|toks| - 1].content
  }

  /** The token is the longest match right after the first `at` bytes and says exactly where it stands. */
  ghost predicate TokenAt(input: string, at: nat, token: Token) {
    && at <= |input| && LongestMatch(input[at..], token.tokenType, |token.content|)
    && token.content == input[at..][..|token.content|]
    && token.position == PositionAfter(input[..at])
  }

  /** The token comes right after some others, and when the reader fails, the failure did not stop it. */
  ghost predicate Follows(input: string, end: End, before: seq<Token>, token: Token) {
    var at := |Contents(before)|;
    && TokenAt(input, at, token)
    && (end.Failing? ==> !LastLookFailed(input, before) && !Undecided(input[at..], token.tokenType, |token.content|))
  }

  /** Longest matches, one right after the other from the start of the input. */
  ghost predicate Lexed(input: string, end: End, toks: seq<Token>) {
    toks == [] || (Lexed(input, end, toks[..|toks| - 1]) && Follows(input, end, toks[..|toks| - 1], toks[|toks| - 1]))
  }

  lemma LexedOneMore(input: string, end: End, toks: seq<Token>, token: Token)
    requires Lexed(input, end, toks) && Follows(input, end, toks, token)
    ensures Lexed(input, end, toks + [token]) && Contents(toks + [token]) == Contents(toks) + token.content
  {
    assert (toks + [token])[..|toks|] == toks;
  }

  /** Nothing is lost: the contents of the tokens are the input so far. */
  lemma {:induction false} ContentsArePrefix(input: string, end: End, toks: seq<Token>)
    requires Lexed(input, end, toks)
    ensures |Contents(toks)| <= |input| && Contents(toks) == input[..|Contents(toks)|]
  {
    hide Undecided, PositionAfter, LastLookFailed, IsToken;
    if toks != [] {
      var (before, last) := (toks[..|toks| - 1], toks[|toks| - 1]);
      ContentsArePrefix(input, end, before);
      var at := |Contents(before)|;
      assert input[..at + |last.content|] == input[..at] + input[at..][..|last.content|];
    }
  }

  lemma SameToken(input: string, at: nat, x: Token, y: Token)
    requires TokenAt(input, at, x) && TokenAt(input, at, y)
    ensures x == y
  {
    hide LongestMatch, PositionAfter;
    LongestIsUnique(input[at..], x.tokenType, |x.content|, y.tokenType, |y.content|);
  }

  lemma LexedLast(input: string, end: End, toks: seq<Token>)
    requires Lexed(input, end, toks) && toks != []
    ensures Lexed(input, end, toks[..|toks| - 1])
    ensures TokenAt(input, |Contents(toks[..|toks| - 1])|, toks[|toks| - 1])
  {
  }

  /** There is one way to cut the input. */
  lemma {:induction false} LexedIsUnique(input: string, end: End, a: seq<Token>, b: seq<Token>)
    requires Lexed(input, end, a) && Lexed(input, end, b) && |a| <= |b|
    ensures a == b[..|a|]
    decreases |b|
  {
    hide Lexed, TokenAt, Contents;
    if |a| < |b| {
      LexedLast(input, end, b);
      LexedIsUnique(input, end, a, b[..|b| - 1]);
      assert b[..|b| - 1][..|a|] == b[..|a|];
    } else if a != [] {
      var (a0, b0) := (a[..|a| - 1], b[..|b| - 1]);
      LexedLast(input, end, a);
      LexedLast(input, end, b);
      LexedIsUnique(input, end, a0, b0);
      assert a0 == b0;
      SameToken(input, |Contents(a0)|, a[|a| - 1], b[|b| - 1]);
      assert a == a0 + [a[|a| - 1]] && b == b0 + [b[|b| - 1]];
    }
  }

  /** What is left of the input after some tokens. */
  function Remaining(input: string, toks: seq<Token>): string {
    if |Contents(toks)| <= |input| then input[|Contents(toks)|..] else ""
  }

  /** The last token was a number before the stream's last byte, and looking for a fraction ran into the reader's
      error. */
  predicate LastLookFailed(input: string, toks: seq<Token>) {
    toks != [] && toks[|toks| - 1].tokenType.Number? && |Remaining(input, toks)| == 1
  }

  function Somes(toks: seq<Token>): seq<Option<Token>> {
    seq(|toks|, i requires 0 <= i < |toks| => Some(toks[i]))
  }

  /** What Materialize gives: the longest-match tokens, a nil token after them when Next failed, and the error. */
  ghost predicate Ran(input: string, end: End, toks: seq<Token>, result: seq<Option<Token>>, e: Option<Error>) {
    && Lexed(input, end, toks)
    && var left := Remaining(input, toks);
       if !end.Failing? then
         if left == "" then result == Somes(toks) && e.None?
         else NoToken(left) && result == Somes(toks) + [None] && e == Some(UnknownToken)
       else
         && e == Some(ReadError(end.code))
         && if left == "" || LastLookFailed(input, toks) then result == Somes(toks)
            else Starved(left) && result == Somes(toks) + [None]
  }

  /** What holds between two tokens. */
  ghost predicate Running(input: string, end: End, toks: seq<Token>, result: seq<Option<Token>>, now: View) {
    && Lexed(input, end, toks) && result == Somes(toks)
    && now.consumed == Contents(toks) && now.consumed + now.rest == input
    && now.sticky == (if end.Failing? && LastLookFailed(input, toks) then Some(ReadError(end.code)) else None)
  }

  lemma RunStarts(input: string, end: End)
    ensures Running(input, end, [], [], View("", input, None))
  {
  }

  lemma RunsOn(input: string, end: End, toks: seq<Token>, result: seq<Option<Token>>, now: View, token: Token,
               after: View)
    requires Running(input, end, toks, result, now) && now.sticky.None? && now.rest != ""
    requires Parsed(now, end, after, Tok(token))
    ensures Running(input, end, toks + [token], result + [Some(token)], after)
    ensures |after.rest| < |now.rest|
  {
    hide LongestMatch, Undecided, PositionAfter, Lexed, Contents;
    var at := |now.consumed|;
    assert input[at..] == now.rest && input[..at] == now.consumed;
    MatchIsNotEmpty(now.rest, token.tokenType, |token.content|);
    LexedOneMore(input, end, toks, token);
    assert after.consumed + after.rest == input;
    assert Remaining(input, toks + [token]) == after.rest;
    assert Somes(toks + [token]) == Somes(toks) + [Some(token)];
  }

  lemma MatchIsNotEmpty(s: string, t: TokenType, n: nat)
    requires LongestMatch(s, t, n)
    ensures n > 0
  {
  }

  lemma RunFails(input: string, end: End, toks: seq<Token>, result: seq<Option<Token>>, now: View, e: Error,
                 after: View)
    requires Running(input, end, toks, result, now) && now.sticky.None? && now.rest != ""
    requires Parsed(now, end, after, Fail(e))
    ensures Ran(input, end, toks, result + [None], Some(e))
  {
    assert Remaining(input, toks) == now.rest;
  }

  lemma RunEnds(input: string, end: End, toks: seq<Token>, result: seq<Option<Token>>, now: View)
    requires Running(input, end, toks, result, now) && (now.sticky.Some? || now.rest == "")
    ensures Ran(input, end, toks, result, if end.Failing? then Some(ReadError(end.code)) else None)
  {
    assert Remaining(input, toks) == now.rest;
  }

  /** Materialize over a fresh tokenizer. */
  method Materialize(tokenizer: State) returns (result: seq<Option<Token>>, e: Option<Error>, ghost toks: seq<Token>)
    requires tokenizer.Valid() && tokenizer.err.None? && tokenizer.Now() == View("", tokenizer.Now().rest, None)
    modifies tokenizer.Footprint()
    ensures Ran(old(tokenizer.Now()).rest, tokenizer.End(), toks, result, e)
  {
    hide Running, Ran, Parsed, Looked, Peekable.Unconsumed;
    ghost var (input, end) := (tokenizer.Now().rest, tokenizer.End());
    result, toks := [], [];
    RunStarts(input, end);
    while true
      invariant tokenizer.Valid() && fresh(tokenizer.Footprint() - old(tokenizer.Footprint()))
      invariant if tokenizer.err.None? then Running(input, end, toks, result, tokenizer.Now())
                else Ran(input, end, toks, result, tokenizer.err)
      decreases if tokenizer.err.None? then |tokenizer.Now().rest| + 1 else 0
    {
      ghost var (now, err) := (tokenizer.Now(), tokenizer.err);
      var more := tokenizer.HasNext();
      e := tokenizer.Err();
      if !more || e.Some? {
        if err.None? {
          RunEnds(input, end, toks, result, now);
        }
        break;
      }
      var token := tokenizer.Next();
      if token.Some? {
        RunsOn(input, end, toks, result, now, token.value, tokenizer.Now());
        toks := toks + [token.value];
      } else {
        RunFails(input, end, toks, result, now, tokenizer.err.value, tokenizer.Now());
      }
      result := result + [token];
    }
    e := tokenizer.Err();
  }

  // ---------- What a run gives ----------

  /** Every token stands where the contents before it end, with nothing between. */
  lemma {:induction false} EachTokenInPlace(input: string, end: End, toks: seq<Token>, i: nat)
    requires Lexed(input, end, toks) && i < |toks|
    ensures Lexed(input, end, toks[..i]) && Follows(input, end, toks[..i], toks[i])
    decreases |toks|
  {
    if i < |toks| - 1 {
      EachTokenInPlace(input, end, toks[..|toks| - 1], i);
      assert toks[..|toks| - 1][..i] == toks[..i];
    }
  }

  /** Where a run stops no token can follow. */
  lemma NothingFollows(input: string, end: End, toks: seq<Token>, result: seq<Option<Token>>, e: Option<Error>,
                       token: Token)
    requires Ran(input, end, toks, result, e)
    ensures !Follows(input, end, toks, token)
  {
    if Follows(input, end, toks, token) {
      ContentsArePrefix(input, end, toks);
      var left := Remaining(input, toks);
      var (t, n) := (token.tokenType, |token.content|);
      if !NoToken(left) {
        if t', n': nat :| n' <= |left| && LongestMatch(left, t', n') && Undecided(left, t', n') {
          LongestIsUnique(left, t, n, t', n');
        }
      }
    }
  }

  /** The stream and its end decide the whole outcome. */
  lemma OutcomeIsUnique(input: string, end: End, toks: seq<Token>, result: seq<Option<Token>>, e: Option<Error>,
                        toks': seq<Token>, result': seq<Option<Token>>, e': Option<Error>)
    requires Ran(input, end, toks, result, e) && Ran(input, end, toks', result', e')
    ensures toks == toks' && result == result' && e == e'
    decreases |toks|
  {
    if |toks'| < |toks| {
      OutcomeIsUnique(input, end, toks', result', e', toks, result, e);
    } else {
      LexedIsUnique(input, end, toks, toks');
      if |toks| < |toks'| {
        EachTokenInPlace(input, end, toks', |toks|);
        NothingFollows(input, end, toks, result, e, toks'[|toks|]);
      }
      assert toks == toks';
    }
  }

  /** A quote that no later byte closes. */
  ghost predicate OpenQuote(s: string) {
    s != "" && IsQuote(s[0]) && Unclosed(s, |s|)
  }

  /** A run over a stream that just ends fails exactly when an opening quote at a token boundary is never closed;
      otherwise the contents of its tokens are the whole input. */
  lemma FailsOnlyOnOpenQuote(input: string, end: End, toks: seq<Token>, result: seq<Option<Token>>, e: Option<Error>)
    requires !end.Failing? && Ran(input, end, toks, result, e)
    ensures e.Some? <==> exists before :: Lexed(input, end, before) && OpenQuote(Remaining(input, before))
    ensures e.Some? ==> e == Some(UnknownToken) && OpenQuote(Remaining(input, toks))
    ensures e.None? ==> Contents(toks) == input
  {
    ContentsArePrefix(input, end, toks);
    if e.Some? {
      StuckOnlyOnOpenQuote(Remaining(input, toks));
    }
    forall before | Lexed(input, end, before) && OpenQuote(Remaining(input, before))
      ensures e.Some?
    {
      StuckOnlyOnOpenQuote(Remaining(input, before));
      ContentsArePrefix(input, end, before);
      if |toks| <= |before| {
        LexedIsUnique(input, end, toks, before);
        if |toks| < |before| {
          EachTokenInPlace(input, end, before, |toks|);
          NothingFollows(input, end, toks, result, e, before[|toks|]);
        }
      } else {
        LexedIsUnique(input, end, before, toks);
        EachTokenInPlace(input, end, toks, |before|);
      }
    }
  }

  // ---------- A reader that fails ----------

  /** A number cut off from its fraction. */
  predicate LosesFraction(s: string, t: TokenType, n: nat, more: string)
    requires n <= |s|
  {
    t.Number? && s[n..] == "." && more != "" && IsDigit(more[0])
  }

  predicate LastLosesFraction(input: string, toks: seq<Token>, more: string) {
    && toks != [] && toks[|toks| - 1].tokenType.Number? && Remaining(input, toks) == "."
    && more != "" && IsDigit(more[0])
  }

  lemma StillQuoted(s: string, more: string, n: nat)
    requires s != "" && IsQuote(s[0]) && LongestMatch(s, QuoteType(s[0]), n)
    ensures LongestMatch(s + more, QuoteType(s[0]), n)
  {
    var w := s + more;
    QuotedUpTo(s, QuoteType(s[0]), n);
    forall i: nat | i < |s|
      ensures w[i] == s[i] && Escaped(s, i, Escapes(s[0])) == Escaped(w, i, Escapes(s[0]))
    {
      EscapedInPrefix(s, w, i, Escapes(s[0]));
    }
    QuotedIsLongest(w, n);
  }

  lemma BaseIsToken(s: string, n: nat)
    requires StartsBased(s, n)
    ensures IsToken(HexDecimal, s[..n + 2]) || IsToken(Binary, s[..n + 2])
  {
  }

  lemma FractionIsToken(s: string, n: nat)
    requires StartsFraction(s, n) && IsNumber(s[..n])
    ensures IsToken(Float, s[..n + 2])
  {
    var w := s[..n + 2];
    assert forall i | 0 <= i < n :: w[i] == s[..n][i];
    assert IsFloatAt(w, n);
  }

  /** Where the fraction of a longer stream comes from. */
  lemma FractionOfLonger(s: string, more: string, n: nat)
    requires n < |s|
    ensures StartsFraction(s + more, n) <==> StartsFraction(s, n) || LosesFraction(s, Number, n, more)
  {
    if n + 1 == |s| {
      assert s[n..] == [s[n]];
    }
  }

  lemma StillNumber(s: string, more: string, n: nat)
    requires LongestMatch(s, Number, n) && !Undecided(s, Number, n)
    ensures LongestMatch(s + more, Number, n) <==> !LosesFraction(s, Number, n, more)
  {
    var w := s + more;
    assert w[..n] == s[..n];
    assert forall i | 0 <= i < n :: s[..n][i] == s[i] == w[i];
    assert Sign(s[..n]) == Sign(s) == Sign(w);
    assert !IsToken(Number, s[..n + 1]);
    if StartsBased(s, n) {
      BaseIsToken(s, n);
    }
    if StartsFraction(s, n) {
      FractionIsToken(s, n);
    }
    FractionOfLonger(s, more, n);
    if StartsFraction(w, n) {
      FractionIsToken(w, n);
    } else {
      NumberIsLongest(w, n);
    }
  }

  lemma FloatAndDigit(s: string, n: nat)
    requires n < |s| && IsFloat(s[..n]) && IsDigit(s[n])
    ensures IsToken(Float, s[..n + 1])
  {
    var dot: nat :| IsFloatAt(s[..n], dot);
    assert forall i | 0 <= i < n :: s[..n + 1][i] == s[..n][i];
    assert IsFloatAt(s[..n + 1], dot);
  }

  lemma StillFloat(s: string, more: string, n: nat)
    requires LongestMatch(s, Float, n) && n < |s|
    ensures LongestMatch(s + more, Float, n)
  {
    var w := s + more;
    assert w[..n] == s[..n];
    var dot: nat :| IsFloatAt(s[..n], dot);
    if IsDigit(s[n]) {
      FloatAndDigit(s, n);
    } else {
      FloatIsLongest(w, dot, n);
    }
  }

  lemma StillBased(s: string, more: string, t: TokenType, n: nat)
    requires LongestMatch(s, t, n) && n < |s| && (t.HexDecimal? || t.Binary?)
    ensures LongestMatch(s + more, t, n)
  {
    var w := s + more;
    assert w[..n] == s[..n];
    assert forall i | 0 <= i < n :: s[..n + 1][i] == s[..n][i];
    assert !IsToken(t, s[..n + 1]);
    if t.HexDecimal? {
      HexIsLongest(w, n);
    } else {
      BinaryIsLongest(w, n);
    }
  }

  lemma StillWord(s: string, more: string, n: nat)
    requires LongestMatch(s, Word, n) && n < |s|
    ensures LongestMatch(s + more, Word, n)
  {
    var w := s + more;
    assert w[..n] == s[..n];
    assert forall i | 0 <= i < n :: s[..n][i] == s[i] == w[i];
    assert !IsToken(Word, s[..n + 1]);
    WordIsLongest(w, n);
  }

  lemma StillSymbol(s: string, more: string, n: nat)
    requires LongestMatch(s, Symbol, n) && !Undecided(s, Symbol, n)
    ensures LongestMatch(s + more, Symbol, n)
  {
    var w := s + more;
    assert w[..1] == s[..1];
    if s[0] == '-' {
      assert s[..1] == "-";
      if |s| > 1 {
        assert !IsToken(Number, s[..2]);
      }
    }
    SymbolIsLongest(w);
  }

  /** A decided token stays the longest match whatever follows, unless it lost its fraction. */
  lemma DecidedStays(s: string, more: string, t: TokenType, n: nat)
    requires LongestMatch(s, t, n) && !Undecided(s, t, n)
    ensures LongestMatch(s + more, t, n) <==> !LosesFraction(s, t, n, more)
  {
    assert s[..n][0] == s[0];
    match t
    case Number => StillNumber(s, more, n);
    case Float => StillFloat(s, more, n);
    case HexDecimal => StillBased(s, more, t, n);
    case Binary => StillBased(s, more, t, n);
    case Word => StillWord(s, more, n);
    case Symbol => StillSymbol(s, more, n);
    case Space => WhitespaceIsLongest(s + more);
    case Tab => WhitespaceIsLongest(s + more);
    case CarriageReturn => WhitespaceIsLongest(s + more);
    case NewLine => WhitespaceIsLongest(s + more);
    case SingleQuoteString => StillQuoted(s, more, n);
    case DoubleQuoteString => StillQuoted(s, more, n);
    case DiagonalQuoteString => StillQuoted(s, more, n);
  }

  /** The tokens that come out before the reader fails are those of every longer stream, unless the last is a number
      that lost its fraction to the failure. */
  lemma {:induction false} TokensOutliveTheFailure(input: string, code: nat, toks: seq<Token>, more: string)
    requires Lexed(input, Failing(code), toks)
    ensures Lexed(input + more, Eof, toks) <==> !LastLosesFraction(input, toks, more)
  {
    hide TokenAt, LongestMatch, Undecided;
    if toks != [] {
      var (before, last) := (toks[..|toks| - 1], toks[|toks| - 1]);
      TokensOutliveTheFailure(input, code, before, more);
      FollowsInLonger(input, code, before, last, more);
      assert before + [last] == toks;
    }
  }

  lemma FollowsInLonger(input: string, code: nat, before: seq<Token>, token: Token, more: string)
    requires Lexed(input, Failing(code), before) && Follows(input, Failing(code), before, token)
    ensures !LastLosesFraction(input, before, more)
    ensures Follows(input + more, Eof, before, token) <==> !LastLosesFraction(input, before + [token], more)
  {
    hide LongestMatch, Undecided, Lexed, PositionAfter, Contents;
    ContentsArePrefix(input, Failing(code), before);
    LexedOneMore(input, Failing(code), before, token);
    ContentsArePrefix(input, Failing(code), before + [token]);
    var (at, n) := (|Contents(before)|, |token.content|);
    var s := input[at..];
    assert (input + more)[at..] == s + more && (input + more)[..at] == input[..at];
    assert s[..n] == (s + more)[..n];
    assert Remaining(input, before + [token]) == s[n..];
    DecidedStays(s, more, token.tokenType, n);
  }

  lemma FirstFollows(input: string, end: End, token: Token)
    requires LongestMatch(input, token.tokenType, |token.content|) && token.position == PositionAfter("")
    requires token.content == input[..|token.content|]
    requires end.Failing? ==> !Undecided(input, token.tokenType, |token.content|)
    ensures Follows(input, end, [], token) && Lexed(input, end, []) && Contents([]) == ""
    ensures |token.content| <= |input|
  {
    hide IsToken, Undecided, PositionAfter;
    assert input[0..] == input && input[..0] == "";
  }

  lemma FirstToken(input: string, end: End, token: Token)
    requires LongestMatch(input, token.tokenType, |token.content|) && token.position == PositionAfter("")
    requires token.content == input[..|token.content|]
    requires end.Failing? ==> !Undecided(input, token.tokenType, |token.content|)
    ensures Lexed(input, end, [token]) && Remaining(input, [token]) == input[|token.content|..]
  {
    hide LongestMatch, Undecided, PositionAfter, Follows, Lexed, Contents;
    FirstFollows(input, end, token);
    LexedOneMore(input, end, [], token);
    assert [] + [token] == [token] && "" + token.content == token.content;
  }

  lemma OneIsNumber()
    ensures LongestMatch("1.", Number, 1) && !Undecided("1.", Number, 1)
  {
    NumberIsLongest("1.", 1);
  }

  lemma OnePointFiveIsFloat()
    ensures LongestMatch("1.5", Float, 3)
  {
    assert "1.5"[..3] == "1.5";
    assert IsFloatAt("1.5", 1);
    FloatIsLongest("1.5", 1, 3);
  }

  /** The one failing case: a reader that gives "1." and then fails makes a run return the number 1 and its error,
      where a reader that goes on with a 5 gives a float and no such number. */
  lemma FractionIsLost(code: nat)
    ensures var toks := [Token(Number, PositionAfter(""), "1")];
            && Ran("1.", Failing(code), toks, Somes(toks), Some(ReadError(code)))
            && !Lexed("1.5", Eof, toks)
            && Lexed("1.5", Eof, [Token(Float, PositionAfter(""), "1.5")])
  {
    hide LongestMatch, Undecided, PositionAfter, Lexed, Contents, Remaining;
    var (number, float) := (Token(Number, PositionAfter(""), "1"), Token(Float, PositionAfter(""), "1.5"));
    assert "1."[..1] == "1" && "1."[1..] == "." && "1.5"[..3] == "1.5" && "1." + "5" == "1.5";
    OneIsNumber();
    FirstToken("1.", Failing(code), number);
    TokensOutliveTheFailure("1.", code, [number], "5");
    OnePointFiveIsFloat();
    FirstToken("1.5", Eof, float);
  }
}
