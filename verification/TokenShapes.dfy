/** What each token looks like, byte by byte and without the predicates the tokenizer itself works with, and what a run
    over one such token gives (tokenizer/state.go). */
module TokenShapes {
  import opened Common
  import opened ByteStreams
  import opened TokenGrammar
  import opened Tokenizer
  import opened Lexing

  // ---------- Words and symbols ----------

  lemma WordShape(w: string)
    ensures IsToken(Word, w) <==>
              && w != "" && ('a' <= w[0] <= 'z' || 'A' <= w[0] <= 'Z')
              && forall i | 0 <= i < |w| ::
                   'a' <= w[i] <= 'z' || 'A' <= w[i] <= 'Z' || '0' <= w[i] <= '9' || w[i] == '_'
  {
    forall i | 0 <= i < |w|
      ensures IsWordChar(w[i]) <==>
                'a' <= w[i] <= 'z' || 'A' <= w[i] <= 'Z' || '0' <= w[i] <= '9' || w[i] == '_'
    {
    }
  }

  lemma WhitespaceShape(w: string)
    ensures (IsToken(Space, w) <==> w == " ") && (IsToken(Tab, w) <==> w == "\t")
    ensures (IsToken(CarriageReturn, w) <==> w == "\r") && (IsToken(NewLine, w) <==> w == "\n")
  {
  }

  /** One byte that nothing else starts with; a lone minus sign is one, and so is an underscore. */
  lemma SymbolShape(w: string)
    ensures IsToken(Symbol, w) <==>
              && |w| == 1 && w[0] !in " \t\r\n'\"`"
              && !('a' <= w[0] <= 'z') && !('A' <= w[0] <= 'Z') && !('0' <= w[0] <= '9')
  {
  }

  // ---------- Numbers ----------

  predicate MinusOrNot(s: string) {
    s == "" || s == "-"
  }

  predicate DecimalDigits(s: string) {
    s != "" && forall c | c in s :: '0' <= c <= '9'
  }

  predicate HexadecimalDigits(s: string) {
    s != "" && forall c | c in s :: '0' <= c <= '9' || 'a' <= c <= 'f' || 'A' <= c <= 'F'
  }

  predicate BinaryDigits(s: string) {
    s != "" && forall c | c in s :: c in "01"
  }

  ghost predicate NumberOf(w: string, sign: string, digits: string) {
    w == sign + digits && MinusOrNot(sign) && DecimalDigits(digits)
  }

  ghost predicate FloatOf(w: string, sign: string, whole: string, fraction: string) {
    w == sign + whole + "." + fraction && MinusOrNot(sign) && DecimalDigits(whole) && DecimalDigits(fraction)
  }

  ghost predicate HexOf(w: string, sign: string, prefix: string, digits: string) {
    w == sign + prefix + digits && MinusOrNot(sign) && (prefix == "0x" || prefix == "0X") && HexadecimalDigits(digits)
  }

  ghost predicate BinaryOf(w: string, sign: string, prefix: string, digits: string) {
    w == sign + prefix + digits && MinusOrNot(sign) && (prefix == "0b" || prefix == "0B") && BinaryDigits(digits)
  }

  lemma SignAndRest(w: string) returns (sign: string, rest: string)
    ensures w == sign + rest && MinusOrNot(sign) && |sign| == Sign(w) && rest == w[Sign(w)..]
  {
    sign, rest := w[..Sign(w)], w[Sign(w)..];
  }

  lemma SignOf(sign: string, rest: string)
    requires MinusOrNot(sign) && rest != "" && rest[0] != '-'
    ensures Sign(sign + rest) == |sign|
    ensures forall i | 0 <= i < |rest| :: (sign + rest)[|sign| + i] == rest[i]
  {
  }

  lemma NumberShape(w: string)
    ensures IsToken(Number, w) <==> exists sign, digits :: NumberOf(w, sign, digits)
  {
    if IsToken(Number, w) {
      var sign, digits := SignAndRest(w);
      assert NumberOf(w, sign, digits);
    }
    if sign, digits :| NumberOf(w, sign, digits) {
      assert digits[0] in digits;
      SignOf(sign, digits);
      forall i | Sign(w) <= i < |w|
        ensures IsDigit(w[i])
      {
        assert w[i] == digits[i - |sign|] && w[i] in digits;
      }
    }
  }

  lemma FloatShape(w: string)
    ensures IsToken(Float, w) <==> exists sign, whole, fraction :: FloatOf(w, sign, whole, fraction)
  {
    hide FloatOf, IsFloatAt;
    if IsToken(Float, w) {
      var dot: nat :| IsFloatAt(w, dot);
      FloatToParts(w, dot);
    }
    if sign, whole, fraction :| FloatOf(w, sign, whole, fraction) {
      FloatFromParts(w, sign, whole, fraction);
    }
  }

  lemma FloatToParts(w: string, dot: nat)
    requires IsFloatAt(w, dot)
    ensures exists sign, whole, fraction :: FloatOf(w, sign, whole, fraction)
  {
    var (sign, whole, fraction) := (w[..Sign(w)], w[Sign(w)..dot], w[dot + 1..]);
    assert w == sign + whole + "." + fraction;
    assert FloatOf(w, sign, whole, fraction);
  }

  lemma FloatFromParts(w: string, sign: string, whole: string, fraction: string)
    requires FloatOf(w, sign, whole, fraction)
    ensures IsToken(Float, w)
  {
    var rest := whole + "." + fraction;
    assert w == sign + rest && rest[0] == whole[0] && whole[0] in whole;
    SignOf(sign, rest);
    var dot := |sign| + |whole|;
    forall i | Sign(w) <= i < |w| && i != dot
      ensures IsDigit(w[i])
    {
      if i < dot {
        assert w[i] == whole[i - |sign|] && w[i] in whole;
      } else {
        assert w[i] == fraction[i - dot - 1] && w[i] in fraction;
      }
    }
    assert IsFloatAt(w, dot);
  }

  /** Where the parts of a based number lie. */
  lemma BasedParts(w: string, sign: string, prefix: string, digits: string)
    requires w == sign + prefix + digits && MinusOrNot(sign) && |prefix| == 2 && prefix[0] == '0'
    ensures Sign(w) == |sign| && |w| == |sign| + 2 + |digits| && w[|sign|] == '0' && w[|sign| + 1] == prefix[1]
    ensures forall i | |sign| + 2 <= i < |w| :: w[i] in digits
  {
    assert w == sign + (prefix + digits);
    SignOf(sign, prefix + digits);
    forall i | |sign| + 2 <= i < |w|
      ensures w[i] in digits
    {
      assert w[i] == digits[i - |sign| - 2];
    }
  }

  lemma PartsOf(w: string) returns (sign: string, prefix: string, digits: string)
    requires |w| >= Sign(w) + 2
    ensures w == sign + prefix + digits && MinusOrNot(sign)
    ensures prefix == [w[Sign(w)], w[Sign(w) + 1]] && digits == w[Sign(w) + 2..]
  {
    sign, prefix, digits := w[..Sign(w)], [w[Sign(w)], w[Sign(w) + 1]], w[Sign(w) + 2..];
  }

  lemma HexShape(w: string)
    ensures IsToken(HexDecimal, w) <==> exists sign, prefix, digits :: HexOf(w, sign, prefix, digits)
  {
    if IsToken(HexDecimal, w) {
      var sign, prefix, digits := PartsOf(w);
      assert HexOf(w, sign, prefix, digits);
    }
    if sign, prefix, digits :| HexOf(w, sign, prefix, digits) {
      BasedParts(w, sign, prefix, digits);
    }
  }

  lemma BinaryShape(w: string)
    ensures IsToken(Binary, w) <==> exists sign, prefix, digits :: BinaryOf(w, sign, prefix, digits)
  {
    if IsToken(Binary, w) {
      var sign, prefix, digits := PartsOf(w);
      assert BinaryOf(w, sign, prefix, digits);
    }
    if sign, prefix, digits :| BinaryOf(w, sign, prefix, digits) {
      BasedParts(w, sign, prefix, digits);
    }
  }

  // ---------- Quoted strings ----------

  /** The bytes from i to n are pieces: with escapes a backslash and the byte after it, whatever that is; otherwise one
      byte that is no quote. */
  predicate Pieces(w: string, i: nat, n: nat, quote: char, escapes: bool)
    requires i <= n <= |w|
    decreases n - i
  {
    if i == n then true
    else if escapes && w[i] == '\\' then i + 2 <= n && Pieces(w, i + 2, n, quote, escapes)
    else w[i] != quote && Pieces(w, i + 1, n, quote, escapes)
  }

  /** Pieces read from the front are what the count of backslashes says from behind. */
  lemma {:induction false} PiecesAreUnescaped(w: string, i: nat, n: nat, quote: char, escapes: bool)
    requires 1 <= i <= n <= |w| && !Escaped(w, i, escapes) && quote != '\\'
    ensures Pieces(w, i, n, quote, escapes) <==>
              !Escaped(w, n, escapes) && forall j | i <= j < n && w[j] == quote :: Escaped(w, j, escapes)
    decreases n - i
  {
    if i < n && escapes && w[i] == '\\' {
      assert Escaped(w, i + 1, escapes);
      if i + 2 <= n {
        assert !Escaped(w, i + 2, escapes);
        PiecesAreUnescaped(w, i + 2, n, quote, escapes);
        assert forall j | i <= j < n && w[j] == quote :: j == i + 1 || j >= i + 2;
      }
    } else if i < n {
      assert !Escaped(w, i + 1, escapes);
      PiecesAreUnescaped(w, i + 1, n, quote, escapes);
    }
  }

  predicate Between(w: string, quote: char) {
    |w| >= 2 && w[0] == quote && w[|w| - 1] == quote
  }

  /** Single and double quotes know escapes, backticks do not. */
  lemma QuotedShape(w: string)
    ensures IsToken(SingleQuoteString, w) <==> Between(w, '\'') && Pieces(w, 1, |w| - 1, '\'', true)
    ensures IsToken(DoubleQuoteString, w) <==> Between(w, '"') && Pieces(w, 1, |w| - 1, '"', true)
    ensures IsToken(DiagonalQuoteString, w) <==> Between(w, '`') && Pieces(w, 1, |w| - 1, '`', false)
  {
    if |w| >= 2 {
      PiecesAreUnescaped(w, 1, |w| - 1, '\'', true);
      PiecesAreUnescaped(w, 1, |w| - 1, '"', true);
      PiecesAreUnescaped(w, 1, |w| - 1, '`', false);
    }
  }

  // ---------- Runs over one token ----------

  lemma WholeIsLongest(t: TokenType, w: string)
    requires IsToken(t, w)
    ensures LongestMatch(w, t, |w|)
  {
    TypeIsUnique(t, t, w);
    assert w[..|w|] == w;
  }

  lemma WholeIsLexed(t: TokenType, w: string)
    requires IsToken(t, w)
    ensures Ran(w, Eof, [Token(t, Position(0, 0, 1), w)], [Some(Token(t, Position(0, 0, 1), w))], None)
  {
    hide LongestMatch, Undecided, Lexed, Contents, Remaining;
    var token := Token(t, Position(0, 0, 1), w);
    WholeIsLongest(t, w);
    assert w[..|w|] == w && w[|w|..] == "";
    FirstToken(w, Eof, token);
    assert Somes([token]) == [Some(token)];
  }

  /** Whatever the token, a run over its bytes gives it alone, standing at the start. */
  lemma OneTokenComesBack(t: TokenType, w: string, toks: seq<Token>, result: seq<Option<Token>>, e: Option<Error>)
    requires IsToken(t, w) && Ran(w, Eof, toks, result, e)
    ensures result == [Some(Token(t, Position(0, 0, 1), w))] && e.None?
  {
    hide Ran;
    WholeIsLexed(t, w);
    var token := Token(t, Position(0, 0, 1), w);
    OutcomeIsUnique(w, Eof, toks, result, e, [token], [Some(token)], None);
  }

  lemma WordComesBack(w: string, toks: seq<Token>, result: seq<Option<Token>>, e: Option<Error>)
    requires w != "" && ('a' <= w[0] <= 'z' || 'A' <= w[0] <= 'Z')
    requires forall i | 0 <= i < |w| ::
               'a' <= w[i] <= 'z' || 'A' <= w[i] <= 'Z' || '0' <= w[i] <= '9' || w[i] == '_'
    requires Ran(w, Eof, toks, result, e)
    ensures result == [Some(Token(Word, Position(0, 0, 1), w))] && e.None?
  {
    hide Ran;
    WordShape(w);
    OneTokenComesBack(Word, w, toks, result, e);
  }
}
