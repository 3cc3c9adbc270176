/** The tokens of tokenizer/state.go as languages, and the longest-match reading of a byte sequence. */
module TokenGrammar {
  datatype TokenType =
    | Space
    | Tab
    | CarriageReturn
    | NewLine
    | Number
    | Float
    | HexDecimal
    | Binary
    | SingleQuoteString
    | DoubleQuoteString
    | DiagonalQuoteString
    | Word
    | Symbol

  predicate IsWhitespace(c: char) {
    c == ' ' || c == '\t' || c == '\r' || c == '\n'
  }

  predicate IsDigit(c: char) {
    '0' <= c <= '9'
  }

  predicate IsAlpha(c: char) {
    'a' <= c <= 'z' || 'A' <= c <= 'Z'
  }

  predicate IsWordChar(c: char) {
    IsAlpha(c) || IsDigit(c) || c == '_'
  }

  predicate IsHexDigit(c: char) {
    IsDigit(c) || 'a' <= c <= 'f' || 'A' <= c <= 'F'
  }

  predicate IsBinaryDigit(c: char) {
    c == '0' || c == '1'
  }

  predicate IsQuote(c: char) {
    c == '\'' || c == '"' || c == '`'
  }

  // ---------- The language of each token type ----------

  /** Length of an optional minus sign. */
  function Sign(w: string): nat {
    if w != "" && w[0] == '-' then 1 else 0
  }

  ghost predicate IsNumber(w: string) {
    |w| > Sign(w) && forall i | Sign(w) <= i < |w| :: IsDigit(w[i])
  }

  /** Digits, one dot, digits. */
  ghost predicate IsFloatAt(w: string, dot: nat) {
    Sign(w) < dot < |w| - 1 && w[dot] == '.' && forall i | Sign(w) <= i < |w| && i != dot :: IsDigit(w[i])
  }

  ghost predicate IsFloat(w: string) {
    exists dot: nat :: IsFloatAt(w, dot)
  }

  predicate IsHexPrefix(c: char) {
    c == 'x' || c == 'X'
  }

  predicate IsBinaryPrefix(c: char) {
    c == 'b' || c == 'B'
  }

  ghost predicate IsHex(w: string) {
    var g := Sign(w);
    |w| >= g + 3 && w[g] == '0' && IsHexPrefix(w[g + 1]) && forall i | g + 2 <= i < |w| :: IsHexDigit(w[i])
  }

  ghost predicate IsBinary(w: string) {
    var g := Sign(w);
    |w| >= g + 3 && w[g] == '0' && IsBinaryPrefix(w[g + 1]) && forall i | g + 2 <= i < |w| :: IsBinaryDigit(w[i])
  }

  ghost predicate IsWord(w: string) {
    w != "" && IsAlpha(w[0]) && forall i | 0 <= i < |w| :: IsWordChar(w[i])
  }

  /** An odd run of backslashes, after the opening quote, ends just before position i. */
  predicate Escaped(w: string, i: nat, escapes: bool)
    requires i <= |w|
  {
    escapes && i >= 2 && w[i - 1] == '\\' && !Escaped(w, i - 1, escapes)
  }

  /** Backticks know no escapes. */
  predicate Escapes(quote: char) {
    quote != '`'
  }

  /** A quote, no unescaped quote, and a closing unescaped quote. */
  ghost predicate IsQuoted(w: string, quote: char) {
    && |w| >= 2 && w[0] == quote && w[|w| - 1] == quote && !Escaped(w, |w| - 1, Escapes(quote))
    && forall i | 1 <= i < |w| - 1 && w[i] == quote :: Escaped(w, i, Escapes(quote))
  }

  ghost predicate IsSymbol(w: string) {
    |w| == 1 && !IsWhitespace(w[0]) && !IsDigit(w[0]) && !IsAlpha(w[0]) && !IsQuote(w[0])
  }

  ghost predicate IsToken(t: TokenType, w: string) {
    match t
    case Space => w == " "
    case Tab => w == "\t"
    case CarriageReturn => w == "\r"
    case NewLine => w == "\n"
    case Number => IsNumber(w)
    case Float => IsFloat(w)
    case HexDecimal => IsHex(w)
    case Binary => IsBinary(w)
    case SingleQuoteString => IsQuoted(w, '\'')
    case DoubleQuoteString => IsQuoted(w, '"')
    case DiagonalQuoteString => IsQuoted(w, '`')
    case Word => IsWord(w)
    case Symbol => IsSymbol(w)
  }

  // ---------- Longest match ----------

  /** The first n bytes are a token of type t, and no longer start is a token of any type. */
  ghost predicate LongestMatch(s: string, t: TokenType, n: nat) {
    && 0 < n <= |s| && IsToken(t, s[..n])
    && forall t': TokenType, m: nat | n < m <= |s| :: !IsToken(t', s[..m])
  }

  ghost predicate NoToken(s: string) {
    forall t: TokenType, n: nat | 0 < n <= |s| :: !IsToken(t, s[..n])
  }

  /** The languages are disjoint. */
  lemma TypeIsUnique(t: TokenType, t': TokenType, w: string)
    requires IsToken(t, w) && IsToken(t', w)
    ensures t == t' && w != ""
  {
    if IsFloat(w) {
      var dot: nat :| IsFloatAt(w, dot);
      assert !IsDigit(w[dot]);
    }
    if IsHex(w) || IsBinary(w) {
      assert !IsDigit(w[Sign(w) + 1]) && w[Sign(w) + 1] != '.';
    }
  }

  lemma LongestIsUnique(s: string, t: TokenType, n: nat, t': TokenType, n': nat)
    requires LongestMatch(s, t, n) && LongestMatch(s, t', n')
    ensures t == t' && n == n'
  {
    TypeIsUnique(t, t', s[..n]);
  }

  // ---------- When the first n bytes are the longest match ----------

  /** A zero that starts a hexadecimal or binary number rather than a decimal one. */
  predicate StartsBased(s: string, n: nat) {
    && n == Sign(s) + 1 && n + 1 < |s| && s[n - 1] == '0'
    && ((IsHexPrefix(s[n]) && IsHexDigit(s[n + 1])) || (IsBinaryPrefix(s[n]) && IsBinaryDigit(s[n + 1])))
  }

  predicate StartsFraction(s: string, n: nat) {
    n + 1 < |s| && s[n] == '.' && IsDigit(s[n + 1])
  }

  lemma NumberIsLongest(s: string, n: nat)
    requires Sign(s) < n <= |s| && forall i | Sign(s) <= i < n :: IsDigit(s[i])
    requires n < |s| ==> !IsDigit(s[n])
    requires !StartsBased(s, n) && !StartsFraction(s, n)
    ensures LongestMatch(s, Number, n)
  {
    forall t: TokenType, m: nat | n < m <= |s|
      ensures !IsToken(t, s[..m])
    {
      var w := s[..m];
      assert Sign(w) == Sign(s) && w[n] == s[n];
    }
    assert Sign(s[..n]) == Sign(s);
  }

  lemma FloatIsLongest(s: string, dot: nat, n: nat)
    requires n <= |s| && IsFloatAt(s[..n], dot)
    requires n < |s| ==> !IsDigit(s[n])
    ensures LongestMatch(s, Float, n)
  {
    forall t: TokenType, m: nat | n < m <= |s|
      ensures !IsToken(t, s[..m])
    {
      var w := s[..m];
      assert Sign(w) == Sign(s[..n]) && w[n] == s[n] && w[dot] == s[..n][dot];
      assert IsDigit(s[..n][Sign(w)]) && w[Sign(w)] == s[..n][Sign(w)];
      if Sign(w) + 1 < dot {
        assert w[Sign(w) + 1] == s[..n][Sign(w) + 1];
      }
    }
  }

  lemma HexIsLongest(s: string, n: nat)
    requires n <= |s| && IsHex(s[..n])
    requires n < |s| ==> !IsHexDigit(s[n])
    ensures LongestMatch(s, HexDecimal, n)
  {
    forall t: TokenType, m: nat | n < m <= |s|
      ensures !IsToken(t, s[..m])
    {
      var w := s[..m];
      assert Sign(w) == Sign(s[..n]) && w[n] == s[n];
      assert w[Sign(w)] == s[..n][Sign(w)] && w[Sign(w) + 1] == s[..n][Sign(w) + 1];
    }
  }

  lemma BinaryIsLongest(s: string, n: nat)
    requires n <= |s| && IsBinary(s[..n])
    requires n < |s| ==> !IsBinaryDigit(s[n])
    ensures LongestMatch(s, Binary, n)
  {
    forall t: TokenType, m: nat | n < m <= |s|
      ensures !IsToken(t, s[..m])
    {
      var w := s[..m];
      assert Sign(w) == Sign(s[..n]) && w[n] == s[n];
      assert w[Sign(w)] == s[..n][Sign(w)] && w[Sign(w) + 1] == s[..n][Sign(w) + 1];
    }
  }

  lemma WordIsLongest(s: string, n: nat)
    requires 0 < n <= |s| && IsAlpha(s[0]) && forall i | 0 <= i < n :: IsWordChar(s[i])
    requires n < |s| ==> !IsWordChar(s[n])
    ensures LongestMatch(s, Word, n)
  {
    forall t: TokenType, m: nat | n < m <= |s|
      ensures !IsToken(t, s[..m])
    {
      var w := s[..m];
      assert w[0] == s[0] && w[n] == s[n];
    }
  }

  function WhitespaceType(c: char): TokenType
    requires IsWhitespace(c)
  {
    if c == ' ' then Space else if c == '\t' then Tab else if c == '\r' then CarriageReturn else NewLine
  }

  lemma WhitespaceIsLongest(s: string)
    requires s != "" && IsWhitespace(s[0])
    ensures LongestMatch(s, WhitespaceType(s[0]), 1)
  {
    forall t: TokenType, m: nat | 1 < m <= |s|
      ensures !IsToken(t, s[..m])
    {
      assert s[..m][0] == s[0] && |s[..m]| == m;
    }
    assert s[..1] == [s[0]];
  }

  /** A byte that starts nothing longer: no whitespace, digit, letter or quote, and no minus before a digit. */
  lemma SymbolIsLongest(s: string)
    requires s != "" && IsSymbol(s[..1])
    requires s[0] == '-' && |s| > 1 ==> !IsDigit(s[1])
    ensures LongestMatch(s, Symbol, 1)
  {
    forall t: TokenType, m: nat | 1 < m <= |s|
      ensures !IsToken(t, s[..m])
    {
      var w := s[..m];
      assert w[0] == s[0] == s[..1][0] && w[1] == s[1];
    }
  }

  lemma {:induction false} EscapedInPrefix(w: string, s: string, i: nat, escapes: bool)
    requires i <= |w| <= |s| && w == s[..|w|]
    ensures Escaped(w, i, escapes) == Escaped(s, i, escapes)
    decreases i
  {
    if i >= 2 {
      EscapedInPrefix(w, s, i - 1, escapes);
    }
  }

  function QuoteType(quote: char): TokenType
    requires IsQuote(quote)
  {
    if quote == '\'' then SingleQuoteString else if quote == '"' then DoubleQuoteString else DiagonalQuoteString
  }

  /** Nothing between the opening quote and position n closes the string. */
  ghost predicate Unclosed(s: string, n: nat)
    requires s != "" && n <= |s|
  {
    forall i | 1 <= i < n && s[i] == s[0] :: Escaped(s, i, Escapes(s[0]))
  }

  /** A quoted string in s ends at its first unescaped quote and nowhere else. */
  lemma QuotedUpTo(s: string, t: TokenType, m: nat)
    requires 0 < m <= |s| && IsQuote(s[0])
    ensures IsToken(t, s[..m]) <==>
              t == QuoteType(s[0]) && m >= 2 && s[m - 1] == s[0] && Unclosed(s, m - 1)
              && !Escaped(s, m - 1, Escapes(s[0]))
  {
    var w := s[..m];
    assert w[0] == s[0];
    forall i: nat | i < m
      ensures w[i] == s[i] && Escaped(w, i, Escapes(s[0])) == Escaped(s, i, Escapes(s[0]))
    {
      EscapedInPrefix(w, s, i, Escapes(s[0]));
    }
  }

  lemma QuotedIsLongest(s: string, n: nat)
    requires 2 <= n <= |s| && IsQuote(s[0])
    requires s[n - 1] == s[0] && Unclosed(s, n - 1) && !Escaped(s, n - 1, Escapes(s[0]))
    ensures LongestMatch(s, QuoteType(s[0]), n)
  {
    QuotedUpTo(s, QuoteType(s[0]), n);
    forall t: TokenType, m: nat | n < m <= |s|
      ensures !IsToken(t, s[..m])
    {
      QuotedUpTo(s, t, m);
    }
  }

  /** Some byte always makes a token, except an opening quote that is never closed. */
  lemma StuckOnlyOnOpenQuote(s: string)
    requires s != ""
    ensures NoToken(s) <==> IsQuote(s[0]) && Unclosed(s, |s|)
  {
    if IsQuote(s[0]) {
      if Unclosed(s, |s|) {
        forall t: TokenType, n: nat | 0 < n <= |s|
          ensures !IsToken(t, s[..n])
        {
          QuotedUpTo(s, t, n);
        }
      } else {
        var n := FirstClose(s);
        QuotedUpTo(s, QuoteType(s[0]), n + 1);
      }
    } else {
      var w := s[..1];
      assert w[0] == s[0];
      assert IsToken(if IsWhitespace(s[0]) then WhitespaceType(s[0]) else if IsDigit(s[0]) then Number
                     else if IsAlpha(s[0]) then Word else Symbol, w);
    }
  }

  lemma FirstClose(s: string) returns (n: nat)
    requires s != "" && !Unclosed(s, |s|)
    ensures 1 <= n < |s| && s[n] == s[0] && Unclosed(s, n) && !Escaped(s, n, Escapes(s[0]))
  {
    n := 1;
    while s[n] != s[0] || Escaped(s, n, Escapes(s[0]))
      invariant 1 <= n < |s| && Unclosed(s, n)
      decreases |s| - n
    {
      n := n + 1;
    }
  }
}
