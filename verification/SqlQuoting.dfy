/** Quoted SQL identifiers (postgres/util.go), against a reader for PostgreSQL's quoted-identifier syntax. */
module SqlQuoting {
  import opened Common

  const NUL := '\0'
  const QUOTE := '"'

  /** strings.ReplaceAll for a one-character pattern. */
  function ReplaceAll(s: string, from: char, to: string): string {
    if s == "" then ""
    else (if s[0] == from then to else [s[0]]) + ReplaceAll(s[1..], from, to)
  }

  /** strings.Join. */
  function Join(parts: seq<string>, separator: string): string {
    if |parts| == 0 then ""
    else if |parts| == 1 then parts[0]
    else parts[0] + separator + Join(parts[1..], separator)
  }

  function QuoteIdent(col: string): string {
    "\"" + ReplaceAll(ReplaceAll(col, NUL, ""), QUOTE, "\"\"") + "\""
  }

  function QuoteEach(columns: seq<string>): seq<string> {
    seq(|columns|, i requires 0 <= i < |columns| => QuoteIdent(columns[i]))
  }

  method QuoteIdents(columns: seq<string>) returns (r: string)
    ensures r == Join(QuoteEach(columns), ", ")
  {
    var quoted := new string[|columns|];
    for i := 0 to |columns|
      invariant forall j | 0 <= j < i :: quoted[j] == QuoteIdent(columns[j])
    {
      quoted[i] := QuoteIdent(columns[i]);
    }
    assert quoted[..] == QuoteEach(columns);
    r := Join(quoted[..], ", ");
  }

  /** No columns, no list; otherwise the parentheses hold a list that reads back as the columns, less NULs. */
  method OnConflict(columns: seq<string>) returns (r: string)
    ensures r == OnConflictClause(columns)
    ensures columns == [] ==> r == "ON CONFLICT"
    ensures columns != [] ==>
              |r| > |CONFLICT_OPEN| && CONFLICT_OPEN <= r && r[|r| - 1] == ')'
              && ReadIdents(r[|CONFLICT_OPEN|..|r| - 1]) == Some(DropNuls(columns))
  {
    if |columns| == 0 {
      return "ON CONFLICT";
    }
    var idents := QuoteIdents(columns);
    r := "ON CONFLICT (" + idents + ")";
    ReadIdentsUndoesQuoting(columns);
    assert r[|CONFLICT_OPEN|..|r| - 1] == idents;
  }

  const CONFLICT_OPEN := "ON CONFLICT ("

  ghost function OnConflictClause(columns: seq<string>): string {
    if columns == [] then "ON CONFLICT" else "ON CONFLICT (" + Join(QuoteEach(columns), ", ") + ")"
  }

  // ---------- The reader: section 4.1.1 of the PostgreSQL documentation ----------

  /** Reads up to the closing quote; two quotes in a row stand for one. Gives the name and what follows. */
  function ReadBody(s: string): Option<(string, string)> {
    if s == "" then None
    else if s[0] != QUOTE then
      match ReadBody(s[1..])
      case None => None
      case Some((name, rest)) => Some(([s[0]] + name, rest))
    else if |s| > 1 && s[1] == QUOTE then
      match ReadBody(s[2..])
      case None => None
      case Some((name, rest)) => Some(([QUOTE] + name, rest))
    else Some(("", s[1..]))
  }

  lemma ReadBodyShrinks(s: string)
    ensures ReadBody(s).Some? ==> |ReadBody(s).value.1| < |s|
  {
  }

  /** One or more quoted identifiers separated by a comma and a space. */
  function ReadIdents(s: string): Option<seq<string>>
    decreases |s|
  {
    if s == "" || s[0] != QUOTE then None
    else
      match ReadBody(s[1..])
      case None => None
      case Some((name, rest)) =>
        ReadBodyShrinks(s[1..]);
        if rest == "" then Some([name])
        else if ", " <= rest then
          match ReadIdents(rest[2..])
          case None => None
          case Some(names) => Some([name] + names)
        else None
  }

  function ReadList(s: string): Option<seq<string>> {
    if s == "" then Some([]) else ReadIdents(s)
  }

  // ---------- Round trip ----------

  function DropNuls(columns: seq<string>): seq<string> {
    seq(|columns|, i requires 0 <= i < |columns| => ReplaceAll(columns[i], NUL, ""))
  }

  /** Reading the doubled text of a name stops at its own closing quote. */
  lemma {:induction false} ReadBodyUndoesDoubling(name: string, rest: string)
    requires rest == "" || rest[0] != QUOTE
    ensures ReadBody(ReplaceAll(name, QUOTE, "\"\"") + "\"" + rest) == Some((name, rest))
  {
    var s := ReplaceAll(name, QUOTE, "\"\"") + "\"" + rest;
    if name == "" {
      assert s[1..] == rest;
    } else {
      ReadBodyUndoesDoubling(name[1..], rest);
      var tail := ReplaceAll(name[1..], QUOTE, "\"\"") + "\"" + rest;
      if name[0] == QUOTE {
        assert s == "\"\"" + tail;
        assert s[2..] == tail;
      } else {
        assert s == [name[0]] + tail;
        assert s[1..] == tail;
      }
      assert [name[0]] + name[1..] == name;
    }
  }

  /** Names survive quoting and joining, whatever quotes, commas or spaces they contain; only NULs are lost. */
  lemma {:induction false} ReadIdentsUndoesQuoting(columns: seq<string>)
    requires columns != []
    ensures ReadIdents(Join(QuoteEach(columns), ", ")) == Some(DropNuls(columns))
  {
    hide ReplaceAll, ReadBody;
    var name := ReplaceAll(columns[0], NUL, "");
    var doubled := ReplaceAll(name, QUOTE, "\"\"");
    var s := Join(QuoteEach(columns), ", ");
    if |columns| == 1 {
      ReadBodyUndoesDoubling(name, "");
      assert s[1..] == doubled + "\"" + "";
      assert DropNuls(columns) == [name];
    } else {
      var more := Join(QuoteEach(columns[1..]), ", ");
      assert QuoteEach(columns)[1..] == QuoteEach(columns[1..]);
      ReadIdentsUndoesQuoting(columns[1..]);
      ReadBodyUndoesDoubling(name, ", " + more);
      assert s[1..] == doubled + "\"" + (", " + more);
      assert (", " + more)[2..] == more;
      assert DropNuls(columns) == [name] + DropNuls(columns[1..]);
    }
  }

  lemma RoundTrip(columns: seq<string>)
    ensures ReadList(Join(QuoteEach(columns), ", ")) == Some(DropNuls(columns))
  {
    if columns == [] {
      assert DropNuls(columns) == [];
    } else {
      ReadIdentsUndoesQuoting(columns);
      assert Join(QuoteEach(columns), ", ") != "";
    }
  }

  lemma FirstNulIsDropped(c: char, s: string)
    ensures ReplaceAll([c] + s, NUL, "") == (if c == '\0' then "" else [c]) + ReplaceAll(s, NUL, "")
    ensures ReplaceAll("", NUL, "") == ""
  {
    assert ([c] + s)[1..] == s;
  }

  /** Dropping NULs drops those and nothing else, byte by byte. */
  lemma {:induction false} OnlyNulsAreDropped(a: string, c: char, b: string)
    ensures ReplaceAll(a + [c] + b, NUL, "")
         == ReplaceAll(a, NUL, "") + (if c == '\0' then "" else [c]) + ReplaceAll(b, NUL, "")
    ensures '\0' !in ReplaceAll(a, NUL, "")
  {
    hide ReplaceAll;
    FirstNulIsDropped(c, b);
    if a == "" {
      assert a + [c] + b == [c] + b;
    } else {
      var tail := a[1..];
      OnlyNulsAreDropped(tail, c, b);
      FirstNulIsDropped(a[0], tail);
      FirstNulIsDropped(a[0], tail + [c] + b);
      assert a == [a[0]] + tail && a + [c] + b == [a[0]] + (tail + [c] + b);
    }
  }

  lemma {:induction false} NoNulIsKept(s: string)
    requires NUL !in s
    ensures ReplaceAll(s, NUL, "") == s
  {
    if s != "" {
      NoNulIsKept(s[1..]);
    }
  }

  /** Two lists quote to the same text exactly when they agree after dropping NULs. */
  lemma SameTextIffSameNames(a: seq<string>, b: seq<string>)
    ensures Join(QuoteEach(a), ", ") == Join(QuoteEach(b), ", ") <==> DropNuls(a) == DropNuls(b)
  {
    RoundTrip(a);
    RoundTrip(b);
    if DropNuls(a) == DropNuls(b) {
      assert |a| == |DropNuls(a)| == |b|;
      forall i | 0 <= i < |a|
        ensures QuoteIdent(a[i]) == QuoteIdent(b[i])
      {
        assert DropNuls(a)[i] == DropNuls(b)[i];
      }
      assert QuoteEach(a) == QuoteEach(b);
    }
  }

  /** On NUL-free lists quoting is injective. */
  lemma Injective(a: seq<string>, b: seq<string>)
    requires forall c | c in a + b :: '\0' !in c
    requires Join(QuoteEach(a), ", ") == Join(QuoteEach(b), ", ")
    ensures a == b
  {
    SameTextIffSameNames(a, b);
    forall i | 0 <= i < |a|
      ensures DropNuls(a)[i] == a[i]
    {
      assert a[i] in a + b;
      NoNulIsKept(a[i]);
    }
    forall i | 0 <= i < |b|
      ensures DropNuls(b)[i] == b[i]
    {
      assert b[i] in a + b;
      NoNulIsKept(b[i]);
    }
    assert DropNuls(a) == a;
    assert DropNuls(b) == b;
  }

  /** The clause determines its conflict columns, the empty list included. */
  lemma ClauseDeterminesColumns(a: seq<string>, b: seq<string>)
    requires OnConflictClause(a) == OnConflictClause(b)
    ensures DropNuls(a) == DropNuls(b)
  {
    var open := |"ON CONFLICT ("|;
    if a == [] || b == [] {
      assert |OnConflictClause([])| < open;
      assert a == b == [];
    } else {
      var (x, y) := (OnConflictClause(a), OnConflictClause(b));
      assert Join(QuoteEach(a), ", ") == x[open..|x| - 1];
      assert Join(QuoteEach(b), ", ") == y[open..|y| - 1];
      SameTextIffSameNames(a, b);
    }
  }
}
