/**
 WHERE clauses (WHERE_AND_ and Escape in src/framework/orm.h) and a reader for them: field, equals
 sign, and either a bare word or a character string literal as in section 5.3 of SQL-92, where two
 quotes inside a literal stand for one.
 */
module Where {
  import opened Common
  import opened Decimal

  /** A floating-point number as std::to_string rounds it: to millionths, unless it is no finite number. */
  datatype Float = Finite(negative: bool, whole: nat, millionths: nat) | Infinite(negative: bool) | NaN(negative: bool)

  datatype Value = TextValue(s: string) | BoolValue(b: bool) | IntValue(n: int) | FloatValue(x: Float)

  datatype Item = Item(field: string, value: Value)

  datatype Literal = Quoted(s: string) | Bare(s: string)

  datatype Clause = Clause(field: string, literal: Literal)

  const AND: string := " and "

  function Escaped(s: string): string
  {
    if s == "" then "" else (if s[0] == '\'' then "''" else [s[0]]) + Escaped(s[1..])
  }

  lemma {:induction false} EscapedConcat(a: string, b: string)
    ensures Escaped(a + b) == Escaped(a) + Escaped(b)
  {
    if a == "" {
      assert a + b == b;
    } else {
      assert (a + b)[1..] == a[1..] + b;
      EscapedConcat(a[1..], b);
    }
  }

  method Escape(s: string) returns (r: string)
    ensures r == Escaped(s)
  {
    r := "";
    for i := 0 to |s|
      invariant r == Escaped(s[..i])
    {
      assert s[..i + 1] == s[..i] + [s[i]];
      EscapedConcat(s[..i], [s[i]]);
      if s[i] == '\'' {
        r := r + "''";
      } else {
        r := r + [s[i]];
      }
    }
    assert s[..|s|] == s;
  }

  /** n with as many leading zeros as make six digits. */
  function SixDigits(n: nat): string
  {
    seq(if |Text(n)| < 6 then 6 - |Text(n)| else 0, _ => '0') + Text(n)
  }

  /** A floating-point number without its sign. */
  function Magnitude(x: Float): string
  {
    match x
    case Finite(_, whole, millionths) => Text(whole) + "." + SixDigits(millionths)
    case Infinite(_) => "inf"
    case NaN(_) => "nan"
  }

  function FloatText(x: Float): string
  {
    (if x.negative then "-" else "") + Magnitude(x)
  }

  function ValueText(v: Value): string
  {
    match v
    case TextValue(s) => "'" + Escaped(s) + "'"
    case BoolValue(b) => if b then "true" else "false"
    case IntValue(n) => IntText(n)
    case FloatValue(x) => FloatText(x)
  }

  /** The recursive template, one instance per argument pair. */
  function WhereAnd(result: string, items: seq<Item>): string
    decreases items
  {
    if items == [] then result
    else if items[0].value == TextValue("") then WhereAnd(result, items[1..])
    else
      var before := if result == "" then "" else result + AND;
      WhereAnd(before + items[0].field + "=" + ValueText(items[0].value), items[1..])
  }

  function LiteralOf(v: Value): Literal
  {
    match v
    case TextValue(s) => Quoted(s)
    case BoolValue(b) => Bare(if b then "true" else "false")
    case IntValue(n) => Bare(IntText(n))
    case FloatValue(x) => Bare(FloatText(x))
  }

  /** What the clause is meant to say: the items in order, without empty texts. */
  function Meaning(items: seq<Item>): seq<Clause>
  {
    if items == [] then []
    else if items[0].value == TextValue("") then Meaning(items[1..])
    else [Clause(items[0].field, LiteralOf(items[0].value))] + Meaning(items[1..])
  }

  predicate IdentChar(c: char)
  {
    'a' <= c <= 'z' || 'A' <= c <= 'Z' || '0' <= c <= '9' || c == '_' || c == '.'
  }

  predicate IsIdent(s: string)
  {
    s != "" && forall i | 0 <= i < |s| :: IdentChar(s[i])
  }

  // ---- The reader -------------------------------------------------------------------------------

  /** The longest start of `s` made of identifier characters. */
  function Ident(s: string): (t: string)
    ensures |t| <= |s|
  {
    if s == "" || !IdentChar(s[0]) then "" else [s[0]] + Ident(s[1..])
  }

  /** The longest start of `s` without a space. */
  function Word(s: string): (t: string)
    ensures |t| <= |s|
  {
    if s == "" || s[0] == ' ' then "" else [s[0]] + Word(s[1..])
  }

  /** The rest of a string literal after its opening quote: its value and what follows it. */
  function ReadString(s: string): (r: Option<(string, string)>)
    ensures r.Some? ==> |r.value.1| < |s|
  {
    if s == "" then None
    else if s[0] != '\'' then
      match ReadString(s[1..])
      case None => None
      case Some(p) => Some(([s[0]] + p.0, p.1))
    else if |s| >= 2 && s[1] == '\'' then
      match ReadString(s[2..])
      case None => None
      case Some(p) => Some((['\''] + p.0, p.1))
    else Some(("", s[1..]))
  }

  function ReadLiteral(s: string): (r: Option<(Literal, string)>)
    ensures r.Some? ==> |r.value.1| < |s|
  {
    if s != "" && s[0] == '\'' then
      match ReadString(s[1..])
      case None => None
      case Some(p) => Some((Quoted(p.0), p.1))
    else
      var w := Word(s);
      if w == "" then None else Some((Bare(w), s[|w|..]))
  }

  function ReadClause(s: string): (r: Option<(Clause, string)>)
    ensures r.Some? ==> |r.value.1| < |s|
  {
    var f := Ident(s);
    if f == "" || |f| == |s| || s[|f|] != '=' then None
    else
      match ReadLiteral(s[|f| + 1..])
      case None => None
      case Some(p) => Some((Clause(f, p.0), p.1))
  }

  function ReadClauses(s: string): Option<seq<Clause>>
    decreases |s|
  {
    match ReadClause(s)
    case None => None
    case Some(p) =>
      if p.1 == "" then Some([p.0])
      else if |p.1| < 5 || p.1[..5] != " and " then None
      else
        match ReadClauses(p.1[5..])
        case None => None
        case Some(rest) => Some([p.0] + rest)
  }

  function Read(s: string): Option<seq<Clause>>
  {
    if s == "" then Some([]) else ReadClauses(s)
  }

  // ---- Reading back -----------------------------------------------------------------------------

  lemma {:induction false} IdentThen(f: string, rest: string)
    requires forall i | 0 <= i < |f| :: IdentChar(f[i])
    requires rest != "" && !IdentChar(rest[0])
    ensures Ident(f + rest) == f
  {
    if f == "" {
      assert f + rest == rest;
    } else {
      assert (f + rest)[1..] == f[1..] + rest;
      IdentThen(f[1..], rest);
    }
  }

  lemma {:induction false} WordThen(w: string, rest: string)
    requires forall i | 0 <= i < |w| :: w[i] != ' '
    requires rest == "" || rest[0] == ' '
    ensures Word(w + rest) == w
  {
    if w == "" {
      assert w + rest == rest;
    } else {
      assert (w + rest)[1..] == w[1..] + rest;
      WordThen(w[1..], rest);
    }
  }

  /** An escaped text between quotes reads as that text, whatever it contains. */
  lemma {:induction false} EscapedReadsBack(v: string, rest: string)
    requires rest == "" || rest[0] != '\''
    ensures ReadString(Escaped(v) + "'" + rest) == Some((v, rest))
  {
    var all := Escaped(v) + "'" + rest;
    if v == "" {
      assert all == "'" + rest;
      assert all[1..] == rest;
    } else {
      EscapedReadsBack(v[1..], rest);
      var tail := Escaped(v[1..]) + "'" + rest;
      if v[0] == '\'' {
        assert all == "''" + tail;
        assert all[2..] == tail;
      } else {
        assert all == [v[0]] + tail;
        assert all[1..] == tail;
      }
      assert [v[0]] + v[1..] == v;
    }
  }

  /** After a clause comes the end or a space. */
  predicate Ends(rest: string)
  {
    rest == "" || rest[0] == ' '
  }

  lemma QuotedReadsBack(v: string, rest: string)
    requires Ends(rest)
    ensures ReadLiteral("'" + Escaped(v) + "'" + rest) == Some((Quoted(v), rest))
  {
    EscapedReadsBack(v, rest);
    assert ("'" + Escaped(v) + "'" + rest)[1..] == Escaped(v) + "'" + rest;
  }

  lemma {:induction false} BareReadsBack(w: string, rest: string)
    requires w != "" && w[0] != '\'' && Ends(rest)
    requires forall i | 0 <= i < |w| :: w[i] != ' '
    ensures ReadLiteral(w + rest) == Some((Bare(w), rest))
  {
    WordThen(w, rest);
    assert (w + rest)[|w|..] == rest;
  }

  lemma NumberIsBare(n: int)
    ensures IntText(n) != "" && IntText(n)[0] != '\''
    ensures forall i | 0 <= i < |IntText(n)| :: IntText(n)[i] != ' '
  {
    var t := Text(if n < 0 then -n else n);
    assert forall i | 0 <= i < |t| :: IsDigit(t[i]);
    assert IntText(n) == (if n < 0 then "-" else "") + t;
  }

  predicate Plain(s: string)
  {
    forall i | 0 <= i < |s| :: s[i] != ' ' && s[i] != '\''
  }

  lemma TextIsPlain(n: nat)
    ensures Plain(Text(n))
  {
    var t := Text(n);
    assert forall i | 0 <= i < |t| :: IsDigit(t[i]);
  }

  lemma FloatIsBare(x: Float)
    ensures Plain(FloatText(x)) && FloatText(x) != ""
  {
    if x.Finite? {
      TextIsPlain(x.whole);
      TextIsPlain(x.millionths);
      assert Plain(SixDigits(x.millionths));
    }
  }

  lemma LiteralReadsBack(v: Value, rest: string)
    requires Ends(rest)
    ensures ReadLiteral(ValueText(v) + rest) == Some((LiteralOf(v), rest))
  {
    match v
    case TextValue(s) => QuotedReadsBack(s, rest);
    case BoolValue(b) => BareReadsBack(if b then "true" else "false", rest);
    case IntValue(n) =>
      NumberIsBare(n);
      BareReadsBack(IntText(n), rest);
    case FloatValue(x) =>
      FloatIsBare(x);
      BareReadsBack(FloatText(x), rest);
  }

  lemma FieldThenLiteral(f: string, text: string, literal: Literal, rest: string)
    requires IsIdent(f) && ReadLiteral(text) == Some((literal, rest))
    ensures ReadClause(f + "=" + text) == Some((Clause(f, literal), rest))
  {
    assert f + "=" + text == f + ("=" + text);
    IdentThen(f, "=" + text);
    assert (f + "=" + text)[|f| + 1..] == text;
  }

  function Rendered(item: Item): string
  {
    item.field + "=" + ValueText(item.value)
  }

  lemma ClauseReadsBack(item: Item, rest: string)
    requires IsIdent(item.field) && Ends(rest)
    ensures ReadClause(Rendered(item) + rest) == Some((Clause(item.field, LiteralOf(item.value)), rest))
  {
    LiteralReadsBack(item.value, rest);
    FieldThenLiteral(item.field, ValueText(item.value) + rest, LiteralOf(item.value), rest);
    assert Rendered(item) + rest == item.field + "=" + (ValueText(item.value) + rest);
  }

  lemma LastClause(text: string, clause: Clause)
    requires ReadClause(text) == Some((clause, ""))
    ensures ReadClauses(text) == Some([clause])
  {
  }

  lemma ClauseThenMore(text: string, clause: Clause, more: string, rest: seq<Clause>)
    requires ReadClause(text) == Some((clause, AND + more)) && ReadClauses(more) == Some(rest)
    ensures ReadClauses(text) == Some([clause] + rest)
  {
    assert (AND + more)[..5] == AND && (AND + more)[5..] == more;
  }

  /** The non-empty items' clauses with " and " between them. */
  function Joined(items: seq<Item>): string
  {
    if items == [] then ""
    else if items[0].value == TextValue("") then Joined(items[1..])
    else if Meaning(items[1..]) == [] then Rendered(items[0])
    else Rendered(items[0]) + " and " + Joined(items[1..])
  }

  /** What has been written so far, ready for one more clause. */
  function Before(result: string): string
  {
    if result == "" then "" else result + " and "
  }

  lemma JoinAfter(result: string, clause: string, more: string)
    requires clause != ""
    ensures Before(Before(result) + clause) + more == Before(result) + (clause + AND + more)
  {
  }

  lemma {:induction false} WhereAndIsJoined(result: string, items: seq<Item>)
    ensures WhereAnd(result, items) == if Meaning(items) == [] then result else Before(result) + Joined(items)
    decreases items
  {
    if items != [] {
      if items[0].value == TextValue("") {
        WhereAndIsJoined(result, items[1..]);
      } else {
        var clause := Rendered(items[0]);
        assert Before(result) + items[0].field + "=" + ValueText(items[0].value) == Before(result) + clause;
        WhereAndIsJoined(Before(result) + clause, items[1..]);
        JoinAfter(result, clause, Joined(items[1..]));
      }
    }
  }

  lemma {:induction false} JoinedReadsBack(items: seq<Item>)
    requires forall i | 0 <= i < |items| :: IsIdent(items[i].field)
    requires Meaning(items) != []
    ensures ReadClauses(Joined(items)) == Some(Meaning(items))
  {
    var item, rest := items[0], items[1..];
    if item.value == TextValue("") {
      JoinedReadsBack(rest);
    } else {
      var clause := Clause(item.field, LiteralOf(item.value));
      if Meaning(rest) == [] {
        ClauseReadsBack(item, "");
        assert Rendered(item) + "" == Rendered(item);
        LastClause(Rendered(item), clause);
        assert [clause] + Meaning(rest) == [clause];
      } else {
        JoinedReadsBack(rest);
        var text := Rendered(item) + (AND + Joined(rest));
        ClauseReadsBack(item, AND + Joined(rest));
        ClauseThenMore(text, clause, Joined(rest), Meaning(rest));
        assert text == Rendered(item) + AND + Joined(rest);
      }
    }
  }

  lemma SomethingRead(text: string, clauses: seq<Clause>)
    requires ReadClauses(text) == Some(clauses)
    ensures Read("" + text) == Some(clauses)
  {
    assert Ident("") == "";
    assert "" + text == text;
  }

  /**
   A WHERE clause built from any values reads back as exactly the given fields and values in order,
   without those that are empty texts, whatever quotes or " and " the texts contain.
   */
  lemma {:induction false} WhereAndReadsBack(items: seq<Item>)
    requires forall i | 0 <= i < |items| :: IsIdent(items[i].field)
    ensures Read(WhereAnd("", items)) == Some(Meaning(items))
  {
    WhereAndIsJoined("", items);
    if Meaning(items) != [] {
      JoinedReadsBack(items);
      SomethingRead(Joined(items), Meaning(items));
    }
  }

  // ---- Values from literals ---------------------------------------------------------------------

  predicate AllDigits(s: string)
  {
    forall i | 0 <= i < |s| :: IsDigit(s[i])
  }

  function Signed(negative: bool, n: nat): int
  {
    if negative then 0 - n else n
  }

  /** An unsigned number, a number with a fraction, or one of the two words for what is no finite number. */
  function Unsigned(negative: bool, s: string): Value
  {
    if s == "inf" then FloatValue(Infinite(negative))
    else if s == "nan" then FloatValue(NaN(negative))
    else
      var whole := Digits(s);
      var rest := s[|whole|..];
      if rest == "" then IntValue(Signed(negative, Decimal.Value(whole)))
      else FloatValue(Finite(negative, Decimal.Value(whole), Decimal.Value(Digits(rest[1..]))))
  }

  /** The value a literal stands for. */
  function ValueOf(literal: Literal): Value
  {
    match literal
    case Quoted(s) => TextValue(s)
    case Bare(s) =>
      if s == "true" then BoolValue(true)
      else if s == "false" then BoolValue(false)
      else if s != "" && s[0] == '-' then Unsigned(true, s[1..])
      else Unsigned(false, s)
  }

  lemma {:induction false} ZerosDoNotCount(k: nat, s: string)
    requires AllDigits(s)
    ensures AllDigits(seq(k, _ => '0') + s) && Decimal.Value(seq(k, _ => '0') + s) == Decimal.Value(s)
    decreases |s|
  {
    var all := seq(k, _ => '0') + s;
    if s != "" {
      ZerosDoNotCount(k, s[..|s| - 1]);
      assert all[..|all| - 1] == seq(k, _ => '0') + s[..|s| - 1];
    } else {
      AllZeros(k);
      assert all == seq(k, _ => '0');
    }
  }

  lemma {:induction false} AllZeros(k: nat)
    ensures AllDigits(seq(k, _ => '0')) && Decimal.Value(seq(k, _ => '0')) == 0
  {
    if k > 0 {
      AllZeros(k - 1);
      assert seq(k, _ => '0')[..k - 1] == seq(k - 1, _ => '0');
    }
  }

  lemma NumberReads(negative: bool, n: nat)
    ensures Unsigned(negative, Text(n)) == IntValue(Signed(negative, n))
  {
    DigitsOf(Text(n), "");
    assert Text(n) + "" == Text(n);
    assert IsDigit(Text(n)[0]);
    ValueOfText(n);
  }

  lemma FractionReads(negative: bool, whole: string, fraction: string)
    requires AllDigits(whole) && AllDigits(fraction) && whole != ""
    ensures Unsigned(negative, whole + "." + fraction)
         == FloatValue(Finite(negative, Decimal.Value(whole), Decimal.Value(fraction)))
  {
    var text := whole + "." + fraction;
    assert text == whole + ("." + fraction) && IsDigit(text[0]);
    DigitsOf(whole, "." + fraction);
    assert ("." + fraction)[1..] == fraction;
    DigitsOf(fraction, "");
    assert fraction + "" == fraction;
  }

  lemma SixDigitsRead(n: nat)
    ensures AllDigits(SixDigits(n)) && Decimal.Value(SixDigits(n)) == n
  {
    ZerosDoNotCount(if |Text(n)| < 6 then 6 - |Text(n)| else 0, Text(n));
    ValueOfText(n);
  }

  lemma MagnitudeReads(x: Float)
    ensures Unsigned(x.negative, Magnitude(x)) == FloatValue(x)
  {
    if x.Finite? {
      FractionReads(x.negative, Text(x.whole), SixDigits(x.millionths));
      SixDigitsRead(x.millionths);
      ValueOfText(x.whole);
    }
  }

  lemma MagnitudeBegins(x: Float)
    ensures Magnitude(x) != "" && (IsDigit(Magnitude(x)[0]) || Magnitude(x)[0] == 'i' || Magnitude(x)[0] == 'n')
  {
    if x.Finite? {
      assert IsDigit(Text(x.whole)[0]);
    }
  }

  /** A minus sign is set off from what follows it. */
  lemma SignReads(negative: bool, s: string)
    requires s != "" && s[0] != '-' && s[0] != 't' && s[0] != 'f'
    ensures ValueOf(Bare((if negative then "-" else "") + s)) == Unsigned(negative, s)
  {
    var all := (if negative then "-" else "") + s;
    assert all[if negative then 1 else 0..] == s;
  }

  lemma FloatReadsBack(x: Float)
    ensures ValueOf(Bare(FloatText(x))) == FloatValue(x)
  {
    MagnitudeBegins(x);
    SignReads(x.negative, Magnitude(x));
    MagnitudeReads(x);
  }

  lemma IntReadsBack(n: int)
    ensures ValueOf(Bare(IntText(n))) == IntValue(n)
  {
    var m := if n < 0 then -n else n;
    assert IsDigit(Text(m)[0]);
    SignReads(n < 0, Text(m));
    assert IntText(n) == (if n < 0 then "-" else "") + Text(m);
    NumberReads(n < 0, m);
  }

  /** Every value is determined by its literal. */
  lemma ValueReadsBack(v: Value)
    ensures ValueOf(LiteralOf(v)) == v
  {
    match v
    case TextValue(_) =>
    case BoolValue(_) =>
    case IntValue(n) => IntReadsBack(n);
    case FloatValue(x) => FloatReadsBack(x);
  }

  /** The items that are no empty texts. */
  function Kept(items: seq<Item>): seq<Item>
  {
    if items == [] then []
    else (if items[0].value == TextValue("") then [] else [items[0]]) + Kept(items[1..])
  }

  /** The items that clauses say. */
  function ItemsOf(clauses: seq<Clause>): seq<Item>
  {
    seq(|clauses|, i requires 0 <= i < |clauses| => Item(clauses[i].field, ValueOf(clauses[i].literal)))
  }

  lemma {:induction false} MeaningSaysItems(items: seq<Item>)
    ensures ItemsOf(Meaning(items)) == Kept(items)
  {
    if items != [] {
      MeaningSaysItems(items[1..]);
      if items[0].value != TextValue("") {
        ValueReadsBack(items[0].value);
        var clause := Clause(items[0].field, LiteralOf(items[0].value));
        assert ItemsOf([clause] + Meaning(items[1..])) == [items[0]] + ItemsOf(Meaning(items[1..]));
      }
    }
  }

  /** So the text of a WHERE clause gives back the fields and values it was built from, empty texts apart. */
  lemma ItemsReadBack(items: seq<Item>)
    requires forall i | 0 <= i < |items| :: IsIdent(items[i].field)
    ensures Read(WhereAnd("", items)).Some? && ItemsOf(Read(WhereAnd("", items)).value) == Kept(items)
  {
    WhereAndReadsBack(items);
    MeaningSaysItems(items);
  }

  /** Six decimals, whatever the number. */
  lemma {:induction false} TextLength(n: nat, k: nat, limit: nat)
    requires k >= 1 && n < limit == TenTo(k)
    ensures |Text(n)| <= k
    decreases k
  {
    if n >= 10 {
      TextLength(n / 10, k - 1, TenTo(k - 1));
    }
  }

  function TenTo(k: nat): nat
  {
    if k == 0 then 1 else 10 * TenTo(k - 1)
  }

  lemma SixDecimals(millionths: nat)
    requires millionths < 1000000
    ensures |SixDigits(millionths)| == 6
  {
    assert TenTo(6) == 1000000;
    TextLength(millionths, 6, 1000000);
  }

  /** The texts of the other kinds of values. */
  lemma ValueTexts()
    ensures ValueText(BoolValue(true)) == "true" && ValueText(BoolValue(false)) == "false"
    ensures ValueText(FloatValue(Finite(false, 1, 5))) == "1.000005"
    ensures ValueText(FloatValue(Infinite(true))) == "-inf" && ValueText(FloatValue(NaN(false))) == "nan"
  {
    assert Text(1) == "1" && Text(5) == "5";
    assert SixDigits(5) == "000005";
  }
}
