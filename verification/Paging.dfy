/**
 Reading a table page by page (DB::Iterate, GetRecords and ComputeRange in src/framework/orm.h). The
 table does not change during an iteration and is always returned in the same order.
 */
module Paging {
  import opened Common
  import opened Decimal
  import opened Placeholders

  // ---- The text of a range ----------------------------------------------------------------------

  function ComputeRange(dbtype: DBType, from: nat, howMany: nat): string
  {
    if dbtype == sqlite then LIMIT + Text(from) + COMMA + Text(howMany) + " "
    else LIMIT + Text(howMany) + OFFSET + Text(from) + " "
  }

  /** The rows a range text selects: how many to skip, and how many to return at most. */
  datatype Window = Window(skip: nat, take: nat)

  const LIMIT: string := " LIMIT "
  const COMMA: string := ", "
  const OFFSET: string := " OFFSET "

  /** What follows a fixed start. */
  function After(s: string, prefix: string): Option<string>
  {
    if |prefix| <= |s| && s[..|prefix|] == prefix then Some(s[|prefix|..]) else None
  }

  /** A number and what follows it. */
  function ReadNumber(s: string): Option<(nat, string)>
  {
    var d := Digits(s);
    if d == "" then None else Some((Value(d), s[|d|..]))
  }

  /** A number with one space after it, and nothing else. */
  function ReadLast(s: string): Option<nat>
  {
    match ReadNumber(s)
    case None => None
    case Some(p) => if p.1 == " " then Some(p.0) else None
  }

  /** The second number: after a comma it is the count, after OFFSET it is the start. */
  function ReadSecond(first: nat, s: string): Option<Window>
  {
    match After(s, COMMA)
    case Some(t) => (match ReadLast(t) case None => None case Some(take) => Some(Window(first, take)))
    case None =>
      match After(s, OFFSET)
      case None => None
      case Some(t) => match ReadLast(t) case None => None case Some(skip) => Some(Window(skip, first))
  }

  /** The two spellings of a range: " LIMIT skip, take " and " LIMIT take OFFSET skip ". */
  function ReadRange(s: string): Option<Window>
  {
    match After(s, LIMIT)
    case None => None
    case Some(t) =>
      match ReadNumber(t)
      case None => None
      case Some(p) => ReadSecond(p.0, p.1)
  }

  lemma AfterPrefix(prefix: string, rest: string)
    ensures After(prefix + rest, prefix) == Some(rest)
  {
    assert (prefix + rest)[|prefix|..] == rest;
  }

  lemma NumberReadsBack(n: nat, rest: string)
    requires rest == "" || !IsDigit(rest[0])
    ensures ReadNumber(Text(n) + rest) == Some((n, rest))
  {
    DigitsOf(Text(n), rest);
    ValueOfText(n);
  }

  /** Any text of the form " LIMIT n", a separator, "m " is read number by number. */
  lemma RangeReadsBack(n: nat, separator: string, m: nat)
    requires separator != "" && !IsDigit(separator[0])
    ensures ReadRange(LIMIT + Text(n) + separator + Text(m) + " ") == ReadSecond(n, separator + (Text(m) + " "))
    ensures ReadLast(Text(m) + " ") == Some(m)
  {
    var tail := separator + (Text(m) + " ");
    Associative(LIMIT + Text(n) + separator, Text(m), " ");
    Associative(LIMIT + Text(n), separator, Text(m) + " ");
    Associative(LIMIT, Text(n), tail);
    AfterPrefix(LIMIT, Text(n) + tail);
    NumberReadsBack(n, tail);
    NumberReadsBack(m, " ");
  }

  lemma OffsetIsNoComma(rest: string)
    ensures After(OFFSET + rest, COMMA) == None
  {
    assert (OFFSET + rest)[..2][0] == ' ';
  }

  /** The texts themselves. */
  lemma RangeTexts(from: nat, howMany: nat)
    ensures ComputeRange(sqlite, from, howMany) == " LIMIT " + Text(from) + ", " + Text(howMany) + " "
    ensures forall dbtype | dbtype == pgsql || dbtype == mysql ::
      ComputeRange(dbtype, from, howMany) == " LIMIT " + Text(howMany) + " OFFSET " + Text(from) + " "
  {
  }

  /** The texts of all three databases select the same rows. */
  lemma RangesAgree(dbtype: DBType, from: nat, howMany: nat)
    ensures ReadRange(ComputeRange(dbtype, from, howMany)) == Some(Window(from, howMany))
  {
    if dbtype == sqlite {
      RangeReadsBack(from, COMMA, howMany);
      AfterPrefix(COMMA, Text(howMany) + " ");
    } else {
      RangeReadsBack(howMany, OFFSET, from);
      AfterPrefix(OFFSET, Text(from) + " ");
      OffsetIsNoComma(Text(from) + " ");
    }
  }

  // ---- Pages ------------------------------------------------------------------------------------

  /** The rows a database returns for a window. */
  function Selected<R>(table: seq<R>, w: Window): seq<R>
  {
    if w.skip >= |table| then []
    else if w.skip + w.take >= |table| then table[w.skip..]
    else table[w.skip..w.skip + w.take]
  }

  /** Running a statement: its rows, or an exception. */
  function Execute<R>(table: seq<R>, fails: bool, range: string): Option<seq<R>>
  {
    match ReadRange(range)
    case None => None
    case Some(w) => if fails then None else Some(Selected(table, w))
  }

  /** Reports whether there were any rows; an exception is caught and reported as none. */
  method GetRecords<R>(dbtype: DBType, table: seq<R>, fails: bool, offset: nat, howMany: nat)
    returns (found: bool, records: seq<R>)
    ensures records == if fails then [] else Selected(table, Window(offset, howMany))
    ensures found == (records != [])
  {
    RangesAgree(dbtype, offset, howMany);
    match Execute(table, fails, ComputeRange(dbtype, offset, howMany)) {
      case None =>
        return false, [];
      case Some(rows) =>
        records := [];
        if |rows| > 0 {
          for i := 0 to |rows|
            invariant records == rows[..i]
          {
            records := records + [rows[i]];
          }
          return true, records;
        }
        return false, records;
    }
  }

  /** What a callback answers may depend on all the records it has been given, the current one last. */
  type Callback<!R> = seq<R> -> bool

  /** The calls made over `rows`, after the calls in `before`: up to the first refusal. */
  function Calls<R>(F: Callback<R>, before: seq<R>, rows: seq<R>): seq<R>
    decreases rows
  {
    if rows == [] then before
    else if !F(before + [rows[0]]) then before + [rows[0]]
    else Calls(F, before + [rows[0]], rows[1..])
  }

  predicate Refused<R>(F: Callback<R>, before: seq<R>, rows: seq<R>)
    decreases rows
  {
    rows != [] && (!F(before + [rows[0]]) || Refused(F, before + [rows[0]], rows[1..]))
  }

  const BATCH: nat := 50

  /** The rows of the pages from number `page` on, as long as no query fails. */
  function Rows<R>(table: seq<R>, failing: nat -> bool, page: nat): seq<R>
    decreases |table| - BATCH * page
  {
    if BATCH * page >= |table| || failing(page) then []
    else Selected(table, Window(BATCH * page, BATCH)) + Rows(table, failing, page + 1)
  }

  lemma {:induction false} CallsConcat<R>(F: Callback<R>, before: seq<R>, a: seq<R>, b: seq<R>)
    ensures Refused(F, before, a) ==> Calls(F, before, a + b) == Calls(F, before, a)
    ensures !Refused(F, before, a) ==> Calls(F, before, a) == before + a
    ensures !Refused(F, before, a) ==> Calls(F, before, a + b) == Calls(F, before + a, b)
    decreases a
  {
    if a == [] {
      assert a + b == b && before + a == before;
    } else {
      assert (a + b)[1..] == a[1..] + b;
      assert before + [a[0]] + a[1..] == before + a;
      CallsConcat(F, before + [a[0]], a[1..], b);
    }
  }

  lemma {:induction false} RefusedConcat<R>(F: Callback<R>, before: seq<R>, a: seq<R>, b: seq<R>)
    ensures Refused(F, before, a + b) == (Refused(F, before, a) || Refused(F, before + a, b))
    decreases a
  {
    if a == [] {
      assert a + b == b && before + a == before;
    } else {
      assert (a + b)[1..] == a[1..] + b;
      assert before + [a[0]] + a[1..] == before + a;
      RefusedConcat(F, before + [a[0]], a[1..], b);
    }
  }

  lemma AcceptedSoFar<R>(F: Callback<R>, before: seq<R>, rows: seq<R>, i: nat)
    requires i < |rows| && !Refused(F, before, rows[..i]) && F(before + rows[..i + 1])
    ensures !Refused(F, before, rows[..i + 1])
  {
    assert rows[..i + 1] == rows[..i] + [rows[i]];
    assert before + rows[..i] + [rows[i]] == before + rows[..i + 1];
    RefusedConcat(F, before, rows[..i], [rows[i]]);
  }

  lemma RefusedHere<R>(F: Callback<R>, before: seq<R>, rows: seq<R>, i: nat)
    requires i < |rows| && !Refused(F, before, rows[..i]) && !F(before + rows[..i + 1])
    ensures Calls(F, before, rows) == before + rows[..i + 1] && Refused(F, before, rows)
  {
    assert rows == rows[..i] + rows[i..];
    assert before + rows[..i] + [rows[i]] == before + rows[..i + 1];
    RefusedConcat(F, before, rows[..i], rows[i..]);
    CallsConcat(F, before, rows[..i], rows[i..]);
  }

  /** The inner loop: calls F with the records of one page, until it refuses one. */
  method CallEach<R>(F: Callback<R>, before: seq<R>, records: seq<R>) returns (refused: bool, calls: seq<R>)
    ensures calls == Calls(F, before, records)
    ensures refused == Refused(F, before, records)
  {
    calls := before;
    for i := 0 to |records|
      invariant calls == before + records[..i] && !Refused(F, before, records[..i])
    {
      calls := calls + [records[i]];
      assert calls == before + records[..i + 1];
      if !F(calls) {
        RefusedHere(F, before, records, i);
        return true, calls;
      }
      AcceptedSoFar(F, before, records, i);
    }
    assert records[..|records|] == records;
    CallsConcat(F, before, records, []);
    return false, calls;
  }

  lemma PageOfRows<R>(table: seq<R>, failing: nat -> bool, page: nat, records: seq<R>)
    requires records == if failing(page) then [] else Selected(table, Window(BATCH * page, BATCH))
    ensures records == [] ==> Rows(table, failing, page) == []
    ensures records != [] ==> Rows(table, failing, page) == records + Rows(table, failing, page + 1)
    ensures |records| < BATCH ==> Rows(table, failing, page) == records
    ensures records != [] ==> BATCH * page < |table|
  {
  }

  /** Calls F record by record; `calls` is what it has been called with. */
  method Iterate<R>(dbtype: DBType, F: Callback<R>, table: seq<R>, failing: nat -> bool)
    returns (ok: bool, calls: seq<R>)
    ensures ok
    ensures calls == Calls(F, [], Rows(table, failing, 0))
  {
    var offset, page := 0, 0;
    var done := false;
    calls := [];
    ghost var goal := Calls(F, [], Rows(table, failing, 0));
    while !done
      invariant offset == BATCH * page
      invariant goal == if done then calls else Calls(F, calls, Rows(table, failing, page))
      decreases !done, |table| - offset
    {
      var found, records := GetRecords(dbtype, table, failing(page), offset, BATCH);
      PageOfRows(table, failing, page, records);
      if found {
        CallsConcat(F, calls, records, Rows(table, failing, page + 1));
        var refused;
        refused, calls := CallEach(F, calls, records);
        if refused {
          return true, calls;
        }
        if |records| < BATCH {
          return true, calls;
        }
        offset, page := offset + BATCH, page + 1;
      } else {
        done := true;
      }
    }
    return true, calls;
  }

  /**
   The calls are determined: a prefix of the rows, every shorter prefix of which was accepted, and
   which is all of the rows or ends with the first refusal.
   */
  lemma {:induction false} StopsAtFirstRefusal<R>(F: Callback<R>, before: seq<R>, rows: seq<R>)
    ensures var calls := Calls(F, before, rows);
      && before <= calls <= before + rows
      && (rows != [] ==> before < calls)
      && (forall n | |before| < n < |calls| :: F(calls[..n]))
      && (calls == before + rows || !F(calls))
    decreases rows
  {
    if rows != [] {
      var next := before + [rows[0]];
      assert next + rows[1..] == before + rows;
      if F(next) {
        StopsAtFirstRefusal(F, next, rows[1..]);
        var calls := Calls(F, before, rows);
        assert calls[..|next|] == next;
      }
    }
  }

  lemma {:induction false} RowsFrom<R>(table: seq<R>, failing: nat -> bool, page: nat)
    requires BATCH * page <= |table|
    ensures Rows(table, failing, page) == table[BATCH * page..]
       <==> forall k | page <= k && BATCH * k < |table| :: !failing(k)
    decreases |table| - BATCH * page
  {
    if BATCH * page < |table| && !failing(page) {
      var these := Selected(table, Window(BATCH * page, BATCH));
      if BATCH * (page + 1) <= |table| {
        RowsFrom(table, failing, page + 1);
        assert table[BATCH * page..] == these + table[BATCH * (page + 1)..];
        SameTail(these, Rows(table, failing, page + 1), table[BATCH * (page + 1)..]);
      } else {
        assert these + [] == these;
      }
    }
  }

  lemma SameTail<R>(start: seq<R>, a: seq<R>, b: seq<R>)
    ensures start + a == start + b <==> a == b
  {
    assert (start + a)[|start|..] == a && (start + b)[|start|..] == b;
  }

  /** Every row is seen, for every table size, exactly when none of the queries fails. */
  lemma EveryRowIsSeen<R>(table: seq<R>, failing: nat -> bool)
    ensures Rows(table, failing, 0) == table <==> forall k | 0 <= k && 50 * k < |table| :: !failing(k)
  {
    RowsFrom(table, failing, 0);
    assert table[BATCH * 0..] == table;
  }

  /** A failing query ends the iteration there, which still reports success. */
  lemma {:induction false} FailureCutsShort<R>(table: seq<R>, failing: nat -> bool, page: nat, bad: nat)
    requires page <= bad && 50 * bad < |table| && failing(bad)
    requires forall k | page <= k < bad :: !failing(k)
    ensures Rows(table, failing, page) == table[50 * page..50 * bad]
    decreases bad - page
  {
    if page < bad {
      FailureCutsShort(table, failing, page + 1, bad);
    }
  }
}
