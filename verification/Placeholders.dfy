/**
 Statement texts and their placeholders (class DB in src/framework/orm.h): the field lists built by
 the constructor, the insert and update texts, and ConvertParams, which numbers the '?' marks for
 PostgreSQL.
 */
module Placeholders {
  import opened Common
  import opened Decimal

  datatype DBType = sqlite | pgsql | mysql

  function Lowered(names: seq<string>): (r: seq<string>)
    ensures |r| == |names| && forall i | 0 <= i < |names| :: r[i] == ToLower(names[i])
  {
    seq(|names|, i requires 0 <= i < |names| => ToLower(names[i]))
  }

  /** Parts with ", " between them. */
  function Join(parts: seq<string>): string
  {
    if |parts| == 0 then ""
    else if |parts| == 1 then parts[0]
    else Join(parts[..|parts| - 1]) + ", " + parts[|parts| - 1]
  }

  /** One "name=?" a name. */
  function Assignments(names: seq<string>): seq<string>
  {
    seq(|names|, i requires 0 <= i < |names| => names[i] + "=?")
  }

  /** n marks. */
  function Marks(n: nat): seq<string>
  {
    seq(n, i => "?")
  }

  /** The text with its '?' marks turned into $idx, $idx+1, and so on. */
  function Numbered(s: string, idx: nat): string
    decreases s
  {
    if s == "" then ""
    else if s[0] == '?' then "$" + Text(idx) + Numbered(s[1..], idx + 1)
    else [s[0]] + Numbered(s[1..], idx)
  }

  function MarkCount(s: string): nat
  {
    if s == "" then 0 else (if s[0] == '?' then 1 else 0) + MarkCount(s[1..])
  }

  predicate NoMark(s: string)
  {
    forall i | 0 <= i < |s| :: s[i] != '?'
  }

  lemma {:induction false} CountConcat(a: string, b: string)
    ensures MarkCount(a + b) == MarkCount(a) + MarkCount(b)
  {
    if a == "" {
      assert a + b == b;
    } else {
      assert (a + b)[1..] == a[1..] + b;
      CountConcat(a[1..], b);
    }
  }

  lemma Associative(x: string, y: string, z: string)
    ensures x + y + z == x + (y + z)
  {
  }

  lemma {:induction false} NumberedConcat(a: string, b: string, idx: nat)
    ensures Numbered(a + b, idx) == Numbered(a, idx) + Numbered(b, idx + MarkCount(a))
    decreases a
  {
    if a == "" {
      assert a + b == b;
    } else {
      var t := a[1..];
      assert (a + b)[1..] == t + b;
      if a[0] == '?' {
        NumberedConcat(t, b, idx + 1);
        Associative("$" + Text(idx), Numbered(t, idx + 1), Numbered(b, idx + 1 + MarkCount(t)));
      } else {
        NumberedConcat(t, b, idx);
        Associative([a[0]], Numbered(t, idx), Numbered(b, idx + MarkCount(t)));
      }
    }
  }

  lemma {:induction false} NothingToNumber(s: string, idx: nat)
    requires NoMark(s)
    ensures Numbered(s, idx) == s && MarkCount(s) == 0
  {
    if s != "" {
      NothingToNumber(s[1..], idx);
      assert s == [s[0]] + s[1..];
    }
  }

  lemma JoinSnoc(parts: seq<string>, part: string)
    ensures Join(parts + [part]) == (if parts == [] then "" else Join(parts) + ", ") + part
  {
    assert (parts + [part])[..|parts|] == parts;
    assert parts == [] ==> "" + part == part;
  }

  /** The three lists of field texts, as they stand after some of the fields. */
  function SelectFields(names: seq<string>): string
  {
    Join(Lowered(names))
  }

  function UpdateFields(names: seq<string>): string
  {
    Join(Assignments(Lowered(names)))
  }

  function SelectMarks(names: seq<string>): string
  {
    Join(Marks(|names|))
  }

  /** The list of marks before its closing parenthesis, which only a first field opens. */
  function SelectListOpen(names: seq<string>): string
  {
    (if names == [] then "" else "(") + SelectMarks(names)
  }

  function InsertHead(table: string, names: seq<string>): string
  {
    "insert into  " + table + " ( " + SelectFields(names) + " ) values "
  }

  function UpdateHead(table: string): string
  {
    "update " + table + " set "
  }

  function InsertText(table: string, names: seq<string>): string
  {
    InsertHead(table, names) + (SelectListOpen(names) + ")")
  }

  function WithCondition(before: string, where: string, field: string): string
  {
    before + where + field + "=?"
  }

  function UpdateText(table: string, names: seq<string>, field: string): string
  {
    WithCondition(UpdateHead(table) + UpdateFields(names), " where ", field)
  }

  function Statement(dbtype: DBType, s: string): string
  {
    if dbtype == pgsql then Numbered(s, 1) else s
  }

  /** The names a field may be asked for by. */
  function FieldSet(names: seq<string>): set<string>
  {
    set i | 0 <= i < |names| :: ToLower(names[i])
  }

  /** A field is known by its name in lower case. */
  lemma KnownFields(names: seq<string>, name: string)
    ensures name in FieldSet(names) <==> name in Lowered(names)
  {
    if name in Lowered(names) {
      var i :| 0 <= i < |names| && Lowered(names)[i] == name;
      assert ToLower(names[i]) == name;
    }
  }

  lemma OneMoreName(names: seq<string>, name: string)
    ensures FieldSet(names + [name]) == FieldSet(names) + {ToLower(name)}
  {
    var more := names + [name];
    assert more[|names|] == name;
    assert forall i | 0 <= i < |names| :: more[i] == names[i];
  }

  lemma OneMoreField(names: seq<string>, name: string)
    ensures SelectFields(names + [name]) == (if names == [] then "" else SelectFields(names) + ", ") + ToLower(name)
    ensures UpdateFields(names + [name])
         == (if names == [] then "" else UpdateFields(names) + ", ") + (ToLower(name) + "=?")
    ensures SelectListOpen(names + [name])
         == (if names == [] then SelectListOpen(names) + "(" else SelectListOpen(names) + ", ") + "?"
  {
    assert Lowered(names + [name]) == Lowered(names) + [ToLower(name)];
    assert Assignments(Lowered(names + [name])) == Assignments(Lowered(names)) + [ToLower(name) + "=?"];
    assert Marks(|names + [name]|) == Marks(|names|) + ["?"];
    JoinSnoc(Lowered(names), ToLower(name));
    JoinSnoc(Assignments(Lowered(names)), ToLower(name) + "=?");
    JoinSnoc(Marks(|names|), "?");
    assert names == [] ==> SelectMarks(names) == "" && "" + "?" == "?";
    assert "(" + (SelectMarks(names) + ", " + "?") == "(" + SelectMarks(names) + ", " + "?";
  }

  class DB {
    const Type_: DBType
    const TableName_: string
    var FieldNames_: map<string, int>
    var SelectFields_: string
    var UpdateFields_: string
    var SelectList_: string

    ghost predicate Built(names: seq<string>)
      reads this
    {
      && SelectFields_ == SelectFields(names)
      && UpdateFields_ == UpdateFields(names)
      && SelectList_ == SelectListOpen(names) + ")"
      && FieldNames_.Keys == FieldSet(names)
    }

    /** The constructor's loop over the fields. */
    static method FieldLists(names: seq<string>)
      returns (fieldNames: map<string, int>, selectFields: string, updateFields: string, selectList: string)
      ensures selectFields == SelectFields(names) && updateFields == UpdateFields(names)
      ensures selectList == SelectListOpen(names) + ")"
      ensures fieldNames.Keys == FieldSet(names)
    {
      fieldNames, selectFields, updateFields, selectList := map[], "", "", "";
      var first := true;
      var place := 0;
      while place < |names|
        invariant 0 <= place <= |names| && first == (place == 0)
        invariant selectFields == SelectFields(names[..place])
        invariant updateFields == UpdateFields(names[..place])
        invariant selectList == SelectListOpen(names[..place])
        invariant fieldNames.Keys == FieldSet(names[..place])
      {
        assert names[..place + 1] == names[..place] + [names[place]];
        OneMoreField(names[..place], names[place]);
        OneMoreName(names[..place], names[place]);
        var fieldName := ToLower(names[place]);
        fieldNames := fieldNames[fieldName := place];
        if !first {
          selectFields := selectFields + ", ";
          updateFields := updateFields + ", ";
          selectList := selectList + ", ";
        } else {
          selectList := selectList + "(";
        }
        selectFields := selectFields + fieldName;
        updateFields := updateFields + (fieldName + "=?");
        selectList := selectList + "?";
        first := false;
        place := place + 1;
      }
      assert names[..|names|] == names;
      selectList := selectList + ")";
    }

    constructor (dbtype: DBType, table: string, names: seq<string>)
      ensures Built(names) && Type_ == dbtype && TableName_ == table
    {
      Type_, TableName_ := dbtype, table;
      var fieldNames, selectFields, updateFields, selectList := FieldLists(names);
      FieldNames_, SelectFields_, UpdateFields_, SelectList_ := fieldNames, selectFields, updateFields, selectList;
    }

    /** The loop of ConvertParams. */
    method ConvertParams(s: string) returns (r: string)
      ensures r == Statement(Type_, s)
    {
      if Type_ != pgsql {
        return s;
      }
      r := "";
      var idx := 1;
      for i := 0 to |s|
        invariant idx == 1 + MarkCount(s[..i]) && r == Numbered(s[..i], 1)
      {
        assert s[..i + 1] == s[..i] + [s[i]];
        NumberedConcat(s[..i], [s[i]], 1);
        CountConcat(s[..i], [s[i]]);
        if s[i] == '?' {
          r := r + "$";
          r := r + Text(idx);
          idx := idx + 1;
        } else {
          r := r + [s[i]];
        }
      }
      assert s[..|s|] == s;
    }

    /** The statement an insertion gives to the driver. */
    method CreateRecord(ghost names: seq<string>) returns (st: string)
      requires Built(names)
      ensures st == Statement(Type_, InsertText(TableName_, names))
    {
      st := "insert into  " + TableName_ + " ( " + SelectFields_ + " ) values " + SelectList_;
      st := ConvertParams(st);
    }

    /** The statement an update gives to the driver. */
    method UpdateRecord(ghost names: seq<string>, fieldName: string) returns (st: string)
      requires Built(names)
      ensures st == Statement(Type_, UpdateText(TableName_, names, fieldName))
    {
      st := "update " + TableName_ + " set " + UpdateFields_ + " where " + fieldName + "=?";
      st := ConvertParams(st);
    }
  }

  // ---- The numbers in a statement ---------------------------------------------------------------

  /** $from, $from+1, and so on: n of them. */
  function Dollars(from: nat, n: nat): (r: seq<string>)
    ensures |r| == n && forall i | 0 <= i < n :: r[i] == "$" + Text(from + i)
  {
    seq(n, i requires 0 <= i < n => "$" + Text(from + i))
  }

  function NumberedAssignments(names: seq<string>): (r: seq<string>)
    ensures |r| == |names| && forall i | 0 <= i < |names| :: r[i] == names[i] + "=$" + Text(1 + i)
  {
    seq(|names|, i requires 0 <= i < |names| => names[i] + "=$" + Text(1 + i))
  }

  predicate OneMarkEach(parts: seq<string>, numbered: seq<string>)
  {
    && |parts| == |numbered|
    && forall i | 0 <= i < |parts| :: MarkCount(parts[i]) == 1 && Numbered(parts[i], 1 + i) == numbered[i]
  }

  lemma {:induction false} NumberedJoin(parts: seq<string>, numbered: seq<string>)
    requires OneMarkEach(parts, numbered)
    ensures Numbered(Join(parts), 1) == Join(numbered) && MarkCount(Join(parts)) == |parts|
  {
    var n := |parts|;
    if n == 1 {
      assert OneMarkEach(parts, numbered) && Numbered(parts[0], 1 + 0) == numbered[0];
    } else if n > 1 {
      NumberedJoin(parts[..n - 1], numbered[..n - 1]);
      NumberedConcat(Join(parts[..n - 1]), ", ", 1);
      CountConcat(Join(parts[..n - 1]), ", ");
      NothingToNumber(", ", n);
      NumberedConcat(Join(parts[..n - 1]) + ", ", parts[n - 1], 1);
      CountConcat(Join(parts[..n - 1]) + ", ", parts[n - 1]);
    }
  }

  lemma MarkIsNumbered(before: string, idx: nat)
    requires NoMark(before)
    ensures Numbered(before + "?", idx) == before + "$" + Text(idx) && MarkCount(before + "?") == 1
  {
    NumberedConcat(before, "?", idx);
    CountConcat(before, "?");
    NothingToNumber(before, idx);
    NothingToNumber("", idx + 1);
    assert "?"[1..] == "";
  }

  lemma MarksAreNumbered(n: nat)
    ensures OneMarkEach(Marks(n), Dollars(1, n))
  {
    forall i | 0 <= i < n
      ensures MarkCount(Marks(n)[i]) == 1 && Numbered(Marks(n)[i], 1 + i) == Dollars(1, n)[i]
    {
      MarkIsNumbered("", 1 + i);
      assert "" + "?" == "?" && "" + "$" == "$";
    }
  }

  predicate NoMarks(names: seq<string>)
  {
    forall i | 0 <= i < |names| :: NoMark(names[i])
  }

  lemma AssignmentsAreNumbered(names: seq<string>)
    requires NoMarks(names)
    ensures OneMarkEach(Assignments(names), NumberedAssignments(names))
  {
    forall i | 0 <= i < |names|
      ensures MarkCount(Assignments(names)[i]) == 1
      ensures Numbered(Assignments(names)[i], 1 + i) == NumberedAssignments(names)[i]
    {
      MarkIsNumbered(names[i] + "=", 1 + i);
      assert names[i] + "=" + "?" == names[i] + "=?";
      assert names[i] + "=" + "$" == names[i] + "=$";
    }
  }

  lemma {:induction false} JoinHasNoMark(parts: seq<string>)
    requires NoMarks(parts)
    ensures NoMark(Join(parts))
  {
    if |parts| > 1 {
      JoinHasNoMark(parts[..|parts| - 1]);
    }
  }

  /** Text around a numbered part stays as it is. */
  lemma NumberedBetween(before: string, middle: string, numbered: string, after: string)
    requires NoMark(before) && Numbered(middle, 1) == numbered
    ensures Numbered(before + middle + after, 1) == before + numbered + Numbered(after, 1 + MarkCount(middle))
    ensures MarkCount(before + middle + after) == MarkCount(middle) + MarkCount(after)
  {
    NothingToNumber(before, 1);
    NumberedConcat(before, middle, 1);
    CountConcat(before, middle);
    NumberedConcat(before + middle, after, 1);
    CountConcat(before + middle, after);
  }

  lemma Regrouped(before: string, where: string, field: string, number: string)
    ensures before + where + field + "=?" == before + (where + field + "=" + "?")
    ensures where + field + "=" + "$" + number == where + field + "=$" + number
  {
    assert "=" + "?" == "=?" && "=" + "$" == "=$";
    assert where + field + "=" + "?" == where + field + ("=" + "?");
    assert where + field + "=" + "$" == where + field + ("=" + "$");
  }

  lemma HeadsHaveNoMark(table: string, names: seq<string>)
    requires NoMark(table) && NoMarks(Lowered(names))
    ensures NoMark(InsertHead(table, names)) && NoMark(UpdateHead(table))
  {
    JoinHasNoMark(Lowered(names));
  }

  /** The PostgreSQL insert text has exactly $1 to $n, in the order of the field names. */
  lemma InsertIsNumbered(table: string, names: seq<string>)
    requires NoMark(table) && NoMarks(Lowered(names))
    ensures Numbered(InsertText(table, names), 1)
         == InsertHead(table, names) + (if names == [] then "" else "(") + Join(Dollars(1, |names|)) + ")"
    ensures MarkCount(InsertText(table, names)) == |names|
  {
    var n := |names|;
    HeadsHaveNoMark(table, names);
    MarksAreNumbered(n);
    NumberedJoin(Marks(n), Dollars(1, n));
    var head, open := InsertHead(table, names), if names == [] then "" else "(";
    NumberedBetween(head + open, SelectMarks(names), Join(Dollars(1, n)), ")");
    NothingToNumber(")", 1 + n);
    InsertRegrouped(head, open, SelectMarks(names));
  }

  lemma InsertRegrouped(head: string, open: string, marks: string)
    ensures head + (open + marks + ")") == head + open + marks + ")"
  {
  }

  function NumberedCondition(before: string, where: string, field: string, number: nat): string
  {
    before + (where + field + "=$" + Text(number))
  }

  lemma FieldsThenValue(head: string, parts: seq<string>, numbered: seq<string>, where: string, field: string)
    requires NoMark(head) && NoMark(where) && NoMark(field) && OneMarkEach(parts, numbered)
    ensures Numbered(WithCondition(head + Join(parts), where, field), 1)
         == NumberedCondition(head + Join(numbered), where, field, |parts| + 1)
    ensures MarkCount(WithCondition(head + Join(parts), where, field)) == |parts| + 1
  {
    NumberedJoin(parts, numbered);
    var after := where + field + "=";
    NumberedBetween(head, Join(parts), Join(numbered), after + "?");
    MarkIsNumbered(after, 1 + |parts|);
    Regrouped(head + Join(parts), where, field, Text(|parts| + 1));
  }

  lemma WhereHasNoMark()
    ensures NoMark(" where ")
  {
  }

  /** The PostgreSQL update text has $i for field i and $(n+1) for the value of the condition. */
  lemma UpdateIsNumbered(table: string, names: seq<string>, field: string)
    requires NoMark(table) && NoMarks(Lowered(names)) && NoMark(field)
    ensures Numbered(UpdateText(table, names, field), 1)
         == NumberedCondition(UpdateHead(table) + Join(NumberedAssignments(Lowered(names))), " where ", field,
                              |names| + 1)
    ensures MarkCount(UpdateText(table, names, field)) == |names| + 1
  {
    HeadsHaveNoMark(table, names);
    AssignmentsAreNumbered(Lowered(names));
    WhereHasNoMark();
    FieldsThenValue(
      UpdateHead(table), Assignments(Lowered(names)), NumberedAssignments(Lowered(names)), " where ", field);
  }

  // ---- The statements as given to the driver ----------------------------------------------------

  /** An insertion in the dialect of each database: the lower-case names, then $1, $2, ... or marks. */
  lemma InsertStatement(dbtype: DBType, table: string, names: seq<string>)
    requires dbtype == pgsql ==> NoMark(table) && NoMarks(Lowered(names))
    ensures Statement(dbtype, InsertText(table, names))
         == "insert into  " + table + " ( " + Join(Lowered(names)) + " ) values " + (if names == [] then "" else "(")
            + Join(if dbtype == pgsql then Dollars(1, |names|) else Marks(|names|)) + ")"
  {
    if dbtype == pgsql {
      InsertIsNumbered(table, names);
    } else {
      InsertRegrouped(InsertHead(table, names), if names == [] then "" else "(", SelectMarks(names));
    }
  }

  /** An update in the dialect of each database. */
  lemma UpdateStatement(dbtype: DBType, table: string, names: seq<string>, field: string)
    requires dbtype == pgsql ==> NoMark(table) && NoMarks(Lowered(names)) && NoMark(field)
    ensures Statement(dbtype, UpdateText(table, names, field)) ==
      if dbtype == pgsql
      then "update " + table + " set " + Join(NumberedAssignments(Lowered(names)))
           + (" where " + field + "=$" + Text(|names| + 1))
      else "update " + table + " set " + Join(Assignments(Lowered(names))) + " where " + field + "=?"
  {
    if dbtype == pgsql {
      UpdateIsNumbered(table, names, field);
    }
  }

  // ---- Going back -------------------------------------------------------------------------------

  /** Each $k back into '?'. */
  function Restored(s: string): string
    decreases |s|
  {
    if s == "" then ""
    else if s[0] == '$' then "?" + Restored(s[1 + |Digits(s[1..])|..])
    else [s[0]] + Restored(s[1..])
  }

  /** The k of each $k, in order. */
  function Parameters(s: string): seq<nat>
    decreases |s|
  {
    if s == "" then []
    else if s[0] == '$' then [Value(Digits(s[1..]))] + Parameters(s[1 + |Digits(s[1..])|..])
    else Parameters(s[1..])
  }

  /** The text without the digits that stand right after a mark. */
  function Squeezed(s: string): (r: string)
    ensures |r| <= |s|
    decreases |s|
  {
    if s == "" then ""
    else if s[0] == '?' then "?" + Squeezed(s[1 + |Digits(s[1..])|..])
    else [s[0]] + Squeezed(s[1..])
  }

  predicate NoDigitAfterMark(s: string)
  {
    forall i | 0 <= i < |s| - 1 && s[i] == '?' :: !IsDigit(s[i + 1])
  }

  lemma {:induction false} NoDollarRestored(s: string)
    ensures '$' !in Restored(s)
    decreases |s|
  {
    if s != "" {
      NoDollarRestored(if s[0] == '$' then s[1 + |Digits(s[1..])|..] else s[1..]);
    }
  }

  lemma {:induction false} SqueezedIsSame(s: string)
    ensures Squeezed(s) == s <==> NoDigitAfterMark(s)
    decreases |s|
  {
    if s != "" {
      var d := if s[0] == '?' then |Digits(s[1..])| else 0;
      if d == 0 {
        SqueezedIsSame(s[1..]);
        assert s == [s[0]] + s[1..];
        assert Squeezed(s) == [s[0]] + Squeezed(s[1..]);
        NoDigitAfterMarkTail(s);
      } else {
        assert |Squeezed(s)| < |s|;
        assert s[1..][0] == s[1];
        assert !NoDigitAfterMark(s);
      }
    }
  }

  lemma NoDigitAfterMarkTail(s: string)
    requires s != ""
    ensures NoDigitAfterMark(s) <==> NoDigitAfterMark(s[1..]) && (s[0] == '?' && |s| > 1 ==> !IsDigit(s[1]))
  {
    if NoDigitAfterMark(s[1..]) && (s[0] == '?' && |s| > 1 ==> !IsDigit(s[1])) {
      forall i | 0 <= i < |s| - 1 && s[i] == '?'
        ensures !IsDigit(s[i + 1])
      {
        if i > 0 {
          assert s[1..][i - 1] == s[i] && s[1..][i - 1 + 1] == s[i + 1];
        }
      }
    }
    if NoDigitAfterMark(s) {
      forall i | 0 <= i < |s[1..]| - 1 && s[1..][i] == '?'
        ensures !IsDigit(s[1..][i + 1])
      {
        assert s[1 + i] == '?';
      }
    }
  }

  lemma {:induction false} DigitsStop(s: string)
    ensures var rest := s[|Digits(s)|..]; rest == "" || !IsDigit(rest[0])
  {
    if s != "" && IsDigit(s[0]) {
      DigitsStop(s[1..]);
      assert s[|Digits(s)|..] == s[1..][|Digits(s[1..])|..];
    }
  }

  lemma StartsWithoutDigit(s: string, idx: nat)
    requires s == "" || !IsDigit(s[0])
    ensures Numbered(s, idx) == "" || !IsDigit(Numbered(s, idx)[0])
  {
  }

  lemma DigitsStay(s: string, idx: nat)
    ensures Numbered(s, idx) == Digits(s) + Numbered(s[|Digits(s)|..], idx)
  {
    var d, rest := Digits(s), s[|Digits(s)|..];
    assert s == d + rest;
    NumberedConcat(d, rest, idx);
    NothingToNumber(d, idx);
  }

  /** The digits that follow the '$' of a number k: those of k, then those that followed the mark. */
  lemma AfterMark(k: nat, s: string, idx: nat)
    ensures Digits(Text(k) + Numbered(s, idx)) == Text(k) + Digits(s)
    ensures (Text(k) + Numbered(s, idx))[|Text(k) + Digits(s)|..] == Numbered(s[|Digits(s)|..], idx)
  {
    var t, d, rest := Text(k), Digits(s), Numbered(s[|Digits(s)|..], idx);
    DigitsStay(s, idx);
    Associative(t, d, rest);
    DigitsStop(s);
    StartsWithoutDigit(s[|d|..], idx);
    assert forall i | 0 <= i < |t + d| :: IsDigit((t + d)[i]);
    DigitsOf(t + d, rest);
  }

  lemma MarkedTail(number: string, tail: string)
    ensures ("$" + number + tail)[0] == '$' && ("$" + number + tail)[1..] == number + tail
  {
  }

  /** What is left of '?', and of the digits right after it, when its number is turned back. */
  lemma {:induction false} RestoredIsSqueezed(s: string, idx: nat)
    requires '$' !in s
    ensures Restored(Numbered(s, idx)) == Squeezed(s)
    decreases |s|
  {
    if s != "" {
      if s[0] == '?' {
        var r := s[1..];
        var all := "$" + Text(idx) + Numbered(r, idx + 1);
        MarkedTail(Text(idx), Numbered(r, idx + 1));
        AfterMark(idx, r, idx + 1);
        RestoredIsSqueezed(r[|Digits(r)|..], idx + 1);
        RestoredMark(all, Text(idx) + Digits(r));
        assert all[1 + |Text(idx) + Digits(r)|..] == all[1..][|Text(idx) + Digits(r)|..];
        assert s[1 + |Digits(r)|..] == r[|Digits(r)|..];
      } else {
        RestoredIsSqueezed(s[1..], idx);
        assert ([s[0]] + Numbered(s[1..], idx))[1..] == Numbered(s[1..], idx);
      }
    }
  }

  lemma RestoredMark(s: string, digits: string)
    requires s != "" && s[0] == '$' && Digits(s[1..]) == digits
    ensures |digits| < |s| && Restored(s) == "?" + Restored(s[1 + |digits|..])
    ensures Parameters(s) == [Value(digits)] + Parameters(s[1 + |digits|..])
  {
  }

  /**
   Turning the numbers back into marks undoes the numbering exactly for the texts that have no '$' and
   no digit right after a '?'.
   */
  lemma RestoreUndoesNumbering(s: string, idx: nat)
    ensures Restored(Numbered(s, idx)) == s <==> '$' !in s && NoDigitAfterMark(s)
  {
    if '$' in s {
      NoDollarRestored(Numbered(s, idx));
    } else {
      RestoredIsSqueezed(s, idx);
      SqueezedIsSame(s);
    }
  }

  /** The numbers from `from` on, n of them. */
  function Counting(from: nat, n: nat): seq<nat>
    decreases n
  {
    if n == 0 then [] else [from] + Counting(from + 1, n - 1)
  }

  /** The parameters of a numbered text are counted one by one, a number to each mark. */
  lemma {:induction false} ParametersInOrder(s: string, idx: nat)
    requires '$' !in s && NoDigitAfterMark(s)
    ensures Parameters(Numbered(s, idx)) == Counting(idx, MarkCount(s))
    decreases |s|
  {
    if s != "" {
      var r := s[1..];
      NoDigitAfterMarkTail(s);
      if s[0] == '?' {
        var all := "$" + Text(idx) + Numbered(r, idx + 1);
        assert Digits(r) == "" && r[0..] == r && Text(idx) + "" == Text(idx);
        MarkedTail(Text(idx), Numbered(r, idx + 1));
        AfterMark(idx, r, idx + 1);
        ParametersInOrder(r, idx + 1);
        ValueOfText(idx);
        RestoredMark(all, Text(idx));
        assert all[1 + |Text(idx)|..] == all[1..][|Text(idx)|..];
      } else {
        ParametersInOrder(r, idx);
        assert ([s[0]] + Numbered(r, idx))[1..] == Numbered(r, idx);
      }
    }
  }
}
