/** `parse_excel_to_json` of the current bot over the rows of the sheet
    "Лист1": each row with a group and a time contributes, for every weekday
    whose cell is filled, the comma-split and trimmed pieces of that cell
    under group -> day -> time slot. */
module ExcelParse {
  import opened Wrappers
  import opened PyText
  import opened OrderedDict

  /** A spreadsheet cell as pandas hands it over: empty (NaN) or text. */
  datatype Cell = Blank | Text(s: string)

  /** One row of the sheet, with the columns the parser reads. */
  datatype Row = Row(group: Cell, time: Cell, monday: Cell, tuesday: Cell,
                     wednesday: Cell, thursday: Cell, friday: Cell)

  const Weekdays: seq<string> := ["Monday", "Tuesday", "Wednesday", "Thursday", "Friday"]

  /** `row[day]` for one of the weekday columns. */
  function DayCell(r: Row, day: string): (c: Cell)
    ensures day !in Weekdays ==> c == Blank
  {
    if day == "Monday" then r.monday
    else if day == "Tuesday" then r.tuesday
    else if day == "Wednesday" then r.wednesday
    else if day == "Thursday" then r.thursday
    else if day == "Friday" then r.friday
    else Blank
  }

  /** The cell of the k-th weekday column (Monday first). */
  function Column(r: Row, k: nat): Cell
    requires k < |Weekdays|
  {
    if k == 0 then r.monday
    else if k == 1 then r.tuesday
    else if k == 2 then r.wednesday
    else if k == 3 then r.thursday
    else r.friday
  }

  /** Reading a column by its weekday name reads that column. */
  lemma ColumnByName(r: Row, k: nat)
    requires k < |Weekdays|
    ensures DayCell(r, Weekdays[k]) == Column(r, k)
  {
  }

  /** `day` is one of the first `n` weekdays. */
  predicate AmongFirst(day: string, n: nat)
    requires n <= |Weekdays|
  {
    n > 0 && (day == Weekdays[n - 1] || AmongFirst(day, n - 1))
  }

  /** `day` is among the first `n` weekdays exactly when one of them is it. */
  lemma {:induction false} AmongFirstIndex(day: string, n: nat)
    requires n <= |Weekdays|
    ensures AmongFirst(day, n) <==> exists k :: 0 <= k < n && Weekdays[k] == day
  {
    if n > 0 {
      AmongFirstIndex(day, n - 1);
    }
  }

  /** Only a weekday column can hold a filled cell. */
  lemma FilledIsWeekday(r: Row, day: string)
    ensures DayCell(r, day).Text? ==> AmongFirst(day, |Weekdays|)
  {
    AmongFirstIndex(day, |Weekdays|);
    if day == Weekdays[0] {
    } else if day == Weekdays[1] {
    } else if day == Weekdays[2] {
    } else if day == Weekdays[3] {
    } else if day == Weekdays[4] {
    }
  }

  /** The cleaned group and time of a row, when both are present. */
  function RowKey(r: Row): Option<(string, string)>
  {
    if r.group.Text? && r.time.Text? then Some((Strip(r.group.s), Strip(r.time.s)))
    else None
  }

  /** `[clean_text(info) for info in text.split(',')]`. */
  function Pieces(text: string): (r: seq<string>)
    ensures |r| == Count(text, ',') + 1
    ensures forall k :: 0 <= k < |r| ==> r[k] == Strip(Split(text, ',')[k])
  {
    var parts := Split(text, ',');
    seq(|parts|, k requires 0 <= k < |parts| => Strip(parts[k]))
  }

  /** group -> day -> ordered table of time slot -> lesson fields. */
  type Parsed = map<string, map<string, SlotTable>>

  /** The pieces stored under group `g`, day `day` and slot `t`, if any. */
  function Lookup(p: Parsed, g: string, day: string, t: string): Option<seq<string>>
  {
    if g in p && day in p[g] then Get(p[g][day], t) else None
  }

  /** Every slot table of the result is a proper dict (no repeated slot). */
  predicate WellFormed(p: Parsed) {
    forall g, day :: g in p && day in p[g] ==> DistinctKeys(p[g][day])
  }

  // ---------------------------------------------------------------------------
  // The parser as functions: one cell, the first n weekdays of a row, a row,
  // and all rows (the last row processed last).

  function AddCell(p: Parsed, g: string, t: string, day: string, c: Cell): (r: Parsed)
    requires g in p
    ensures r.Keys == p.Keys
  {
    if c.Blank? then p
    else
      var table := if day in p[g] then p[g][day] else [];
      p[g := p[g][day := Put(table, t, Pieces(c.s))]]
  }

  function AddDays(p: Parsed, g: string, t: string, r: Row, n: nat): (q: Parsed)
    requires g in p && n <= |Weekdays|
    ensures q.Keys == p.Keys
  {
    if n == 0 then p
    else AddCell(AddDays(p, g, t, r, n - 1), g, t, Weekdays[n - 1], Column(r, n - 1))
  }

  lemma AddDaysStep(p: Parsed, g: string, t: string, r: Row, k: nat)
    requires g in p && k < |Weekdays|
    ensures AddDays(p, g, t, r, k + 1) == AddCell(AddDays(p, g, t, r, k), g, t, Weekdays[k], Column(r, k))
  {
  }

  function AddRow(p: Parsed, r: Row): (q: Parsed)
  {
    match RowKey(r)
    case None => p
    case Some((g, t)) =>
      var p1 := if g in p then p else p[g := map[]];
      AddDays(p1, g, t, r, |Weekdays|)
  }

  function ParseRows(rows: seq<Row>): Parsed
  {
    if |rows| == 0 then map[]
    else AddRow(ParseRows(rows[..|rows| - 1]), rows[|rows| - 1])
  }

  // ---------------------------------------------------------------------------
  // The parser as the source writes it: nested loops over rows and weekdays.

  method ParseExcelToJson(rows: seq<Row>) returns (parsed: Parsed)
    ensures parsed == ParseRows(rows)
  {
    parsed := map[];
    var i := 0;
    while i < |rows|
      invariant 0 <= i <= |rows|
      invariant parsed == ParseRows(rows[..i])
    {
      var row := rows[i];
      assert rows[..i + 1][..i] == rows[..i];
      if row.group.Text? && row.time.Text? {
        var group, timeSlot := Strip(row.group.s), Strip(row.time.s);
        if group !in parsed {
          parsed := parsed[group := map[]];
        }
        parsed := FillDays(parsed, group, timeSlot, row);
      }
      i := i + 1;
    }
    assert rows[..i] == rows;
  }

  /** The inner loop of the parser: every filled weekday cell of `row` is
      stored, as its pieces, under the row's group and time slot. */
  method FillDays(p: Parsed, group: string, timeSlot: string, row: Row) returns (parsed: Parsed)
    requires group in p
    ensures parsed == AddDays(p, group, timeSlot, row, |Weekdays|)
  {
    parsed := p;
    var k := 0;
    while k < |Weekdays|
      invariant 0 <= k <= |Weekdays|
      invariant parsed == AddDays(p, group, timeSlot, row, k)
    {
      ghost var before := parsed;
      var day := Weekdays[k];
      var lessonInfo := DayCell(row, day);
      if lessonInfo.Text? {
        var table := if day in parsed[group] then parsed[group][day] else [];
        parsed := parsed[group := parsed[group][day := Put(table, timeSlot, Pieces(lessonInfo.s))]];
      }
      ColumnByName(row, k);
      assert parsed == AddCell(before, group, timeSlot, day, lessonInfo);
      AddDaysStep(p, group, timeSlot, row, k);
      k := k + 1;
    }
  }

  // ---------------------------------------------------------------------------
  // An independent description of the result, row by row.

  /** The row `r` fills group `g`, day `day` and slot `t`. */
  predicate Fills(r: Row, g: string, day: string, t: string) {
    RowKey(r) == Some((g, t)) && DayCell(r, day).Text?
  }

  /** The pieces of the last row that fills (g, day, t): a later row
      overwrites an earlier one. */
  function LastEntry(rows: seq<Row>, g: string, day: string, t: string): Option<seq<string>>
  {
    if |rows| == 0 then None
    else
      var last := rows[|rows| - 1];
      if Fills(last, g, day, t) then Some(Pieces(DayCell(last, day).s))
      else LastEntry(rows[..|rows| - 1], g, day, t)
  }

  /** There is no entry exactly when no row fills the cell. */
  lemma {:induction false} LastEntryNone(rows: seq<Row>, g: string, day: string, t: string)
    ensures LastEntry(rows, g, day, t).None? <==> forall i :: 0 <= i < |rows| ==> !Fills(rows[i], g, day, t)
  {
    if |rows| > 0 {
      var front, last := rows[..|rows| - 1], rows[|rows| - 1];
      if Fills(last, g, day, t) {
        assert LastEntry(rows, g, day, t).Some?;
        assert !(forall i :: 0 <= i < |rows| ==> !Fills(rows[i], g, day, t)) by {
          assert Fills(rows[|rows| - 1], g, day, t);
        }
      } else {
        assert LastEntry(rows, g, day, t) == LastEntry(front, g, day, t);
        LastEntryNone(front, g, day, t);
        if LastEntry(front, g, day, t).None? {
          forall i | 0 <= i < |rows| ensures !Fills(rows[i], g, day, t) {
            if i < |front| {
              assert rows[i] == front[i];
            }
          }
        } else {
          var j :| 0 <= j < |front| && Fills(front[j], g, day, t);
          assert rows[j] == front[j];
        }
      }
    }
  }

  lemma AddCellLookup(p: Parsed, g: string, t: string, day: string, c: Cell, g': string, day': string, t': string)
    requires g in p
    ensures Lookup(AddCell(p, g, t, day, c), g', day', t') ==
      if c.Text? && (g', day', t') == (g, day, t) then Some(Pieces(c.s)) else Lookup(p, g', day', t')
  {
  }

  lemma {:induction false} AddDaysLookup(p: Parsed, g: string, t: string, r: Row, n: nat, g': string, day': string, t': string)
    requires g in p && n <= |Weekdays|
    ensures Lookup(AddDays(p, g, t, r, n), g', day', t') ==
      if g' == g && t' == t && AmongFirst(day', n) && DayCell(r, day').Text?
      then Some(Pieces(DayCell(r, day').s))
      else Lookup(p, g', day', t')
  {
    if n > 0 {
      AddDaysLookup(p, g, t, r, n - 1, g', day', t');
      AddCellLookup(AddDays(p, g, t, r, n - 1), g, t, Weekdays[n - 1], Column(r, n - 1), g', day', t');
      ColumnByName(r, n - 1);
    }
  }

  lemma AddRowLookup(p: Parsed, r: Row, g': string, day': string, t': string)
    ensures Lookup(AddRow(p, r), g', day', t') ==
      if Fills(r, g', day', t') then Some(Pieces(DayCell(r, day').s)) else Lookup(p, g', day', t')
  {
    match RowKey(r)
    case None =>
    case Some((g, t)) =>
      var p1 := if g in p then p else p[g := map[]];
      AddDaysLookup(p1, g, t, r, |Weekdays|, g', day', t');
      FilledIsWeekday(r, day');
      assert Lookup(p1, g', day', t') == Lookup(p, g', day', t');
  }

  /** The slot tables of the result hold exactly the last filled cell for
      each group, day and slot. */
  lemma {:induction false} ParseRowsLookup(rows: seq<Row>, g: string, day: string, t: string)
    ensures Lookup(ParseRows(rows), g, day, t) == LastEntry(rows, g, day, t)
  {
    if |rows| > 0 {
      ParseRowsLookup(rows[..|rows| - 1], g, day, t);
      AddRowLookup(ParseRows(rows[..|rows| - 1]), rows[|rows| - 1], g, day, t);
    }
  }

  /** A later row that fills the same cell as an earlier one wins. */
  lemma LaterRowWins(rows: seq<Row>, r: Row, g: string, day: string, t: string)
    requires Fills(r, g, day, t)
    ensures Lookup(ParseRows(rows + [r]), g, day, t) == Some(Pieces(DayCell(r, day).s))
  {
    assert (rows + [r])[..|rows|] == rows;
    AddRowLookup(ParseRows(rows), r, g, day, t);
  }

  /** A row without a group or without a time changes nothing. */
  lemma BlankKeyRowSkipped(rows: seq<Row>, r: Row)
    requires r.group.Blank? || r.time.Blank?
    ensures ParseRows(rows + [r]) == ParseRows(rows)
  {
    assert (rows + [r])[..|rows|] == rows;
  }

  lemma AddDaysShape(p: Parsed, g: string, t: string, r: Row, n: nat)
    requires g in p && n <= |Weekdays|
    ensures forall g' :: g' in p && g' != g ==> AddDays(p, g, t, r, n)[g'] == p[g']
    ensures forall day :: day in AddDays(p, g, t, r, n)[g] <==>
      day in p[g] || (AmongFirst(day, n) && DayCell(r, day).Text?)
  {
    if n > 0 {
      AddDaysShape(p, g, t, r, n - 1);
      ColumnByName(r, n - 1);
    }
  }

  /** The row `r` names group `g` together with some time. */
  predicate Keyed(r: Row, g: string) {
    r.group.Text? && r.time.Text? && Strip(r.group.s) == g
  }

  /** The row `r` names group `g` together with some time and fills the
      cell of `day`. */
  predicate FillsDay(r: Row, g: string, day: string) {
    Keyed(r, g) && DayCell(r, day).Text?
  }

  lemma AddRowShape(p: Parsed, r: Row, g: string, day: string)
    ensures g in AddRow(p, r) <==> g in p || Keyed(r, g)
    ensures g in AddRow(p, r) ==>
      (day in AddRow(p, r)[g] <==> (g in p && day in p[g]) || FillsDay(r, g, day))
  {
    match RowKey(r)
    case None =>
    case Some((g0, t0)) =>
      var p1 := if g0 in p then p else p[g0 := map[]];
      AddDaysShape(p1, g0, t0, r, |Weekdays|);
      FilledIsWeekday(r, day);
  }

  /** A group appears exactly when some row names it together with a time. */
  lemma {:induction false} ParseRowsGroup(rows: seq<Row>, g: string)
    ensures g in ParseRows(rows) <==> exists i :: 0 <= i < |rows| && Keyed(rows[i], g)
  {
    if |rows| > 0 {
      var front, last := rows[..|rows| - 1], rows[|rows| - 1];
      ParseRowsGroup(front, g);
      AddRowShape(ParseRows(front), last, g, "");
      if g in ParseRows(front) {
        var j :| 0 <= j < |front| && Keyed(front[j], g);
        assert rows[j] == front[j];
      } else if Keyed(last, g) {
        assert Keyed(rows[|rows| - 1], g);
      } else {
        forall i | 0 <= i < |rows| ensures !Keyed(rows[i], g) {
          if i < |front| {
            assert rows[i] == front[i];
          }
        }
      }
    }
  }

  /** A day appears under a group exactly when some row names that group
      with a time and fills that day's cell. */
  lemma {:induction false} ParseRowsDay(rows: seq<Row>, g: string, day: string)
    requires g in ParseRows(rows)
    ensures day in ParseRows(rows)[g] <==> exists i :: 0 <= i < |rows| && FillsDay(rows[i], g, day)
  {
    var front, last := rows[..|rows| - 1], rows[|rows| - 1];
    var p := ParseRows(front);
    AddRowShape(p, last, g, day);
    if g in p {
      ParseRowsDay(front, g, day);
    } else {
      ParseRowsGroup(front, g);
    }
    if FillsDay(last, g, day) {
      assert FillsDay(rows[|rows| - 1], g, day);
    } else if g in p && day in p[g] {
      var j :| 0 <= j < |front| && FillsDay(front[j], g, day);
      assert rows[j] == front[j];
    } else {
      forall i | 0 <= i < |rows| ensures !FillsDay(rows[i], g, day) {
        if i < |front| {
          assert rows[i] == front[i];
        }
      }
    }
  }

  /** Every day key the parser produces is a weekday. */
  lemma ParseRowsDays(rows: seq<Row>, g: string, day: string)
    requires g in ParseRows(rows) && day in ParseRows(rows)[g]
    ensures day in Weekdays
  {
    ParseRowsDay(rows, g, day);
  }

  lemma {:induction false} AddDaysWellFormed(p: Parsed, g: string, t: string, r: Row, n: nat)
    requires g in p && n <= |Weekdays| && WellFormed(p)
    ensures WellFormed(AddDays(p, g, t, r, n))
  {
    if n > 0 {
      AddDaysWellFormed(p, g, t, r, n - 1);
      var q := AddDays(p, g, t, r, n - 1);
      var day := Weekdays[n - 1];
      var c := Column(r, n - 1);
      if c.Text? {
        var table := if day in q[g] then q[g][day] else [];
        PutDistinct(table, t, Pieces(c.s));
      }
    }
  }

  /** No slot table of the result repeats a time slot. */
  lemma {:induction false} ParseRowsWellFormed(rows: seq<Row>)
    ensures WellFormed(ParseRows(rows))
  {
    if |rows| > 0 {
      ParseRowsWellFormed(rows[..|rows| - 1]);
      var p := ParseRows(rows[..|rows| - 1]);
      match RowKey(rows[|rows| - 1])
      case None =>
      case Some((g, t)) =>
        var p1 := if g in p then p else p[g := map[]];
        AddDaysWellFormed(p1, g, t, rows[|rows| - 1], |Weekdays|);
    }
  }
}
