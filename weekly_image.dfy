/** The `/weekly` picture of the current bot: a 6 x 7 table whose first row
    names the five weekdays and whose first column names the six fixed time
    slots; each remaining cell shows the lesson fields of that day and slot,
    wrapped greedily to the cell width. Fonts and pixels are not modelled:
    the width of a text as the font measures it is a function parameter. */
module WeeklyImage {
  import opened Wrappers
  import opened PyText
  import opened OrderedDict
  import opened Store

  const CellWidth: int := 250
  const CellHeight: int := 120
  const HeaderHeight: int := 100
  const NumDays: int := 5
  const NumSlots: int := 6

  const ImageWidth: int := (NumDays + 1) * CellWidth
  const ImageHeight: int := (NumSlots + 1) * CellHeight + HeaderHeight

  const Days: seq<string> := ["Monday", "Tuesday", "Wednesday", "Thursday", "Friday"]
  const TimeSlots: seq<string> := ["9:10-10:20", "10:30-11:50", "12:00-13:20", "14:20-15:40", "15:50-17:10", "17:20-18:40"]

  /** A rectangle `(x1, y1, x2, y2)` in pixels. */
  datatype Rect = Rect(x1: int, y1: int, x2: int, y2: int)

  predicate InsideImage(r: Rect) {
    0 <= r.x1 < r.x2 <= ImageWidth && 0 <= r.y1 < r.y2 <= ImageHeight
  }

  /** The outline drawn at column `i`, row `j` of the table loop. */
  function GridRect(i: int, j: int): Rect {
    Rect(i * CellWidth, HeaderHeight + j * CellHeight, (i + 1) * CellWidth, HeaderHeight + (j + 1) * CellHeight)
  }

  /** Where the name of day `i` is centred. */
  function DayLabelRect(i: int): Rect {
    Rect((i + 1) * CellWidth, HeaderHeight, (i + 2) * CellWidth, HeaderHeight + CellHeight)
  }

  /** Where time slot `j` is centred. */
  function SlotLabelRect(j: int): Rect {
    Rect(0, HeaderHeight + (j + 1) * CellHeight, CellWidth, HeaderHeight + (j + 2) * CellHeight)
  }

  /** The cell of day `i` and slot `j` that receives the wrapped lessons. */
  function LessonRect(i: int, j: int): Rect {
    Rect((i + 1) * CellWidth, HeaderHeight + (j + 1) * CellHeight, (i + 2) * CellWidth, HeaderHeight + (j + 2) * CellHeight)
  }

  // ---------------------------------------------------------------------------
  // Geometry.

  lemma LessonRectWidth(i: int, j: int)
    ensures LessonRect(i, j).x2 - LessonRect(i, j).x1 == CellWidth
  {
  }

  /** The canvas is 1500 x 940; every lesson cell, day label and slot label
      lies inside it and is the outline of the table drawn one column and one
      row further in. */
  lemma CellsInsideImage(i: int, j: int)
    requires 0 <= i < NumDays && 0 <= j < NumSlots
    ensures ImageWidth == 1500 && ImageHeight == 940
    ensures InsideImage(LessonRect(i, j)) && LessonRect(i, j) == GridRect(i + 1, j + 1)
    ensures InsideImage(DayLabelRect(i)) && DayLabelRect(i) == GridRect(i + 1, 0)
    ensures InsideImage(SlotLabelRect(j)) && SlotLabelRect(j) == GridRect(0, j + 1)
    ensures LessonRect(i, j).x2 - LessonRect(i, j).x1 == CellWidth
  {
  }

  /** Two different lesson cells do not overlap. */
  lemma LessonCellsDisjoint(i: int, j: int, i': int, j': int)
    requires 0 <= i < NumDays && 0 <= j < NumSlots && 0 <= i' < NumDays && 0 <= j' < NumSlots
    requires (i, j) != (i', j')
    ensures var a, b := LessonRect(i, j), LessonRect(i', j');
      a.x2 <= b.x1 || b.x2 <= a.x1 || a.y2 <= b.y1 || b.y2 <= a.y1
  {
  }

  /** The table loop runs over `num_days + 2` columns, one more than the
      canvas holds: its last column starts at the right edge of the image. */
  lemma LastGridColumnOffCanvas(j: int)
    ensures GridRect(NumDays + 1, j).x1 == ImageWidth
    ensures !InsideImage(GridRect(NumDays + 1, j))
  {
  }

  // ---------------------------------------------------------------------------
  // The lookups.

  /** `get_weekly_schedule`: for each weekday, the group's table for that day
      or an empty table. */
  function Week(s: Schedules<SlotTable>, u: string, d: string, g: string): (w: map<string, SlotTable>)
    ensures w.Keys == set day | day in Days
    ensures forall day :: day in Days ==>
      w[day] == (match DayLookup(s, u, d, g, day) case Some(t) => t case None => [])
  {
    map day | day in Days :: var days := GroupDays(s, u, d, g); if day in days then days[day] else []
  }

  /** `weekly_schedule.get(day, {}).get(time_slot, [])`. */
  function CellLessons(week: map<string, SlotTable>, day: string, slot: string): seq<string> {
    var table := if day in week then week[day] else [];
    Get(table, slot).GetOr([])
  }

  /** The lessons a cell of the user's week shows are the ones the store
      holds under that university, degree, group, weekday and time slot;
      when any of those levels is missing the cell is empty. */
  lemma CellLessonsOfWeek(s: Schedules<SlotTable>, u: string, d: string, g: string, day: string, slot: string)
    requires day in Days
    ensures var found := DayLookup(s, u, d, g, day);
      found.Some? && Get(found.value, slot).Some? ==>
        CellLessons(Week(s, u, d, g), day, slot) == Get(found.value, slot).value
    ensures var found := DayLookup(s, u, d, g, day);
      found.None? || Get(found.value, slot).None? ==> CellLessons(Week(s, u, d, g), day, slot) == []
  {
  }

  // ---------------------------------------------------------------------------
  // Greedy wrapping (`draw_wrapped_text`).

  /** A field containing "none" is drawn as an empty word. */
  function Mask(word: string): string {
    if Contains(word, "none") then "" else word
  }

  /** The finished lines (as word groups) and the current line. */
  datatype WrapState = WrapState(done: seq<seq<string>>, current: seq<string>)

  /** One word: the tentative line is measured with the word as it is; the
      word is then masked and either joins the current line or starts a new
      one. */
  function WrapStep(width: string -> int, maxWidth: int, st: WrapState, word: string): WrapState {
    if width(Join(" ", st.current + [word])) <= maxWidth then WrapState(st.done, st.current + [Mask(word)])
    else WrapState(st.done + [st.current], [Mask(word)])
  }

  function WrapFold(width: string -> int, maxWidth: int, words: seq<string>): WrapState {
    if |words| == 0 then WrapState([], [])
    else WrapStep(width, maxWidth, WrapFold(width, maxWidth, words[..|words| - 1]), words[|words| - 1])
  }

  function JoinLines(groups: seq<seq<string>>): (r: seq<string>)
    ensures |r| == |groups| && forall k :: 0 <= k < |groups| ==> r[k] == Join(" ", groups[k])
  {
    seq(|groups|, k requires 0 <= k < |groups| => Join(" ", groups[k]))
  }

  /** The lines `draw_wrapped_text` draws. */
  function WrapLines(width: string -> int, maxWidth: int, words: seq<string>): seq<string> {
    var st := WrapFold(width, maxWidth, words);
    JoinLines(st.done) + (if |st.current| > 0 then [Join(" ", st.current)] else [])
  }

  function Flatten(groups: seq<seq<string>>): seq<string> {
    if |groups| == 0 then [] else Flatten(groups[..|groups| - 1]) + groups[|groups| - 1]
  }

  function MaskAll(words: seq<string>): (r: seq<string>)
    ensures |r| == |words| && forall k :: 0 <= k < |words| ==> r[k] == Mask(words[k])
  {
    seq(|words|, k requires 0 <= k < |words| => Mask(words[k]))
  }

  /** Every word lands, masked, in exactly one line, and the lines keep the
      order of the words. */
  lemma {:induction false} WrapKeepsWords(width: string -> int, maxWidth: int, words: seq<string>)
    ensures var st := WrapFold(width, maxWidth, words);
      Flatten(st.done) + st.current == MaskAll(words)
  {
    if |words| > 0 {
      var front, w := words[..|words| - 1], words[|words| - 1];
      WrapKeepsWords(width, maxWidth, front);
      var st := WrapFold(width, maxWidth, front);
      WrapStepKeeps(width, maxWidth, st, w);
      MaskAllSnoc(words);
    }
  }

  /** One step appends the masked word to the flattened lines. */
  lemma WrapStepKeeps(width: string -> int, maxWidth: int, st: WrapState, w: string)
    ensures var r := WrapStep(width, maxWidth, st, w);
      Flatten(r.done) + r.current == Flatten(st.done) + st.current + [Mask(w)]
  {
    var r := WrapStep(width, maxWidth, st, w);
    if r.done == st.done {
      assert r.current == st.current + [Mask(w)];
    } else {
      assert r == WrapState(st.done + [st.current], [Mask(w)]);
      assert (st.done + [st.current])[..|st.done|] == st.done;
    }
  }

  lemma MaskAllSnoc(words: seq<string>)
    requires |words| > 0
    ensures MaskAll(words) == MaskAll(words[..|words| - 1]) + [Mask(words[|words| - 1])]
  {
  }

  /** The shape of the result: the current line is never empty once a word
      has been seen; only the first finished line can be empty, and it is
      empty exactly when the first word alone is too wide; there are at most
      as many finished lines as words. */
  lemma {:induction false} WrapShape(width: string -> int, maxWidth: int, words: seq<string>)
    ensures var st := WrapFold(width, maxWidth, words);
      && |st.done| <= |words|
      && (|words| > 0 ==> |st.current| > 0)
      && (forall k :: 0 < k < |st.done| ==> |st.done[k]| > 0)
      && (|words| > 0 ==> ((|st.done| > 0 && st.done[0] == []) <==> width(Join(" ", [words[0]])) > maxWidth))
  {
    if |words| > 0 {
      var front := words[..|words| - 1];
      WrapShape(width, maxWidth, front);
      var st := WrapFold(width, maxWidth, front);
      if |front| == 0 {
        assert st == WrapState([], []);
        assert [] + [words[0]] == [words[0]];
      } else {
        assert front[0] == words[0];
        assert |st.current| > 0;
        var r := WrapFold(width, maxWidth, words);
        assert |st.done| > 0 ==> r.done[0] == st.done[0];
      }
    }
  }

  /** `draw_wrapped_text` produces at most one line more than it has words;
      the extra one is a leading empty line when the first word is too wide. */
  lemma WrapLineCount(width: string -> int, maxWidth: int, words: seq<string>)
    ensures |WrapLines(width, maxWidth, words)| <= |words| + 1
    ensures |words| > 0 ==> |WrapLines(width, maxWidth, words)| == |WrapFold(width, maxWidth, words).done| + 1
  {
    WrapShape(width, maxWidth, words);
  }

  /** The loop of `draw_wrapped_text`, building the joined lines. */
  method DrawWrappedText(width: string -> int, lessons: seq<string>, rect: Rect) returns (lines: seq<string>)
    ensures lines == WrapLines(width, rect.x2 - rect.x1, lessons)
  {
    var maxWidth := rect.x2 - rect.x1;
    lines := [];
    var currentLine: seq<string> := [];
    var k := 0;
    while k < |lessons|
      invariant 0 <= k <= |lessons|
      invariant var st := WrapFold(width, maxWidth, lessons[..k]);
        lines == JoinLines(st.done) && currentLine == st.current
    {
      var word := lessons[k];
      assert lessons[..k + 1][..k] == lessons[..k];
      var testLine := Join(" ", currentLine + [word]);
      var textWidth := width(testLine);
      word := if Contains(word, "none") then "" else word;
      if textWidth <= maxWidth {
        currentLine := currentLine + [word];
      } else {
        lines := lines + [Join(" ", currentLine)];
        currentLine := [word];
      }
      k := k + 1;
    }
    assert lessons[..k] == lessons;
    if |currentLine| > 0 {
      lines := lines + [Join(" ", currentLine)];
    }
  }

  // ---------------------------------------------------------------------------
  // The whole picture.

  /** One lesson cell that is drawn: its day and slot index, its rectangle
      and its wrapped lines. */
  datatype DrawnCell = DrawnCell(day: nat, slot: nat, rect: Rect, lines: seq<string>)

  datatype Picture = Picture(width: int, height: int, header: string, grid: seq<Rect>,
                             dayLabels: seq<(Rect, string)>, slotLabels: seq<(Rect, string)>,
                             cells: seq<DrawnCell>)

  /** What `generate_weekly_schedule_image` draws for a week: the
      1500 x 940 canvas, the centred header, the outline of the table column
      by column, the five day names and six time slots centred in the first
      row and column, and the wrapped lessons of every non-empty cell. */
  predicate SchedulePicture(pic: Picture, week: map<string, SlotTable>, u: string, d: string, g: string,
                            width: string -> int)
  {
    && pic.width == ImageWidth && pic.height == ImageHeight
    && pic.header == HeaderText(u, d, g)
    && |pic.grid| == (NumDays + 2) * (NumSlots + 1)
    && (forall i, j :: 0 <= i < NumDays + 2 && 0 <= j < NumSlots + 1 ==>
          pic.grid[i * (NumSlots + 1) + j] == GridRect(i, j))
    && |pic.dayLabels| == NumDays
    && (forall i :: 0 <= i < NumDays ==> pic.dayLabels[i] == (DayLabelRect(i), Days[i]))
    && |pic.slotLabels| == NumSlots
    && (forall j :: 0 <= j < NumSlots ==> pic.slotLabels[j] == (SlotLabelRect(j), TimeSlots[j]))
    && pic.cells == TableCells(week, width, NumSlots)
  }

  function HeaderText(u: string, d: string, g: string): string {
    "University: " + u + " | Degree: " + d + " | Group: " + g
  }

  /** The cells drawn for slot `j`, days `0..i-1`: only non-empty lists. */
  function RowCells(week: map<string, SlotTable>, width: string -> int, j: nat, i: nat): seq<DrawnCell>
    requires j < NumSlots && i <= NumDays
  {
    if i == 0 then [] else RowCells(week, width, j, i - 1) + CellDrawn(week, width, i - 1, j)
  }

  /** The cell of day `i` and slot `j`, when its lesson list is non-empty. */
  function CellDrawn(week: map<string, SlotTable>, width: string -> int, i: nat, j: nat): seq<DrawnCell>
    requires j < NumSlots && i < NumDays
  {
    var lessons := CellLessons(week, Days[i], TimeSlots[j]);
    if |lessons| > 0 then [DrawnCell(i, j, LessonRect(i, j), WrapLines(width, CellWidth, lessons))] else []
  }

  /** The cells drawn for slots `0..j-1`, slot-major. */
  function TableCells(week: map<string, SlotTable>, width: string -> int, j: nat): seq<DrawnCell>
    requires j <= NumSlots
  {
    if j == 0 then [] else TableCells(week, width, j - 1) + RowCells(week, width, j - 1, NumDays)
  }

  /** What a drawn cell must be: the cell of a non-empty lesson list, inside
      the canvas, with that list's wrapped lines. */
  predicate Proper(week: map<string, SlotTable>, width: string -> int, c: DrawnCell) {
    && c.day < NumDays && c.slot < NumSlots
    && |CellLessons(week, Days[c.day], TimeSlots[c.slot])| > 0
    && c.rect == LessonRect(c.day, c.slot) && InsideImage(c.rect)
    && c.lines == WrapLines(width, CellWidth, CellLessons(week, Days[c.day], TimeSlots[c.slot]))
  }

  lemma {:induction false} RowCellsProper(week: map<string, SlotTable>, width: string -> int, j: nat, i: nat)
    requires j < NumSlots && i <= NumDays
    ensures forall c :: c in RowCells(week, width, j, i) ==> Proper(week, width, c) && c.slot == j && c.day < i
  {
    if i > 0 {
      RowCellsProper(week, width, j, i - 1);
      CellDrawnProper(week, width, i - 1, j);
      var before, last := RowCells(week, width, j, i - 1), CellDrawn(week, width, i - 1, j);
      assert RowCells(week, width, j, i) == before + last;
      forall c | c in before + last ensures Proper(week, width, c) && c.slot == j && c.day < i {
        if c !in before {
          assert c == last[0];
        }
      }
    }
  }

  /** Some cell of `cells` is drawn for day `i` and slot `j`. */
  predicate Drawn(cells: seq<DrawnCell>, i: nat, j: nat) {
    exists c :: c in cells && c.day == i && c.slot == j
  }

  lemma DrawnAppend(a: seq<DrawnCell>, b: seq<DrawnCell>, i: nat, j: nat)
    requires Drawn(a, i, j) || Drawn(b, i, j)
    ensures Drawn(a + b, i, j)
  {
    if Drawn(a, i, j) {
      var c :| c in a && c.day == i && c.slot == j;
      assert c in a + b;
    } else {
      var c :| c in b && c.day == i && c.slot == j;
      assert c in a + b;
    }
  }

  lemma {:induction false} RowCellsCover(week: map<string, SlotTable>, width: string -> int, j: nat, i: nat)
    requires j < NumSlots && i <= NumDays
    ensures forall i' :: 0 <= i' < i && |CellLessons(week, Days[i'], TimeSlots[j])| > 0 ==>
      Drawn(RowCells(week, width, j, i), i', j)
  {
    if i > 0 {
      RowCellsCover(week, width, j, i - 1);
      CellDrawnCovers(week, width, i - 1, j);
      var before, last := RowCells(week, width, j, i - 1), CellDrawn(week, width, i - 1, j);
      assert RowCells(week, width, j, i) == before + last;
      forall i' | 0 <= i' < i && |CellLessons(week, Days[i'], TimeSlots[j])| > 0
        ensures Drawn(before + last, i', j)
      {
        if i' < i - 1 {
          assert Drawn(before, i', j);
        }
        DrawnAppend(before, last, i', j);
      }
    }
  }

  /** The cell drawn for a day and slot, if any, is proper. */
  lemma CellDrawnProper(week: map<string, SlotTable>, width: string -> int, i: nat, j: nat)
    requires j < NumSlots && i < NumDays
    ensures |CellDrawn(week, width, i, j)| <= 1
    ensures |CellDrawn(week, width, i, j)| == 1 ==>
      var c := CellDrawn(week, width, i, j)[0];
      Proper(week, width, c) && c.slot == j && c.day == i
  {
    CellsInsideImage(i, j);
  }

  /** A non-empty lesson list is drawn. */
  lemma CellDrawnCovers(week: map<string, SlotTable>, width: string -> int, i: nat, j: nat)
    requires j < NumSlots && i < NumDays
    ensures |CellLessons(week, Days[i], TimeSlots[j])| > 0 ==> Drawn(CellDrawn(week, width, i, j), i, j)
  {
    var cells := CellDrawn(week, width, i, j);
    if |cells| > 0 {
      assert cells[0] in cells;
    }
  }

  /** Every drawn cell is the cell of a non-empty lesson list and lies inside
      the canvas. A slot that is not one of the six fixed ones is never
      shown. */
  lemma {:induction false} TableCellsProper(week: map<string, SlotTable>, width: string -> int, j: nat)
    requires j <= NumSlots
    ensures forall c :: c in TableCells(week, width, j) ==> Proper(week, width, c) && c.slot < j
  {
    if j > 0 {
      TableCellsProper(week, width, j - 1);
      RowCellsProper(week, width, j - 1, NumDays);
      var before, row := TableCells(week, width, j - 1), RowCells(week, width, j - 1, NumDays);
      assert TableCells(week, width, j) == before + row;
      forall c | c in before + row ensures Proper(week, width, c) && c.slot < j {
        if c in before {
        } else {
          assert c in row;
        }
      }
    }
  }

  /** Every non-empty list of a weekday and a fixed slot is drawn. */
  lemma {:induction false} TableCellsCover(week: map<string, SlotTable>, width: string -> int, j: nat)
    requires j <= NumSlots
    ensures forall i', j' :: 0 <= i' < NumDays && 0 <= j' < j && |CellLessons(week, Days[i'], TimeSlots[j'])| > 0 ==>
      Drawn(TableCells(week, width, j), i', j')
  {
    if j > 0 {
      TableCellsCover(week, width, j - 1);
      RowCellsCover(week, width, j - 1, NumDays);
      var before, row := TableCells(week, width, j - 1), RowCells(week, width, j - 1, NumDays);
      assert TableCells(week, width, j) == before + row;
      forall i', j' | 0 <= i' < NumDays && 0 <= j' < j && |CellLessons(week, Days[i'], TimeSlots[j'])| > 0
        ensures Drawn(before + row, i', j')
      {
        DrawnAppend(before, row, i', j');
      }
    }
  }

  /** `generate_weekly_schedule_image` without the pixels. */
  method GenerateWeeklyScheduleImage(week: map<string, SlotTable>, u: string, d: string, g: string, width: string -> int)
    returns (pic: Picture)
    ensures SchedulePicture(pic, week, u, d, g, width)
  {
    var grid := DrawTable();
    var dayLabels := DayLabels();
    var slotLabels: seq<(Rect, string)> := [];
    var cells: seq<DrawnCell> := [];
    var j := 0;
    while j < |TimeSlots|
      invariant 0 <= j <= |TimeSlots|
      invariant |slotLabels| == j && forall j' :: 0 <= j' < j ==> slotLabels[j'] == (SlotLabelRect(j'), TimeSlots[j'])
      invariant cells == TableCells(week, width, j)
    {
      slotLabels := slotLabels + [(SlotLabelRect(j), TimeSlots[j])];
      var row := SlotRow(week, width, j);
      cells := cells + row;
      j := j + 1;
    }
    pic := Picture(ImageWidth, ImageHeight, HeaderText(u, d, g), grid, dayLabels, slotLabels, cells);
  }

  /** The outline loop: `range(num_days + 2)` columns by `range(num_slots + 1)`
      rows, column-major. */
  method DrawTable() returns (grid: seq<Rect>)
    ensures |grid| == (NumDays + 2) * (NumSlots + 1)
    ensures forall i, j :: 0 <= i < NumDays + 2 && 0 <= j < NumSlots + 1 ==>
      grid[i * (NumSlots + 1) + j] == GridRect(i, j)
  {
    grid := [];
    var i := 0;
    while i < NumDays + 2
      invariant 0 <= i <= NumDays + 2
      invariant |grid| == i * (NumSlots + 1)
      invariant forall i', j :: 0 <= i' < i && 0 <= j < NumSlots + 1 ==> grid[i' * (NumSlots + 1) + j] == GridRect(i', j)
    {
      var row := GridColumn(i);
      grid := grid + row;
      i := i + 1;
    }
  }

  /** The rows `range(num_slots + 1)` of one column of the outline loop. */
  method GridColumn(i: int) returns (col: seq<Rect>)
    ensures |col| == NumSlots + 1 && forall j :: 0 <= j < NumSlots + 1 ==> col[j] == GridRect(i, j)
  {
    col := [];
    var j := 0;
    while j < NumSlots + 1
      invariant 0 <= j <= NumSlots + 1
      invariant |col| == j && forall j' :: 0 <= j' < j ==> col[j'] == GridRect(i, j')
    {
      col := col + [GridRect(i, j)];
      j := j + 1;
    }
  }

  /** The day names along the top row. */
  method DayLabels() returns (dayLabels: seq<(Rect, string)>)
    ensures |dayLabels| == NumDays && forall i :: 0 <= i < NumDays ==> dayLabels[i] == (DayLabelRect(i), Days[i])
  {
    dayLabels := [];
    var i := 0;
    while i < |Days|
      invariant 0 <= i <= |Days|
      invariant |dayLabels| == i && forall i' :: 0 <= i' < i ==> dayLabels[i'] == (DayLabelRect(i'), Days[i'])
    {
      dayLabels := dayLabels + [(DayLabelRect(i), Days[i])];
      i := i + 1;
    }
  }

  /** The inner loop over the days for time slot `j`. */
  method SlotRow(week: map<string, SlotTable>, width: string -> int, j: nat) returns (cells: seq<DrawnCell>)
    requires j < NumSlots
    ensures cells == RowCells(week, width, j, NumDays)
  {
    cells := [];
    var i := 0;
    while i < |Days|
      invariant 0 <= i <= |Days|
      invariant cells == RowCells(week, width, j, i)
    {
      var drawn := DrawCell(week, width, i, j);
      cells := cells + drawn;
      i := i + 1;
    }
  }

  /** One step of the inner loop: the cell of day `i`, drawn only when it
      has lessons. */
  method DrawCell(week: map<string, SlotTable>, width: string -> int, i: nat, j: nat) returns (drawn: seq<DrawnCell>)
    requires j < NumSlots && i < NumDays
    ensures drawn == CellDrawn(week, width, i, j)
  {
    var lessons := CellLessons(week, Days[i], TimeSlots[j]);
    drawn := [];
    if |lessons| > 0 {
      var rect := LessonRect(i, j);
      LessonRectWidth(i, j);
      var lines := DrawWrappedText(width, lessons, rect);
      drawn := [DrawnCell(i, j, rect, lines)];
    }
  }
}
