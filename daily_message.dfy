/** The daily schedule text built by `get_schedule`: the current bot's
    reply (plain labels) and the reminder service's text (the same layout
    with an emoji before every label). A lesson entry is the list of its
    comma-separated fields: subject, teacher name, teacher info. */
module DailyMessage {
  import opened Wrappers
  import opened PyText
  import opened OrderedDict
  import opened Store
  import opened Users

  /** What a lesson entry holds. */
  type Lesson = seq<string>

  /** The Python exceptions the builders can raise. */
  datatype Failure = IndexError | KeyError

  /** The label prefixes and the "no lessons" tail of one of the two texts. */
  datatype Style = Style(
    schedulePrefix: string, universityPrefix: string, degreePrefix: string,
    groupPrefix: string, slotPrefix: string, subjectPrefix: string,
    teacherPrefix: string, noLessons: string)

  /** The reply of the current bot (main.py). */
  const BotStyle := Style("", "", "", "", "", "", "", "Lessons: No lessons scheduled for today.")

  /** The text of the reminder service (dailyreminders.py). */
  const ReminderStyle := Style(
    "\U{1F4C5} ", "\U{1F3EB} ", "\U{1F393} ", "\U{1F465} ",
    "\U{1F552} ", "\U{1F4D8} ", "\U{1F464} ", "\nNo lessons scheduled for today.")

  const NotRegisteredText := "You are not registered yet. Use /start to register."

  const UserNotFoundText := "User information not found."

  /** What the reminder text names for a field the record lacks. */
  const UnknownUniversity := "Unknown University"
  const UnknownDegree := "Unknown Degree"
  const UnknownGroup := "Unknown Group"

  /** The four lines naming the day, university, degree and group. */
  function Header(st: Style, today: string, u: string, d: string, g: string): string {
    st.schedulePrefix + "Schedule for *" + today + "*:\n\n"
    + st.universityPrefix + "University: *" + u + "*\n"
    + st.degreePrefix + "Degree: *" + d + "*\n"
    + st.groupPrefix + "Group: *" + g + "*\n"
  }

  function SlotLine(st: Style, slot: string): string {
    st.slotPrefix + "*" + slot + "*\n"
  }

  function SubjectLine(st: Style, subject: string): string {
    st.subjectPrefix + "Subject: " + subject + "\n"
  }

  /** The teacher line of an entry with at least three fields: the stripped
      name, then the stripped info in parentheses unless it reads "none". */
  function TeacherLine(st: Style, name: string, info: string): string {
    st.teacherPrefix + "Teacher: " + Strip(name) + Parenthetical(info) + "\n"
  }

  function Parenthetical(info: string): string {
    if IsNoneMarker(info) then "" else " (" + Strip(info) + ")"
  }

  /** What follows the slot line in a slot's block. An entry without
      fields, or with exactly two, makes the builder index past its end. */
  function LessonBody(st: Style, lesson: Lesson): (r: Result<string, Failure>)
    ensures r.Failure? <==> |lesson| == 0 || |lesson| == 2
    ensures r.Failure? ==> r.error == IndexError
  {
    if |lesson| == 0 then Failure(IndexError)
    else if |lesson| == 1 then Success(SubjectLine(st, lesson[0]) + "\n")
    else if |lesson| == 2 then Failure(IndexError)
    else Success(SubjectLine(st, lesson[0]) + TeacherLine(st, lesson[1], lesson[2]) + "\n")
  }

  /** The block for one time slot. */
  function LessonBlock(st: Style, slot: string, lesson: Lesson): (r: Result<string, Failure>)
    ensures r.Failure? <==> |lesson| == 0 || |lesson| == 2
    ensures r.Failure? ==> r.error == IndexError
  {
    match LessonBody(st, lesson)
    case Failure(e) => Failure(e)
    case Success(b) => Success(SlotLine(st, slot) + b)
  }

  /** An entry the builder cannot print: no field, or exactly two. */
  predicate Unprintable(lesson: Lesson) {
    |lesson| == 0 || |lesson| == 2
  }

  /** Some entry of the day cannot be printed. */
  predicate HasUnprintable(items: SlotTable) {
    exists k :: 0 <= k < |items| && Unprintable(items[k].1)
  }

  /** A non-empty day has an unprintable entry exactly when its front has
      one or its last entry is one. */
  lemma HasUnprintableSnoc(items: SlotTable)
    requires |items| > 0
    ensures HasUnprintable(items) <==>
      HasUnprintable(items[..|items| - 1]) || Unprintable(items[|items| - 1].1)
  {
    var n := |items| - 1;
    var front := items[..n];
    if HasUnprintable(front) {
      var k :| 0 <= k < |front| && Unprintable(front[k].1);
      assert items[k] == front[k];
    }
    if HasUnprintable(items) {
      var k :| 0 <= k < |items| && Unprintable(items[k].1);
      if k < n {
        assert front[k] == items[k];
      }
    }
  }

  /** The blocks of all slots in order. The text fails, with IndexError,
      exactly when some entry of the day has no field or exactly two. */
  function LessonsText(st: Style, items: SlotTable): (r: Result<string, Failure>)
    ensures r.Failure? <==> HasUnprintable(items)
    ensures r.Failure? ==> r.error == IndexError
  {
    if |items| == 0 then Success("")
    else
      HasUnprintableSnoc(items);
      match LessonsText(st, items[..|items| - 1])
      case Failure(e) => Failure(e)
      case Success(t) =>
        match LessonBlock(st, items[|items| - 1].0, items[|items| - 1].1)
        case Failure(e) => Failure(e)
        case Success(b) => Success(t + b)
  }

  /** A built day is the text of all slots but the last followed by the
      last slot's block (a proof helper for the lemmas below). */
  lemma LessonsTextLast(st: Style, items: SlotTable)
    requires |items| > 0 && LessonsText(st, items).Success?
    ensures LessonsText(st, items[..|items| - 1]).Success?
    ensures LessonBlock(st, items[|items| - 1].0, items[|items| - 1].1).Success?
    ensures LessonsText(st, items).value ==
      LessonsText(st, items[..|items| - 1]).value + LessonBlock(st, items[|items| - 1].0, items[|items| - 1].1).value
  {
  }

  /** Every time slot of a successfully built day appears in it, in the
      slot line "*slot*\n". */
  lemma {:induction false} LessonsTextShowsSlots(st: Style, items: SlotTable, k: nat)
    requires k < |items|
    requires LessonsText(st, items).Success?
    ensures Contains(LessonsText(st, items).value, SlotLine(st, items[k].0))
  {
    var n := |items| - 1;
    var front := items[..n];
    LessonsTextLast(st, items);
    var t := LessonsText(st, front).value;
    var b := LessonBlock(st, items[n].0, items[n].1).value;
    var line := SlotLine(st, items[k].0);
    if k < n {
      assert front[k] == items[k];
      LessonsTextShowsSlots(st, front, k);
      ContainsInPrefix(t, b, line);
    } else {
      assert k == n;
      BlockStartsWithSlot(st, items[n].0, items[n].1);
      ContainsInSuffix(t, b, line);
    }
    assert Contains(t + b, line);
    assert LessonsText(st, items).value == t + b;
  }

  /** Every entry of a successfully built day can be printed, and the text
      holds its block: the slot line, the subject line, the teacher line when
      the entry has a third field, and a blank line. */
  lemma LessonsTextShowsLessons(st: Style, items: SlotTable, k: nat)
    requires k < |items|
    requires LessonsText(st, items).Success?
    ensures |items[k].1| == 1 || |items[k].1| >= 3
    ensures var slot, lesson := items[k].0, items[k].1;
      |lesson| == 1 ==>
        Contains(LessonsText(st, items).value, SlotLine(st, slot) + (SubjectLine(st, lesson[0]) + "\n"))
    ensures var slot, lesson := items[k].0, items[k].1;
      |lesson| >= 3 ==>
        Contains(LessonsText(st, items).value,
                 SlotLine(st, slot) + (SubjectLine(st, lesson[0]) + TeacherLine(st, lesson[1], lesson[2]) + "\n"))
  {
    assert !Unprintable(items[k].1);
    LessonsTextShowsBlock(st, items, k);
  }

  /** The block of every slot of a successfully built day is in the text. */
  lemma {:induction false} LessonsTextShowsBlock(st: Style, items: SlotTable, k: nat)
    requires k < |items|
    requires LessonsText(st, items).Success?
    ensures LessonBlock(st, items[k].0, items[k].1).Success?
    ensures Contains(LessonsText(st, items).value, LessonBlock(st, items[k].0, items[k].1).value)
  {
    var n := |items| - 1;
    var front := items[..n];
    LessonsTextLast(st, items);
    var t := LessonsText(st, front).value;
    var b := LessonBlock(st, items[n].0, items[n].1).value;
    if k < n {
      assert front[k] == items[k];
      LessonsTextShowsBlock(st, front, k);
      ContainsInPrefix(t, b, LessonBlock(st, items[k].0, items[k].1).value);
    } else {
      assert k == n;
      ContainsSelf(b);
      ContainsInSuffix(t, b, b);
      assert Contains(t + b, LessonBlock(st, items[k].0, items[k].1).value);
    }
    assert LessonsText(st, items).value == t + b;
  }

  /** The teacher line shows the stripped teacher info in parentheses
      unless the info reads "none"; when neither the label prefix nor the
      name holds a '(', the line holds one exactly when the info is shown. */
  lemma TeacherLineShowsInfo(st: Style, name: string, info: string)
    requires '(' !in st.teacherPrefix && '(' !in Strip(name)
    ensures '(' in TeacherLine(st, name, info) <==> !IsNoneMarker(info)
    ensures !IsNoneMarker(info) ==> Contains(TeacherLine(st, name, info), "(" + Strip(info) + ")")
  {
    var a := st.teacherPrefix + "Teacher: " + Strip(name);
    var p := Parenthetical(info);
    assert '(' !in a by {
      assert '(' !in "Teacher: ";
    }
    assert TeacherLine(st, name, info) == a + p + "\n";
    if !IsNoneMarker(info) {
      var x := "(" + Strip(info) + ")";
      assert p == " " + x;
      assert p[1] == '(';
      ContainsOwnPrefix(x, "\n");
      assert p + "\n" == " " + (x + "\n");
      ContainsInSuffix(" ", x + "\n", x);
      ContainsInSuffix(a, p + "\n", x);
      assert a + (p + "\n") == a + p + "\n";
    } else {
      assert p == "";
    }
  }

  lemma BlockStartsWithSlot(st: Style, slot: string, lesson: Lesson)
    requires LessonBlock(st, slot, lesson).Success?
    ensures Contains(LessonBlock(st, slot, lesson).value, SlotLine(st, slot))
  {
    ContainsOwnPrefix(SlotLine(st, slot), LessonBody(st, lesson).value);
  }

  lemma ContainsSelf(a: string)
    ensures Contains(a, a)
  {
    assert a[..|a|] == a;
  }

  lemma ContainsOwnPrefix(a: string, b: string)
    ensures Contains(a + b, a)
  {
    assert (a + b)[..|a|] == a;
  }

  lemma {:induction false} ContainsInPrefix(a: string, b: string, x: string)
    requires Contains(a, x)
    ensures Contains(a + b, x)
  {
    if StartsWith(a, x) {
      assert (a + b)[..|x|] == a[..|x|];
    } else {
      ContainsInPrefix(a[1..], b, x);
      assert (a + b)[1..] == a[1..] + b;
    }
  }

  lemma {:induction false} ContainsInSuffix(a: string, b: string, x: string)
    requires Contains(b, x)
    ensures Contains(a + b, x)
  {
    if |a| > 0 {
      ContainsInSuffix(a[1..], b, x);
      assert (a + b)[1..] == a[1..] + b;
    } else {
      assert a + b == b;
    }
  }

  /** The whole text for a day looked up in the store: with a non-empty
      table, the header, a "*Lessons:*" line and the blocks; otherwise (no
      such day, or an empty table) the header and the "no lessons" tail. */
  function ScheduleText(st: Style, today: string, u: string, d: string, g: string, day: Option<SlotTable>): Result<string, Failure>
  {
    if day.Some? && |day.value| > 0 then
      match LessonsText(st, day.value)
      case Failure(e) => Failure(e)
      case Success(t) => Success(Header(st, today, u, d, g) + "\n*Lessons:*\n" + t)
    else Success(Header(st, today, u, d, g) + st.noLessons)
  }

  lemma LessonsTextStep(st: Style, items: SlotTable, i: nat)
    requires i < |items|
    requires LessonsText(st, items[..i]).Success?
    requires LessonBlock(st, items[i].0, items[i].1).Success?
    ensures LessonsText(st, items[..i + 1]) ==
      Success(LessonsText(st, items[..i]).value + LessonBlock(st, items[i].0, items[i].1).value)
  {
    assert items[..i + 1][..i] == items[..i];
  }

  lemma DropPrefixOfConcat(head: string, x: string, y: string)
    requires |head| <= |x| && x[..|head|] == head
    ensures |head| <= |x + y| && (x + y)[..|head|] == head
    ensures (x + y)[|head|..] == x[|head|..] + y
  {
    assert (x + y)[..|head|] == x[..|head|];
  }

  /** One pass of `get_schedule`'s loop body: appends the slot line, the
      subject line, the teacher line when there is one, and a blank line;
      indexing a missing field raises. */
  method AppendBlock(st: Style, message: string, slot: string, lesson: Lesson)
    returns (r: Result<string, Failure>)
    ensures r.Success? <==> LessonBlock(st, slot, lesson).Success?
    ensures r.Success? ==> r.value == message + LessonBlock(st, slot, lesson).value
    ensures r.Failure? ==> r.error == IndexError
  {
    var m := message + SlotLine(st, slot);
    if |lesson| == 0 {
      return Failure(IndexError);
    }
    m := m + SubjectLine(st, lesson[0]);
    ghost var body := SubjectLine(st, lesson[0]);
    if |lesson| > 1 {
      if |lesson| < 3 {
        return Failure(IndexError);
      }
      m := m + TeacherLine(st, lesson[1], lesson[2]);
      body := body + TeacherLine(st, lesson[1], lesson[2]);
    }
    m := m + "\n";
    body := body + "\n";
    assert LessonBody(st, lesson) == Success(body);
    assert m == message + (SlotLine(st, slot) + body);
    r := Success(m);
  }

  /** `get_schedule`'s loop: appends each slot's lines to the message in
      turn and gives up at the first entry it cannot index. */
  method BuildScheduleText(st: Style, today: string, u: string, d: string, g: string, day: Option<SlotTable>)
    returns (r: Result<string, Failure>)
    ensures r == ScheduleText(st, today, u, d, g, day)
  {
    if !(day.Some? && |day.value| > 0) {
      return Success(Header(st, today, u, d, g) + st.noLessons);
    }
    var items := day.value;
    var head := Header(st, today, u, d, g) + "\n*Lessons:*\n";
    var message := head;
    var i := 0;
    assert message[|head|..] == "";
    while i < |items|
      invariant 0 <= i <= |items|
      invariant |head| <= |message| && message[..|head|] == head
      invariant LessonsText(st, items[..i]) == Success(message[|head|..])
    {
      var next := AppendBlock(st, message, items[i].0, items[i].1);
      if next.Failure? {
        assert Unprintable(items[i].1);
        assert HasUnprintable(items);
        return Failure(IndexError);
      }
      LessonsTextStep(st, items, i);
      DropPrefixOfConcat(head, message, LessonBlock(st, items[i].0, items[i].1).value);
      message := next.value;
      assert LessonsText(st, items[..i + 1]) == Success(message[|head|..]);
      i := i + 1;
    }
    assert items[..i] == items;
    assert message == head + message[|head|..];
    assert LessonsText(st, items) == Success(message[|head|..]);
    r := Success(message);
  }

  /** The current bot's `/schedule` reply for user key `key`, or the
      exception it raises. */
  function BotReply(users: UsersTable, s: Schedules<SlotTable>, key: string, today: string): Result<string, Failure>
  {
    if key !in users then Success(NotRegisteredText)
    else
      var rec := users[key];
      if UniversityKey !in rec || DegreeKey !in rec || GroupKey !in rec then Failure(KeyError)
      else
        var u, d, g := rec[UniversityKey], rec[DegreeKey], rec[GroupKey];
        ScheduleText(BotStyle, today, u, d, g, DayLookup(s, u, d, g, today))
  }

  /** An unregistered user gets only the "not registered" reply. */
  lemma BotReplyUnregistered(users: UsersTable, s: Schedules<SlotTable>, key: string, today: string)
    requires key !in users
    ensures BotReply(users, s, key, today) == Success(NotRegisteredText)
  {
  }

  /** When some level of the lookup is missing, or the day holds no slot,
      the reply is the "No lessons scheduled" text. */
  lemma BotReplyNoLessons(users: UsersTable, s: Schedules<SlotTable>, key: string, today: string)
    requires key in users && Users.FieldNames <= users[key].Keys
    requires var rec := users[key];
      var u, d, g := rec[UniversityKey], rec[DegreeKey], rec[GroupKey];
      !HasDay(s, u, d, g, today) || |s[u].degrees[d].groups[g][today]| == 0
    ensures var rec := users[key];
      BotReply(users, s, key, today) ==
        Success(Header(BotStyle, today, rec[UniversityKey], rec[DegreeKey], rec[GroupKey])
          + "Lessons: No lessons scheduled for today.")
  {
  }

  /** The reminder text of dailyreminders.py for user key `key`: absent or
      empty records give "User information not found."; missing fields
      default to "Unknown University", "Unknown Degree", "Unknown Group". */
  function ReminderText(users: UsersTable, s: Schedules<SlotTable>, key: string, today: string): Result<string, Failure>
  {
    var rec := if key in users then users[key] else map[];
    if |rec| == 0 then Success(UserNotFoundText)
    else
      var u := FieldOr(rec, UniversityKey, UnknownUniversity);
      var d := FieldOr(rec, DegreeKey, UnknownDegree);
      var g := FieldOr(rec, GroupKey, UnknownGroup);
      ScheduleText(ReminderStyle, today, u, d, g, DayLookup(s, u, d, g, today))
  }

  /** A reminder for an unknown user or an empty record says so. */
  lemma ReminderUnknownUser(users: UsersTable, s: Schedules<SlotTable>, key: string, today: string)
    requires key !in users || users[key] == map[]
    ensures ReminderText(users, s, key, today) == Success(UserNotFoundText)
  {
  }

  /** A record without a group field is looked up under "Unknown Group";
      when that lookup misses, the reminder is the "No lessons" text. */
  lemma ReminderDefaults(users: UsersTable, s: Schedules<SlotTable>, key: string, today: string)
    requires key in users && users[key] != map[]
    ensures var rec := users[key];
      var u := if UniversityKey in rec then rec[UniversityKey] else UnknownUniversity;
      var d := if DegreeKey in rec then rec[DegreeKey] else UnknownDegree;
      var g := if GroupKey in rec then rec[GroupKey] else UnknownGroup;
      !HasDay(s, u, d, g, today) ==>
        ReminderText(users, s, key, today) ==
          Success(Header(ReminderStyle, today, u, d, g) + "\nNo lessons scheduled for today.")
  {
  }
}
