/** One run of `check_for_sheet_changes` in scanner.py: every list of every
    course timetable is downloaded as `new_<course>_<list>.csv`, compared with
    the kept `<course>_<list>.csv`, and swapped in when it differs; one
    message then reports which courses changed. The working directory is a
    map from file name to content; the HTTP download, the CSV comparison and
    the answers to the final POST are parameters. */
module Scanner {
  import opened Wrappers
  import Retry

  type Bytes = seq<bv8>

  type FileSystem = map<string, Bytes>

  /** `requests.get` of one sheet export: a 200 with the body, any other
      status, or an exception (which nothing catches, so it ends the run). */
  datatype Download = Fetched(content: Bytes) | BadStatus | RequestRaised

  /** Reading both CSV files and `DataFrame.equals`: equal frames, different
      frames, or an exception while reading them. */
  datatype Comparison = SameFrame | DifferentFrame | ReadFailed

  /** The course timetables and their lists, in order. */
  const CourseTimetables: seq<(string, seq<string>)> := [
    ("1-course", ["list1", "list2"]),
    ("2-course", ["list1", "list2", "list3", "list4"]),
    ("3-course", ["list1"])
  ]

  function ListKey(course: string, list: string): string {
    course + "_" + list
  }

  function ExistingName(key: string): string {
    key + ".csv"
  }

  function NewName(key: string): string {
    "new_" + key + ".csv"
  }

  lemma NamesDiffer(key: string)
    ensures ExistingName(key) != NewName(key)
  {
    assert |NewName(key)| == |ExistingName(key)| + 4;
  }

  /** The effect of one list whose download did not raise on the files, and
      whether it marks the course as changed. */
  function ListResult(fs: FileSystem, key: string, dl: Download, compare: (Bytes, Bytes) -> Comparison): (r: (FileSystem, bool))
    requires !dl.RequestRaised?
    // a failed download changes nothing
    ensures dl.BadStatus? ==> r == (fs, false)
    // a fetched sheet leaves no new_ file behind
    ensures dl.Fetched? ==> NewName(key) !in r.0
    // with no kept file, the download becomes the kept file and the course changed
    ensures dl.Fetched? && ExistingName(key) !in fs ==>
      r.1 && ExistingName(key) in r.0 && r.0[ExistingName(key)] == dl.content
    // equal frames, or frames that cannot be read: the kept file stays, no change
    ensures dl.Fetched? && ExistingName(key) in fs && compare(fs[ExistingName(key)], dl.content) != DifferentFrame ==>
      !r.1 && ExistingName(key) in r.0 && r.0[ExistingName(key)] == fs[ExistingName(key)]
    // different frames: the kept file is replaced by the download, the course changed
    ensures dl.Fetched? && ExistingName(key) in fs && compare(fs[ExistingName(key)], dl.content) == DifferentFrame ==>
      r.1 && ExistingName(key) in r.0 && r.0[ExistingName(key)] == dl.content
    // no other file is touched
    ensures forall f :: f != ExistingName(key) && f != NewName(key) ==>
      (f in r.0 <==> f in fs) && (f in fs ==> r.0[f] == fs[f])
  {
    NamesDiffer(key);
    match dl
    case BadStatus => (fs, false)
    case Fetched(content) =>
      var existing, newFile := ExistingName(key), NewName(key);
      var written := fs[newFile := content];
      if existing in written then
        match compare(written[existing], written[newFile])
        case DifferentFrame => ((written - {existing} - {newFile})[existing := content], true)
        case SameFrame => (written - {newFile}, false)
        case ReadFailed => (written - {newFile}, false)
      else ((written - {newFile})[existing := content], true)
  }

  /** The state of a run: the files, the `changes` text so far, the courses
      marked changed (in order), and whether a download raised. */
  datatype Run = Run(fs: FileSystem, changes: string, changed: seq<string>, raised: bool)

  /** The lists of one course, the last one processed last: the files and
      the `course_changed` flag, or the point where a download raised. */
  function CourseLists(fs: FileSystem, course: string, lists: seq<string>,
                       download: string -> Download, compare: (Bytes, Bytes) -> Comparison): (FileSystem, bool, bool)
  {
    if |lists| == 0 then (fs, false, false)
    else
      var (fs1, changed, raised) := CourseLists(fs, course, lists[..|lists| - 1], download, compare);
      if raised then (fs1, changed, true)
      else
        var key := ListKey(course, lists[|lists| - 1]);
        var dl := download(key);
        if dl.RequestRaised? then (fs1, changed, true)
        else
          var (fs2, c) := ListResult(fs1, key, dl, compare);
          (fs2, changed || c, false)
  }

  function ChangeNote(course: string): string {
    "Changes in " + course + " timetable. "
  }

  /** The courses, the last one processed last. */
  function Scan(fs: FileSystem, courses: seq<(string, seq<string>)>,
                download: string -> Download, compare: (Bytes, Bytes) -> Comparison): Run
  {
    if |courses| == 0 then Run(fs, "", [], false)
    else
      var run := Scan(fs, courses[..|courses| - 1], download, compare);
      if run.raised then run
      else
        var (course, lists) := courses[|courses| - 1];
        var (fs1, changed, raised) := CourseLists(run.fs, course, lists, download, compare);
        if raised then Run(fs1, run.changes, run.changed, true)
        else if changed then Run(fs1, run.changes + ChangeNote(course), run.changed + [course], false)
        else Run(fs1, run.changes, run.changed, false)
  }

  /** The single message of a run. */
  function Report(changes: string): string {
    if changes != "" then "*" + changes + "*" else "No changes found"
  }

  function Notes(courses: seq<string>): string {
    if |courses| == 0 then "" else Notes(courses[..|courses| - 1]) + ChangeNote(courses[|courses| - 1])
  }

  /** `changes` is the in-order concatenation of one note per changed course,
      so the report says "No changes found" exactly when no course changed;
      only courses of the timetable can be reported. */
  lemma ScanChanges(fs: FileSystem, courses: seq<(string, seq<string>)>,
                    download: string -> Download, compare: (Bytes, Bytes) -> Comparison)
    ensures var run := Scan(fs, courses, download, compare);
      && run.changes == Notes(run.changed)
      && (Report(run.changes) == "No changes found" <==> run.changed == [])
      && (forall c :: c in run.changed ==> exists i :: 0 <= i < |courses| && courses[i].0 == c)
  {
    ScanNotes(fs, courses, download, compare);
    ScanCourses(fs, courses, download, compare);
    var run := Scan(fs, courses, download, compare);
    if run.changed != [] {
      NotesNonEmpty(run.changed);
      assert Report(run.changes)[0] == '*';
    }
  }

  lemma {:induction false} ScanNotes(fs: FileSystem, courses: seq<(string, seq<string>)>,
                                     download: string -> Download, compare: (Bytes, Bytes) -> Comparison)
    ensures var run := Scan(fs, courses, download, compare);
      run.changes == Notes(run.changed)
  {
    if |courses| > 0 {
      var front := courses[..|courses| - 1];
      ScanNotes(fs, front, download, compare);
      var prev := Scan(fs, front, download, compare);
      NotesSnoc(prev.changed, courses[|courses| - 1].0);
    }
  }

  lemma NotesSnoc(cs: seq<string>, c: string)
    ensures Notes(cs + [c]) == Notes(cs) + ChangeNote(c)
  {
    assert (cs + [c])[..|cs|] == cs;
  }

  lemma NotesNonEmpty(cs: seq<string>)
    requires cs != []
    ensures |Notes(cs)| > 0
  {
  }

  lemma {:induction false} ScanCourses(fs: FileSystem, courses: seq<(string, seq<string>)>,
                                       download: string -> Download, compare: (Bytes, Bytes) -> Comparison)
    ensures forall c :: c in Scan(fs, courses, download, compare).changed ==>
      exists i :: 0 <= i < |courses| && courses[i].0 == c
  {
    if |courses| > 0 {
      var front := courses[..|courses| - 1];
      ScanCourses(fs, front, download, compare);
      var prev := Scan(fs, front, download, compare);
      var run := Scan(fs, courses, download, compare);
      assert run.changed == prev.changed || run.changed == prev.changed + [courses[|courses| - 1].0];
      forall c | c in run.changed ensures exists i :: 0 <= i < |courses| && courses[i].0 == c {
        if c in prev.changed {
          assert exists i :: 0 <= i < |front| && front[i].0 == c;
          var i :| 0 <= i < |front| && front[i].0 == c;
          assert courses[i] == front[i];
        } else {
          assert courses[|courses| - 1].0 == c;
        }
      }
    }
  }

  // ---------------------------------------------------------------------------
  // The run as the source writes it.

  /** The inner loop: the lists of one course. */
  method ProcessCourse(fs0: FileSystem, course: string, lists: seq<string>,
                       download: string -> Download, compare: (Bytes, Bytes) -> Comparison)
    returns (fs: FileSystem, courseChanged: bool, raised: bool)
    ensures (fs, courseChanged, raised) == CourseLists(fs0, course, lists, download, compare)
  {
    fs, courseChanged, raised := fs0, false, false;
    var k := 0;
    while k < |lists|
      invariant 0 <= k <= |lists|
      invariant (fs, courseChanged, false) == CourseLists(fs0, course, lists[..k], download, compare)
    {
      assert lists[..k + 1][..k] == lists[..k];
      var key := ListKey(course, lists[k]);
      var dl := download(key);
      if dl.RequestRaised? {
        CourseStaysRaised(fs0, course, lists, k + 1, download, compare);
        return fs, courseChanged, true;
      }
      if dl.Fetched? {
        var newFile := NewName(key);
        fs := fs[newFile := dl.content];
        var existingFile := ExistingName(key);
        if existingFile in fs {
          var outcome := compare(fs[existingFile], fs[newFile]);
          if outcome == DifferentFrame {
            fs := fs - {existingFile};
            var moved := fs[newFile];
            fs := (fs - {newFile})[existingFile := moved];
            courseChanged := true;
          } else {
            fs := fs - {newFile};
          }
        } else {
          var moved := fs[newFile];
          fs := (fs - {newFile})[existingFile := moved];
          courseChanged := true;
        }
      }
      k := k + 1;
    }
    assert lists[..k] == lists;
  }

  /** `check_for_sheet_changes`: returns the files afterwards, the message
      sent (none when a download raised) and whether it got through. */
  method CheckForSheetChanges(fs0: FileSystem, download: string -> Download,
                              compare: (Bytes, Bytes) -> Comparison, respond: nat -> Retry.Response)
    returns (fs: FileSystem, message: Option<string>, delivered: bool)
    ensures var run := Scan(fs0, CourseTimetables, download, compare);
      && fs == run.fs
      && (run.raised ==> message == None && !delivered)
      && (!run.raised ==> message == Some(Report(run.changes)))
      && (!run.raised ==> (delivered <==> exists a: nat :: a < 3 && Retry.Delivered(respond(a))))
  {
    fs := fs0;
    var changes := "";
    ghost var changed: seq<string> := [];
    var c := 0;
    while c < |CourseTimetables|
      invariant 0 <= c <= |CourseTimetables|
      invariant Run(fs, changes, changed, false) == Scan(fs0, CourseTimetables[..c], download, compare)
    {
      assert CourseTimetables[..c + 1][..c] == CourseTimetables[..c];
      var (course, lists) := CourseTimetables[c];
      var courseChanged, raised;
      fs, courseChanged, raised := ProcessCourse(fs, course, lists, download, compare);
      if raised {
        assert Scan(fs0, CourseTimetables[..c + 1], download, compare).raised;
        ScanStaysRaised(fs0, CourseTimetables, c + 1, download, compare);
        return fs, None, false;
      }
      if courseChanged {
        changes := changes + ChangeNote(course);
        changed := changed + [course];
      }
      c := c + 1;
    }
    assert CourseTimetables[..c] == CourseTimetables;
    var text := if changes != "" then "*" + changes + "*" else "No changes found";
    var sent, _ := Retry.SendMessage(3, respond);
    return fs, Some(text), sent;
  }

  /** Once a download has raised, the rest of the courses are not looked at. */
  lemma {:induction false} ScanStaysRaised(fs: FileSystem, courses: seq<(string, seq<string>)>, n: nat,
                                           download: string -> Download, compare: (Bytes, Bytes) -> Comparison)
    requires n <= |courses| && Scan(fs, courses[..n], download, compare).raised
    ensures Scan(fs, courses, download, compare) == Scan(fs, courses[..n], download, compare)
  {
    if n < |courses| {
      assert courses[..|courses| - 1][..n] == courses[..n];
      ScanStaysRaised(fs, courses[..|courses| - 1], n, download, compare);
    } else {
      assert courses[..n] == courses;
    }
  }

  lemma {:induction false} CourseStaysRaised(fs: FileSystem, course: string, lists: seq<string>, n: nat,
                                             download: string -> Download, compare: (Bytes, Bytes) -> Comparison)
    requires n <= |lists| && CourseLists(fs, course, lists[..n], download, compare).2
    ensures CourseLists(fs, course, lists, download, compare) == CourseLists(fs, course, lists[..n], download, compare)
  {
    if n < |lists| {
      assert lists[..|lists| - 1][..n] == lists[..n];
      CourseStaysRaised(fs, course, lists[..|lists| - 1], n, download, compare);
    } else {
      assert lists[..n] == lists;
    }
  }
}
