/** One tick of `check_notifications` in dailyreminders.py: read the times
    file, pick the users whose stored "HH:MM" equals the current time, and
    send each of them the day's schedule text. The clock is the parameter
    `now`, the weekday name the parameter `today`; the network answers of the
    n-th send are `respond(n)`. */
module Reminders {
  import opened Wrappers
  import opened OrderedDict
  import opened Store
  import opened Users
  import opened DailyMessage
  import Retry

  /** `schedule_times.json` as the tick finds it: absent (FileNotFoundError),
      not loadable (any other exception), or its entries in file order. */
  datatype TimesFile = Missing | Unreadable | Loaded(entries: seq<(string, string)>)

  /** How the tick ended. */
  datatype TickEnd = Completed | FileMissing | FileUnreadable | Aborted(error: Failure)

  /** One message handed to `send_message`, and whether it got through. */
  datatype Send = Send(to: string, text: string, delivered: bool)

  /** The users to notify at `now`, in the order of the file. */
  function Selected(entries: seq<(string, string)>, now: string): seq<string>
  {
    if |entries| == 0 then []
    else
      var last := entries[|entries| - 1];
      Selected(entries[..|entries| - 1], now) + (if last.1 == now then [last.0] else [])
  }

  /** Selecting from two parts of the file one after the other selects from
      the whole file. */
  lemma {:induction false} SelectedAppend(a: seq<(string, string)>, b: seq<(string, string)>, now: string)
    ensures Selected(a + b, now) == Selected(a, now) + Selected(b, now)
  {
    if |b| == 0 {
      assert a + b == a;
    } else {
      var b' := b[..|b| - 1];
      assert (a + b)[..|a + b| - 1] == a + b';
      SelectedAppend(a, b', now);
    }
  }

  /** No id is listed twice. */
  predicate NoRepeats(ids: seq<string>) {
    forall i, j :: 0 <= i < j < |ids| ==> ids[i] != ids[j]
  }

  /** A times file loaded from a JSON object names each user once, and then
      no user is sent two reminders in one tick. */
  lemma {:induction false} SelectedOnce(entries: seq<(string, string)>, now: string)
    requires DistinctKeys(entries)
    ensures NoRepeats(Selected(entries, now))
  {
    if |entries| > 0 {
      var n := |entries| - 1;
      var front := entries[..n];
      var last := entries[n];
      assert DistinctKeys(front) by {
        forall i, j | 0 <= i < j < |front| ensures front[i].0 != front[j].0 {
          assert front[i] == entries[i] && front[j] == entries[j];
        }
      }
      SelectedOnce(front, now);
      if last.1 == now {
        forall i | 0 <= i < |front| ensures front[i] != (last.0, now) {
          assert front[i] == entries[i];
        }
        SelectedMembers(front, now, last.0);
        NoRepeatsSnoc(Selected(front, now), last.0);
      } else {
        assert Selected(entries, now) == Selected(front, now) + [];
      }
    }
  }

  lemma NoRepeatsSnoc(ids: seq<string>, x: string)
    requires NoRepeats(ids) && x !in ids
    ensures NoRepeats(ids + [x])
  {
    var all := ids + [x];
    forall i, j | 0 <= i < j < |all| ensures all[i] != all[j] {
      if j == |ids| {
        assert all[i] == ids[i];
      } else {
        assert all[i] == ids[i] && all[j] == ids[j];
      }
    }
  }

  /** A user is selected exactly when the file stores `now` for it. */
  lemma {:induction false} SelectedMembers(entries: seq<(string, string)>, now: string, id: string)
    ensures id in Selected(entries, now) <==> exists i :: 0 <= i < |entries| && entries[i] == (id, now)
  {
    if |entries| > 0 {
      var front := entries[..|entries| - 1];
      SelectedMembers(front, now, id);
      if exists i :: 0 <= i < |front| && front[i] == (id, now) {
        var i :| 0 <= i < |front| && front[i] == (id, now);
        assert entries[i] == front[i];
      }
      if exists i :: 0 <= i < |entries| && entries[i] == (id, now) {
        var i :| 0 <= i < |entries| && entries[i] == (id, now);
        if i < |front| {
          assert front[i] == entries[i];
        }
      }
    }
  }

  /** The reminder texts for `ids` in turn; the first `get_schedule` that
      raises ends the tick, after the texts before it have been sent. */
  function Texts(users: UsersTable, s: Schedules<SlotTable>, ids: seq<string>, today: string): seq<(string, string)>
  {
    if |ids| == 0 then []
    else
      match ReminderText(users, s, ids[0], today)
      case Failure(_) => []
      case Success(text) => [(ids[0], text)] + Texts(users, s, ids[1..], today)
  }

  /** The exception that ends the tick early, if any. */
  function TextsError(users: UsersTable, s: Schedules<SlotTable>, ids: seq<string>, today: string): Option<Failure>
  {
    if |ids| == 0 then None
    else
      match ReminderText(users, s, ids[0], today)
      case Failure(e) => Some(e)
      case Success(_) => TextsError(users, s, ids[1..], today)
  }

  /** The texts sent are those of a prefix of `ids`, each the reminder of its
      user; they cover every user unless a `get_schedule` raises, and then
      the user right after them is the one whose reminder raised. */
  lemma {:induction false} TextsSpec(users: UsersTable, s: Schedules<SlotTable>, ids: seq<string>, today: string)
    ensures |Texts(users, s, ids, today)| <= |ids|
    ensures forall k :: 0 <= k < |Texts(users, s, ids, today)| ==>
      ReminderText(users, s, ids[k], today).Success? &&
      Texts(users, s, ids, today)[k] == (ids[k], ReminderText(users, s, ids[k], today).value)
    ensures TextsError(users, s, ids, today).None? <==> |Texts(users, s, ids, today)| == |ids|
    ensures TextsError(users, s, ids, today).Some? ==>
      ReminderText(users, s, ids[|Texts(users, s, ids, today)|], today) == Failure(TextsError(users, s, ids, today).value)
  {
    if |ids| > 0 {
      var rest := ids[1..];
      TextsSpec(users, s, rest, today);
      var r := ReminderText(users, s, ids[0], today);
      if r.Success? {
        var t := Texts(users, s, ids, today);
        var tail := Texts(users, s, rest, today);
        assert t == [(ids[0], r.value)] + tail;
        forall k | 0 <= k < |t|
          ensures ReminderText(users, s, ids[k], today).Success? && t[k] == (ids[k], ReminderText(users, s, ids[k], today).value)
        {
          if k > 0 {
            assert t[k] == tail[k - 1] && ids[k] == rest[k - 1];
          }
        }
        assert TextsError(users, s, ids, today) == TextsError(users, s, rest, today);
        if TextsError(users, s, rest, today).Some? {
          assert ids[|t|] == rest[|tail|];
        }
      }
    }
  }

  /** The recipient and text of each send. */
  function Pairs(sends: seq<Send>): (r: seq<(string, string)>)
    ensures |r| == |sends| && forall k :: 0 <= k < |sends| ==> r[k] == (sends[k].to, sends[k].text)
  {
    seq(|sends|, k requires 0 <= k < |sends| => (sends[k].to, sends[k].text))
  }

  /** What the `n`-th reminder contributes to the texts and to the error. */
  lemma TextsStep(users: UsersTable, s: Schedules<SlotTable>, ids: seq<string>, n: nat, today: string)
    requires n < |ids|
    ensures var r := ReminderText(users, s, ids[n], today);
      && (r.Failure? ==> Texts(users, s, ids[n..], today) == [] && TextsError(users, s, ids[n..], today) == Some(r.error))
      && (r.Success? ==>
            Texts(users, s, ids[n..], today) == [(ids[n], r.value)] + Texts(users, s, ids[n + 1..], today) &&
            TextsError(users, s, ids[n..], today) == TextsError(users, s, ids[n + 1..], today))
  {
    assert ids[n..][0] == ids[n] && ids[n..][1..] == ids[n + 1..];
  }

  /** Sending the `n`-th reminder keeps the texts sent so far a prefix of
      all the texts. */
  lemma TextsAdvance(users: UsersTable, s: Schedules<SlotTable>, ids: seq<string>, n: nat, today: string,
                     sends: seq<Send>, sent: Send)
    requires n < |ids|
    requires Texts(users, s, ids, today) == Pairs(sends) + Texts(users, s, ids[n..], today)
    requires ReminderText(users, s, ids[n], today) == Success(sent.text) && sent.to == ids[n]
    ensures Texts(users, s, ids, today) == Pairs(sends + [sent]) + Texts(users, s, ids[n + 1..], today)
  {
    TextsStep(users, s, ids, n, today);
    var rest := Texts(users, s, ids[n + 1..], today);
    assert Pairs(sends + [sent]) == Pairs(sends) + [(sent.to, sent.text)];
    assert Pairs(sends) + ([(sent.to, sent.text)] + rest) == (Pairs(sends) + [(sent.to, sent.text)]) + rest;
  }

  lemma PairsEmpty(sends: seq<Send>)
    ensures Pairs(sends) + [] == Pairs(sends)
  {
  }

  /** dailyreminders.py `get_schedule`, building the text by appending. */
  method GetSchedule(users: UsersTable, s: Schedules<SlotTable>, key: string, today: string)
    returns (r: Result<string, Failure>)
    ensures r == ReminderText(users, s, key, today)
  {
    var userInfo := if key in users then users[key] else map[];
    if |userInfo| == 0 {
      return Success(UserNotFoundText);
    }
    var university := FieldOr(userInfo, UniversityKey, UnknownUniversity);
    var degree := FieldOr(userInfo, DegreeKey, UnknownDegree);
    var group := FieldOr(userInfo, GroupKey, UnknownGroup);
    r := BuildScheduleText(ReminderStyle, today, university, degree, group,
                           DayLookup(s, university, degree, group, today));
  }

  /** `delivered` is what the three-attempt `send_message` reports for the
      attempt outcomes `attempts`. */
  predicate GotThrough(attempts: nat -> Retry.Response, delivered: bool) {
    delivered <==> exists a: nat :: a < 3 && Retry.Delivered(attempts(a))
  }

  /** Each send reports what the three-attempt `send_message` reports for
      its own attempt outcomes: the k-th send sees `respond(k)`. */
  predicate AllGotThrough(sends: seq<Send>, respond: nat -> nat -> Retry.Response) {
    forall k :: 0 <= k < |sends| ==> GotThrough(respond(k), sends[k].delivered)
  }

  lemma AllGotThroughSnoc(sends: seq<Send>, respond: nat -> nat -> Retry.Response, sent: Send)
    requires AllGotThrough(sends, respond)
    requires GotThrough(respond(|sends|), sent.delivered)
    ensures AllGotThrough(sends + [sent], respond)
  {
    var all := sends + [sent];
    forall k | 0 <= k < |all|
      ensures GotThrough(respond(k), all[k].delivered)
    {
      if k < |sends| {
        assert all[k] == sends[k];
      }
    }
  }

  /** One tick. Nothing is sent unless the file was loaded; then the users
      whose time is `now` get their reminder in file order, each through the
      three-attempt `send_message`, until one `get_schedule` raises. */
  method NotifyTick(file: TimesFile, now: string, users: UsersTable, s: Schedules<SlotTable>,
                    today: string, respond: nat -> nat -> Retry.Response)
    returns (sends: seq<Send>, end: TickEnd)
    ensures !file.Loaded? ==> sends == [] && end == (if file.Missing? then FileMissing else FileUnreadable)
    ensures file.Loaded? ==>
      var ids := Selected(file.entries, now);
      var e := TextsError(users, s, ids, today);
      && Pairs(sends) == Texts(users, s, ids, today)
      && AllGotThrough(sends, respond)
      && end == (if e.Some? then Aborted(e.value) else Completed)
  {
    if file.Missing? {
      return [], FileMissing;
    }
    if file.Unreadable? {
      return [], FileUnreadable;
    }
    var usersToNotify := SelectUsers(file.entries, now);
    sends, end := SendAll(users, s, usersToNotify, today, respond);
  }

  /** The first loop of the tick: collect, in file order, the users whose
      stored time is `now`. */
  method SelectUsers(data: seq<(string, string)>, now: string) returns (usersToNotify: seq<string>)
    ensures usersToNotify == Selected(data, now)
  {
    usersToNotify := [];
    var i := 0;
    while i < |data|
      invariant 0 <= i <= |data|
      invariant usersToNotify == Selected(data[..i], now)
    {
      assert data[..i + 1][..i] == data[..i];
      if data[i].1 == now {
        usersToNotify := usersToNotify + [data[i].0];
      }
      i := i + 1;
    }
    assert data[..i] == data;
  }

  /** The second loop of the tick: build and send each user's reminder; an
      exception from `get_schedule` leaves the loop. */
  method SendAll(users: UsersTable, s: Schedules<SlotTable>, ids: seq<string>, today: string,
                 respond: nat -> nat -> Retry.Response)
    returns (sends: seq<Send>, end: TickEnd)
    ensures Pairs(sends) == Texts(users, s, ids, today)
    ensures AllGotThrough(sends, respond)
    ensures var e := TextsError(users, s, ids, today);
      end == (if e.Some? then Aborted(e.value) else Completed)
  {
    sends := [];
    var n := 0;
    while n < |ids|
      invariant 0 <= n <= |ids| && |sends| == n
      invariant Texts(users, s, ids, today) == Pairs(sends) + Texts(users, s, ids[n..], today)
      invariant TextsError(users, s, ids, today) == TextsError(users, s, ids[n..], today)
      invariant AllGotThrough(sends, respond)
    {
      var userId := ids[n];
      var message := GetSchedule(users, s, userId, today);
      TextsStep(users, s, ids, n, today);
      if message.Failure? {
        PairsEmpty(sends);
        return sends, Aborted(message.error);
      }
      var delivered, _ := Retry.SendMessage(3, respond(n));
      var sent := Send(userId, message.value, delivered);
      TextsAdvance(users, s, ids, n, today, sends, sent);
      AllGotThroughSnoc(sends, respond, sent);
      sends := sends + [sent];
      n := n + 1;
    }
    assert ids[n..] == [];
    PairsEmpty(sends);
    end := Completed;
  }
}
