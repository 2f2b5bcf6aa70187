/** The handlers of the older bot (old_main.py): the same registration
    dialogue with "Not my ..." buttons that let a user add a university,
    degree or group, and schedules proposed one day at a time as
    "University:Degree:Group:Day:Lessons" texts that an admin approves or
    rejects with "/approve <id>" or "/reject <id>". A group's day holds the
    list of lesson strings. */
module OldBot {
  import opened Wrappers
  import opened PyText
  import opened Store
  import opened Users
  import opened DailyMessage
  import opened BotTexts

  /** The handler registered for a chat's next message. */
  datatype Step =
    | ChooseUniversity
    | NewUniversity
    | ChooseDegree(university: string)
    | NewDegree(university: string)
    | ChooseGroup(university: string, degree: string)
    | NewGroup(university: string, degree: string)
    | ProposalDetails

  /** A message sent by the bot: text, or text with a reply keyboard whose
      buttons are the listed names followed by one extra button. */
  datatype Outgoing =
    | Say(to: string, text: string)
    | Menu(to: string, text: string, buttons: set<string>, extra: string)

  /** A message arriving in a chat: its text and the chat's first name and
      username. */
  datatype Incoming = Incoming(text: string, firstName: string, username: string)

  /** One entry of `pending_proposals`. */
  datatype Proposal = Proposal(proposerId: string, university: string, degree: string,
                               group: string, day: string, lessons: seq<string>)

  type Lessons = seq<string>

  // ---------------------------------------------------------------------------
  // The replies of this bot.

  const NotMyUniversity := "Not my university"
  const NotMyDegree := "Not my degree"
  const NotMyGroup := "Not my group"

  function WelcomeBack(name: string): string {
    "Welcome back, " + name + "! Use /schedule to view your group's schedule or /addschedule to propose a new one."
  }

  const UseHint := "Now, use /schedule to view your group's schedule or /addschedule to propose a new one."
  const AskNewUniversity := "Please enter the name of your university:"
  const AskNewDegree := "Please enter the name of your degree:"
  const AskNewGroup := "Please enter the name of your group:"
  const UniversityExists := "This university already exists. Please choose it from the list."
  const DegreeExists := "This degree already exists. Please choose it from the list."
  const GroupExists := "This group already exists. Please choose it from the list."

  function UniversityAdded(u: string): string {
    "University " + u + " added! Now, please select your degree."
  }

  function DegreeAdded(d: string): string {
    "Degree " + d + " added! Now, please select your group."
  }

  function GroupAdded(g: string): string {
    "Group " + g + " added! Registration complete!"
  }

  const ProposeHint := "Now, use /addschedule to propose a new schedule for your group."
  const FormatPrompt := "Please send the schedule details in this format:\nUniversity:Degree:Group:Day:Lessons (comma separated)."
  const InvalidFormat := "Invalid format. Please use the correct format: University:Degree:Group:Day:Lessons."
  const ProposalSent := "Your schedule proposal has been sent to the admins for approval."
  const InvalidProposalId := "Invalid proposal ID."

  function Approved(id: string): string {
    "Proposal " + id + " approved."
  }

  function Rejected(id: string): string {
    "Proposal " + id + " rejected."
  }

  const ApprovedNote := "Your schedule proposal has been approved."
  const RejectedNote := "Your schedule proposal has been rejected."

  /** The first lines of the older `/schedule` reply. */
  function OldHeader(today: string, u: string, d: string, g: string): string {
    "Schedule for *" + today + "*:\n\nUniversity: *" + u + "*\nDegree: *" + d + "*\nGroup: *" + g + "*\nLessons:"
  }

  /** A Python value as far as `in ADMINS` needs: `==` between a `str` and an
      `int` is False. */
  datatype PyValue = PyInt(i: int) | PyStr(s: string)

  predicate PyIn(x: PyValue, xs: seq<int>) {
    exists k :: 0 <= k < |xs| && x == PyInt(xs[k])
  }

  const AdminIds: seq<int> := [1064331548]

  /** The proposal handler tests the string chat id against the integer
      admin ids, so no proposer is ever taken for an admin and every
      proposal goes to the pending table. */
  lemma NoProposerIsAdmin(userId: string)
    ensures !PyIn(PyStr(userId), AdminIds)
  {
  }

  function UserId(chat: int): string {
    IntToDecimal(chat)
  }

  /** The id a new proposal gets: one more than the number pending. */
  function NextProposalId(pending: map<string, Proposal>): string {
    NatToDecimal(|pending| + 1)
  }

  /** While no proposal has been removed, the pending ids are "1" to "n", and
      the next id is a fresh one. */
  lemma NextProposalIdFresh(pending: map<string, Proposal>, n: nat)
    requires |pending| == n
    requires pending.Keys == set k | 1 <= k <= n :: NatToDecimal(k)
    ensures NextProposalId(pending) !in pending
  {
    if NextProposalId(pending) in pending {
      var k :| 1 <= k <= n && NatToDecimal(k) == NatToDecimal(n + 1);
      NatToDecimalInjective(k, n + 1);
    }
  }

  /** Once a proposal has been removed, the next id can be one still
      pending, and storing the new proposal then overwrites it. */
  lemma NextProposalIdCanCollide(p: Proposal)
    ensures var pending := map["2" := p];
      NextProposalId(pending) == "2" && NextProposalId(pending) in pending
  {
    var pending := map["2" := p];
    assert |pending| == 1;
    assert NatToDecimal(2) == "2";
  }

  /** The proposal text the prompt asks for. */
  function ProposalText(u: string, d: string, g: string, day: string, lessons: seq<string>): string {
    Join(":", [u, d, g, day, Join(",", lessons)])
  }

  /** A text written in the prompted format, with no ':' inside a field and
      no ',' inside a lesson, splits into exactly the five fields and the
      lessons it was written from. */
  lemma ProposalTextParses(u: string, d: string, g: string, day: string, lessons: seq<string>)
    requires ':' !in u && ':' !in d && ':' !in g && ':' !in day
    requires |lessons| >= 1
    requires forall k :: 0 <= k < |lessons| ==> ':' !in lessons[k] && ',' !in lessons[k]
    ensures Split(ProposalText(u, d, g, day, lessons), ':') == [u, d, g, day, Join(",", lessons)]
    ensures Split(Join(",", lessons), ',') == lessons
  {
    SplitJoin(lessons, ',');
    JoinAvoids(lessons, ",", ':');
    var parts := [u, d, g, day, Join(",", lessons)];
    forall k | 0 <= k < |parts| ensures ':' !in parts[k] {
      if k == 4 { assert parts[k] == Join(",", lessons); }
      else if k == 3 { assert parts[k] == day; }
      else if k == 2 { assert parts[k] == g; }
      else if k == 1 { assert parts[k] == d; }
      else { assert parts[k] == u; }
    }
    SplitJoin(parts, ':');
  }

  /** A join avoids every character that neither the pieces nor the
      separator contain. */
  lemma {:induction false} JoinAvoids(parts: seq<string>, sep: string, c: char)
    requires c !in sep
    requires forall k :: 0 <= k < |parts| ==> c !in parts[k]
    ensures c !in Join(sep, parts)
  {
    if |parts| > 1 {
      JoinAvoids(parts[1..], sep, c);
      assert Join(sep, parts) == parts[0] + sep + Join(sep, parts[1..]);
    }
  }

  /** The admin notice of a proposal. */
  function ProposalNotice(username: string, pr: Proposal, id: string): string {
    "New schedule proposal from @" + username + ":\nUniversity: " + pr.university
      + "\nDegree: " + pr.degree + "\nGroup: " + pr.group + "\nDay: " + pr.day
      + "\nLessons: " + Join(", ", pr.lessons)
      + "\nUse /approve " + id + " to approve or /reject " + id + " to reject."
  }

  /** "/approve 3" is read back as the command and the id. */
  lemma AdminCommandParses(command: string, id: string)
    requires IsWord(command) && IsWord(id)
    ensures Words(command + " " + id) == [command, id]
  {
    WordsOfJoin([command, id]);
    assert Join(" ", [command, id]) == command + " " + id by {
      assert [command, id][1..] == [id];
    }
  }

  /** The reply of the older `/schedule`: a registered user's record must
      hold the three fields (or the handler raises KeyError); the day's
      lessons are shown one per line when the list is non-empty. */
  function OldReply(users: UsersTable, s: Schedules<Lessons>, key: string, today: string): Result<string, Failure>
  {
    if key !in users then Success(NotRegisteredText)
    else
      var rec := users[key];
      if UniversityKey !in rec || DegreeKey !in rec || GroupKey !in rec then Failure(KeyError)
      else
        var u, d, g := rec[UniversityKey], rec[DegreeKey], rec[GroupKey];
        var head := OldHeader(today, u, d, g);
        var found := DayLookup(s, u, d, g, today);
        if found.Some? && |found.value| > 0 then Success(head + "\n*" + Join("\n", found.value) + "*")
        else Success(head + " No lessons scheduled for today.")
  }

  /** The lesson list shown in the reply can be read back line by line when
      no lesson contains a line break. */
  lemma OldReplyReadBack(users: UsersTable, s: Schedules<Lessons>, key: string, today: string)
    requires key in users && FieldNames <= users[key].Keys
    requires var rec := users[key];
      var found := DayLookup(s, rec[UniversityKey], rec[DegreeKey], rec[GroupKey], today);
      found.Some? && |found.value| > 0 &&
      forall k :: 0 <= k < |found.value| ==> '\n' !in found.value[k]
    ensures var rec := users[key];
      var lessons := DayLookup(s, rec[UniversityKey], rec[DegreeKey], rec[GroupKey], today).value;
      exists head: string, body: string ::
        && OldReply(users, s, key, today) == Success(head + "\n*" + body + "*")
        && Split(body, '\n') == lessons
  {
    var rec := users[key];
    var lessons := DayLookup(s, rec[UniversityKey], rec[DegreeKey], rec[GroupKey], today).value;
    SplitJoin(lessons, '\n');
    var head := OldHeader(today, rec[UniversityKey], rec[DegreeKey], rec[GroupKey]);
    assert OldReply(users, s, key, today) == Success(head + "\n*" + Join("\n", lessons) + "*");
  }

  /** The levels a step will index exist in the store. */
  predicate StepFits(s: Schedules<Lessons>, step: Step) {
    match step
    case ChooseDegree(u) => u in s
    case NewDegree(u) => u in s
    case ChooseGroup(u, d) => HasDegree(s, u, d)
    case NewGroup(u, d) => HasDegree(s, u, d)
    case _ => true
  }

  /** No write removes a level, so a step that fitted still fits. */
  lemma StepFitsGrows(s: Schedules<Lessons>, s': Schedules<Lessons>, step: Step)
    requires StepFits(s, step)
    requires forall u :: u in s ==> u in s'
    requires forall u, d :: HasDegree(s, u, d) ==> HasDegree(s', u, d)
    ensures StepFits(s', step)
  {
  }

  /** `add_schedule`: each missing level is created, then the day is set. */
  method AddDay(s0: Schedules<Lessons>, university: string, degree: string, group: string,
                day: string, lessons: Lessons)
    returns (s: Schedules<Lessons>)
    ensures s == UpsertDay(s0, university, degree, group, day, lessons)
  {
    s := s0;
    if university !in s {
      s := s[university := University(map[])];
    }
    if degree !in s[university].degrees {
      s := s[university := s[university].(degrees := s[university].degrees[degree := Degree(map[])])];
    }
    assert s == EnsureDegree(s0, university, degree);
    var groups := s[university].degrees[degree].groups;
    ghost var groups0 := groups;
    if group !in groups {
      groups := groups[group := map[]];
    }
    groups := groups[group := groups[group][day := lessons]];
    assert groups == groups0[group := (if group in groups0 then groups0[group] else map[])[day := lessons]];
    s := s[university := s[university].(degrees := s[university].degrees[degree := Degree(groups)])];
  }

  class OldBot {
    var schedules: Schedules<Lessons>
    var users: UsersTable
    var pending: map<string, Proposal>
    var steps: map<int, Step>
    var outbox: seq<Outgoing>
    var savedSchedules: Schedules<Lessons>
    var savedUsers: UsersTable
    var savedPending: map<string, Proposal>

    /** The three files agree with memory, and every pending step fits the
        store. */
    ghost predicate Valid()
      reads this
    {
      && savedSchedules == schedules && savedUsers == users && savedPending == pending
      && forall c :: c in steps ==> StepFits(schedules, steps[c])
    }

    constructor (loadedSchedules: Schedules<Lessons>, loadedUsers: UsersTable,
                 loadedPending: map<string, Proposal>)
      ensures Valid()
      ensures schedules == loadedSchedules && users == loadedUsers && pending == loadedPending
      ensures steps == map[] && outbox == []
    {
      schedules, users, pending := loadedSchedules, loadedUsers, loadedPending;
      savedSchedules, savedUsers, savedPending := loadedSchedules, loadedUsers, loadedPending;
      steps, outbox := map[], [];
    }

    /** Replaces the store by a grown one and saves it. */
    method Grow(s: Schedules<Lessons>)
      requires Valid()
      requires forall u :: u in schedules ==> u in s
      requires forall u, d :: HasDegree(schedules, u, d) ==> HasDegree(s, u, d)
      modifies this
      ensures Valid()
      ensures schedules == s
      ensures users == old(users) && pending == old(pending) && steps == old(steps) && outbox == old(outbox)
    {
      forall c | c in steps ensures StepFits(s, steps[c]) {
        StepFitsGrows(schedules, s, steps[c]);
      }
      schedules := s;
      savedSchedules := s;
    }

    method SaveUserInfo(userId: string, firstName: string, username: string,
                        university: string, degree: string, group: string)
      requires Valid()
      modifies this
      ensures Valid()
      ensures users == old(users)[userId := NewUserRecord(firstName, username, university, degree, group)]
      ensures schedules == old(schedules) && pending == old(pending)
      ensures steps == old(steps) && outbox == old(outbox)
    {
      users := users[userId := NewUserRecord(firstName, username, university, degree, group)];
      savedUsers := users;
    }

    /** `/start`, checking the users file as it is on disk. */
    method Start(chat: int, firstName: string)
      requires Valid()
      modifies this
      ensures Valid()
      ensures schedules == old(schedules) && users == old(users) && pending == old(pending)
      ensures UserId(chat) in savedUsers ==> (
        steps == old(steps) &&
        outbox == old(outbox) + [Say(UserId(chat), WelcomeBack(firstName))])
      ensures UserId(chat) !in savedUsers ==> (
        steps == old(steps)[chat := ChooseUniversity] &&
        outbox == old(outbox) + [Say(UserId(chat), Welcome(firstName)),
                                 Menu(UserId(chat), PickUniversity, schedules.Keys, NotMyUniversity)])
    {
      var loadedUsers := savedUsers;
      if UserId(chat) in loadedUsers {
        outbox := outbox + [Say(UserId(chat), WelcomeBack(firstName))];
      } else {
        outbox := outbox + [Say(UserId(chat), Welcome(firstName))];
        ShowUniversities(chat);
      }
    }

    method ShowUniversities(chat: int)
      requires Valid()
      modifies this
      ensures Valid()
      ensures schedules == old(schedules) && users == old(users) && pending == old(pending)
      ensures steps == old(steps)[chat := ChooseUniversity]
      ensures outbox == old(outbox) + [Menu(UserId(chat), PickUniversity, schedules.Keys, NotMyUniversity)]
    {
      outbox := outbox + [Menu(UserId(chat), PickUniversity, schedules.Keys, NotMyUniversity)];
      steps := steps[chat := ChooseUniversity];
    }

    method ShowDegrees(chat: int, university: string)
      requires Valid() && university in schedules
      modifies this
      ensures Valid()
      ensures schedules == old(schedules) && users == old(users) && pending == old(pending)
      ensures steps == old(steps)[chat := ChooseDegree(university)]
      ensures outbox == old(outbox) + [Menu(UserId(chat), PickDegree, schedules[university].degrees.Keys, NotMyDegree)]
    {
      outbox := outbox + [Menu(UserId(chat), PickDegree, schedules[university].degrees.Keys, NotMyDegree)];
      steps := steps[chat := ChooseDegree(university)];
    }

    method ShowGroups(chat: int, university: string, degree: string)
      requires Valid() && HasDegree(schedules, university, degree)
      modifies this
      ensures Valid()
      ensures schedules == old(schedules) && users == old(users) && pending == old(pending)
      ensures steps == old(steps)[chat := ChooseGroup(university, degree)]
      ensures outbox == old(outbox) + [Menu(UserId(chat), PickGroup, schedules[university].degrees[degree].groups.Keys, NotMyGroup)]
    {
      outbox := outbox + [Menu(UserId(chat), PickGroup, schedules[university].degrees[degree].groups.Keys, NotMyGroup)];
      steps := steps[chat := ChooseGroup(university, degree)];
    }

    /** The NotMyUniversity button wins over a university of that name;
        a known university moves on; anything else asks again. */
    method HandleUniversitySelection(chat: int, text: string)
      requires Valid()
      modifies this
      ensures Valid()
      ensures schedules == old(schedules) && users == old(users) && pending == old(pending)
      ensures text == NotMyUniversity ==> (
        steps == old(steps)[chat := NewUniversity] &&
        outbox == old(outbox) + [Say(UserId(chat), AskNewUniversity)])
      ensures text != NotMyUniversity && text in schedules ==> (
        steps == old(steps)[chat := ChooseDegree(text)] &&
        outbox == old(outbox) + [Menu(UserId(chat), PickDegree, schedules[text].degrees.Keys, NotMyDegree)])
      ensures text != NotMyUniversity && text !in schedules ==> (
        steps == old(steps)[chat := ChooseUniversity] &&
        outbox == old(outbox) + [Say(UserId(chat), InvalidUniversity),
                                 Menu(UserId(chat), PickUniversity, schedules.Keys, NotMyUniversity)])
    {
      if text == NotMyUniversity {
        outbox := outbox + [Say(UserId(chat), AskNewUniversity)];
        steps := steps[chat := NewUniversity];
      } else if text in schedules {
        ShowDegrees(chat, text);
      } else {
        outbox := outbox + [Say(UserId(chat), InvalidUniversity)];
        ShowUniversities(chat);
      }
    }

    /** A name already in the store is refused; a new one is added with no
        degrees and saved, and the degree choice follows. */
    method HandleNewUniversity(chat: int, text: string)
      requires Valid()
      modifies this
      ensures Valid()
      ensures users == old(users) && pending == old(pending)
      ensures text in old(schedules) ==> (
        schedules == old(schedules) && steps == old(steps)[chat := ChooseUniversity] &&
        outbox == old(outbox) + [Say(UserId(chat), UniversityExists),
                                 Menu(UserId(chat), PickUniversity, schedules.Keys, NotMyUniversity)])
      ensures text !in old(schedules) ==> (
        schedules == old(schedules)[text := University(map[])] &&
        steps == old(steps)[chat := ChooseDegree(text)] &&
        outbox == old(outbox) + [Say(UserId(chat), UniversityAdded(text)),
                                 Menu(UserId(chat), PickDegree, {}, NotMyDegree)])
    {
      if text in schedules {
        outbox := outbox + [Say(UserId(chat), UniversityExists)];
        ShowUniversities(chat);
      } else {
        Grow(schedules[text := University(map[])]);
        assert schedules[text].degrees.Keys == {};
        outbox := outbox + [Say(UserId(chat), UniversityAdded(text))];
        ShowDegrees(chat, text);
      }
    }

    method HandleDegreeSelection(chat: int, university: string, text: string)
      requires Valid() && university in schedules
      modifies this
      ensures Valid()
      ensures schedules == old(schedules) && users == old(users) && pending == old(pending)
      ensures text == NotMyDegree ==> (
        steps == old(steps)[chat := NewDegree(university)] &&
        outbox == old(outbox) + [Say(UserId(chat), AskNewDegree)])
      ensures text != NotMyDegree && HasDegree(schedules, university, text) ==> (
        steps == old(steps)[chat := ChooseGroup(university, text)] &&
        outbox == old(outbox) + [Menu(UserId(chat), PickGroup, schedules[university].degrees[text].groups.Keys, NotMyGroup)])
      ensures text != NotMyDegree && !HasDegree(schedules, university, text) ==> (
        steps == old(steps)[chat := ChooseDegree(university)] &&
        outbox == old(outbox) + [Say(UserId(chat), InvalidDegree),
                                 Menu(UserId(chat), PickDegree, schedules[university].degrees.Keys, NotMyDegree)])
    {
      if text == NotMyDegree {
        outbox := outbox + [Say(UserId(chat), AskNewDegree)];
        steps := steps[chat := NewDegree(university)];
      } else if text in schedules[university].degrees {
        ShowGroups(chat, university, text);
      } else {
        outbox := outbox + [Say(UserId(chat), InvalidDegree)];
        ShowDegrees(chat, university);
      }
    }

    method HandleNewDegree(chat: int, university: string, text: string)
      requires Valid() && university in schedules
      modifies this
      ensures Valid()
      ensures users == old(users) && pending == old(pending)
      ensures HasDegree(old(schedules), university, text) ==> (
        schedules == old(schedules) && steps == old(steps)[chat := ChooseDegree(university)] &&
        outbox == old(outbox) + [Say(UserId(chat), DegreeExists),
                                 Menu(UserId(chat), PickDegree, schedules[university].degrees.Keys, NotMyDegree)])
      ensures !HasDegree(old(schedules), university, text) ==> (
        schedules == EnsureDegree(old(schedules), university, text) &&
        steps == old(steps)[chat := ChooseGroup(university, text)] &&
        outbox == old(outbox) + [Say(UserId(chat), DegreeAdded(text)),
                                 Menu(UserId(chat), PickGroup, {}, NotMyGroup)])
    {
      if text in schedules[university].degrees {
        outbox := outbox + [Say(UserId(chat), DegreeExists)];
        ShowDegrees(chat, university);
      } else {
        Grow(schedules[university := schedules[university].(degrees := schedules[university].degrees[text := Degree(map[])])]);
        assert schedules[university].degrees[text].groups.Keys == {};
        outbox := outbox + [Say(UserId(chat), DegreeAdded(text))];
        ShowGroups(chat, university, text);
      }
    }

    /** An existing group registers the user with their choices. */
    method HandleGroupSelection(chat: int, university: string, degree: string, text: string,
                                firstName: string, username: string)
      requires Valid() && HasDegree(schedules, university, degree)
      modifies this
      ensures Valid()
      ensures schedules == old(schedules) && pending == old(pending)
      ensures text == NotMyGroup ==> (
        users == old(users) && steps == old(steps)[chat := NewGroup(university, degree)] &&
        outbox == old(outbox) + [Say(UserId(chat), AskNewGroup)])
      ensures text != NotMyGroup && HasGroup(schedules, university, degree, text) ==> (
        && users == old(users)[UserId(chat) := NewUserRecord(firstName, username, university, degree, text)]
        && steps == old(steps) - {chat}
        && outbox == old(outbox) + [Say(UserId(chat), GroupChosen(text)),
                                    Say(UserId(chat), UseHint)])
      ensures text != NotMyGroup && !HasGroup(schedules, university, degree, text) ==> (
        && users == old(users) && steps == old(steps)[chat := ChooseGroup(university, degree)]
        && outbox == old(outbox) + [Say(UserId(chat), InvalidGroup),
                                    Menu(UserId(chat), PickGroup, schedules[university].degrees[degree].groups.Keys, NotMyGroup)])
    {
      steps := steps - {chat};
      if text == NotMyGroup {
        outbox := outbox + [Say(UserId(chat), AskNewGroup)];
        steps := steps[chat := NewGroup(university, degree)];
      } else if text in schedules[university].degrees[degree].groups {
        outbox := outbox + [Say(UserId(chat), GroupChosen(text))];
        SaveUserInfo(UserId(chat), firstName, username, university, degree, text);
        outbox := outbox + [Say(UserId(chat), UseHint)];
      } else {
        outbox := outbox + [Say(UserId(chat), InvalidGroup)];
        ShowGroups(chat, university, degree);
      }
    }

    /** A new group is added with no days, saved, and the user registered
        with it; an existing name is refused. */
    method HandleNewGroup(chat: int, university: string, degree: string, text: string,
                          firstName: string, username: string)
      requires Valid() && HasDegree(schedules, university, degree)
      modifies this
      ensures Valid()
      ensures pending == old(pending)
      ensures HasGroup(old(schedules), university, degree, text) ==> (
        && schedules == old(schedules) && users == old(users)
        && steps == old(steps)[chat := ChooseGroup(university, degree)]
        && outbox == old(outbox) + [Say(UserId(chat), GroupExists),
                                    Menu(UserId(chat), PickGroup, schedules[university].degrees[degree].groups.Keys, NotMyGroup)])
      ensures !HasGroup(old(schedules), university, degree, text) ==> (
        && schedules == SetGroups(old(schedules), university, degree,
                                  old(schedules)[university].degrees[degree].groups[text := map[]])
        && users == old(users)[UserId(chat) := NewUserRecord(firstName, username, university, degree, text)]
        && steps == old(steps) - {chat}
        && outbox == old(outbox) + [Say(UserId(chat), GroupAdded(text)),
                                    Say(UserId(chat), ProposeHint)])
    {
      steps := steps - {chat};
      if text in schedules[university].degrees[degree].groups {
        outbox := outbox + [Say(UserId(chat), GroupExists)];
        ShowGroups(chat, university, degree);
        assert steps == old(steps)[chat := ChooseGroup(university, degree)];
      } else {
        var grown := SetGroups(schedules, university, degree, schedules[university].degrees[degree].groups[text := map[]]);
        Grow(grown);
        outbox := outbox + [Say(UserId(chat), GroupAdded(text))];
        SaveUserInfo(UserId(chat), firstName, username, university, degree, text);
        outbox := outbox + [Say(UserId(chat), ProposeHint)];
        assert schedules == grown;
      }
    }

    /** A message in a chat with a pending step goes to the handler that
        step names, with the arguments the step recorded, and the step is used
        up (the handler may register the next one). Only a group step writes
        the user table, only a "new ..." step writes the store, only the
        proposal step writes the pending proposals, and no other chat's step
        changes. A chat with no pending step is left to the command
        handlers. */
    method Receive(chat: int, msg: Incoming)
      requires Valid()
      modifies this
      ensures Valid()
      ensures chat !in old(steps) ==>
        && schedules == old(schedules) && users == old(users) && pending == old(pending)
        && steps == old(steps) && outbox == old(outbox)
      ensures users != old(users) ==>
        chat in old(steps) && (old(steps)[chat].ChooseGroup? || old(steps)[chat].NewGroup?)
      ensures schedules != old(schedules) ==>
        chat in old(steps) &&
        (old(steps)[chat].NewUniversity? || old(steps)[chat].NewDegree? || old(steps)[chat].NewGroup?)
      ensures pending != old(pending) ==> chat in old(steps) && old(steps)[chat].ProposalDetails?
      ensures chat in old(steps) && old(steps)[chat].ChooseUniversity? ==>
        if msg.text == NotMyUniversity then
          steps == old(steps)[chat := NewUniversity] &&
          outbox == old(outbox) + [Say(UserId(chat), AskNewUniversity)]
        else if msg.text in schedules then
          steps == old(steps)[chat := ChooseDegree(msg.text)] &&
          outbox == old(outbox) + [Menu(UserId(chat), PickDegree, schedules[msg.text].degrees.Keys, NotMyDegree)]
        else
          steps == old(steps) &&
          outbox == old(outbox) + [Say(UserId(chat), InvalidUniversity),
                                   Menu(UserId(chat), PickUniversity, schedules.Keys, NotMyUniversity)]
      ensures chat in old(steps) && old(steps)[chat].NewUniversity? ==>
        if msg.text in old(schedules) then
          schedules == old(schedules) && steps == old(steps)[chat := ChooseUniversity] &&
          outbox == old(outbox) + [Say(UserId(chat), UniversityExists),
                                   Menu(UserId(chat), PickUniversity, schedules.Keys, NotMyUniversity)]
        else
          schedules == old(schedules)[msg.text := University(map[])] &&
          steps == old(steps)[chat := ChooseDegree(msg.text)] &&
          outbox == old(outbox) + [Say(UserId(chat), UniversityAdded(msg.text)),
                                   Menu(UserId(chat), PickDegree, {}, NotMyDegree)]
      ensures chat in old(steps) && old(steps)[chat].ChooseDegree? ==>
        var u := old(steps)[chat].university;
        u in schedules &&
        if msg.text == NotMyDegree then
          steps == old(steps)[chat := NewDegree(u)] &&
          outbox == old(outbox) + [Say(UserId(chat), AskNewDegree)]
        else if HasDegree(schedules, u, msg.text) then
          steps == old(steps)[chat := ChooseGroup(u, msg.text)] &&
          outbox == old(outbox) + [Menu(UserId(chat), PickGroup, schedules[u].degrees[msg.text].groups.Keys, NotMyGroup)]
        else
          steps == old(steps) &&
          outbox == old(outbox) + [Say(UserId(chat), InvalidDegree),
                                   Menu(UserId(chat), PickDegree, schedules[u].degrees.Keys, NotMyDegree)]
      ensures chat in old(steps) && old(steps)[chat].NewDegree? ==>
        var u := old(steps)[chat].university;
        u in old(schedules) &&
        if HasDegree(old(schedules), u, msg.text) then
          schedules == old(schedules) && steps == old(steps)[chat := ChooseDegree(u)] &&
          outbox == old(outbox) + [Say(UserId(chat), DegreeExists),
                                   Menu(UserId(chat), PickDegree, schedules[u].degrees.Keys, NotMyDegree)]
        else
          schedules == EnsureDegree(old(schedules), u, msg.text) &&
          steps == old(steps)[chat := ChooseGroup(u, msg.text)] &&
          outbox == old(outbox) + [Say(UserId(chat), DegreeAdded(msg.text)),
                                   Menu(UserId(chat), PickGroup, {}, NotMyGroup)]
      ensures chat in old(steps) && old(steps)[chat].ChooseGroup? ==>
        var u, d := old(steps)[chat].university, old(steps)[chat].degree;
        HasDegree(schedules, u, d) &&
        if msg.text == NotMyGroup then
          users == old(users) && steps == old(steps)[chat := NewGroup(u, d)] &&
          outbox == old(outbox) + [Say(UserId(chat), AskNewGroup)]
        else if HasGroup(schedules, u, d, msg.text) then
          && users == old(users)[UserId(chat) := NewUserRecord(msg.firstName, msg.username, u, d, msg.text)]
          && steps == old(steps) - {chat}
          && outbox == old(outbox) + [Say(UserId(chat), GroupChosen(msg.text)), Say(UserId(chat), UseHint)]
        else
          && users == old(users) && steps == old(steps)
          && outbox == old(outbox) + [Say(UserId(chat), InvalidGroup),
                                      Menu(UserId(chat), PickGroup, schedules[u].degrees[d].groups.Keys, NotMyGroup)]
      ensures chat in old(steps) && old(steps)[chat].NewGroup? ==>
        var u, d := old(steps)[chat].university, old(steps)[chat].degree;
        HasDegree(old(schedules), u, d) &&
        if HasGroup(old(schedules), u, d, msg.text) then
          && schedules == old(schedules) && users == old(users)
          && steps == old(steps)[chat := ChooseGroup(u, d)]
          && outbox == old(outbox) + [Say(UserId(chat), GroupExists),
                                      Menu(UserId(chat), PickGroup, schedules[u].degrees[d].groups.Keys, NotMyGroup)]
        else
          && schedules == SetGroups(old(schedules), u, d, old(schedules)[u].degrees[d].groups[msg.text := map[]])
          && users == old(users)[UserId(chat) := NewUserRecord(msg.firstName, msg.username, u, d, msg.text)]
          && steps == old(steps) - {chat}
          && outbox == old(outbox) + [Say(UserId(chat), GroupAdded(msg.text)), Say(UserId(chat), ProposeHint)]
      ensures chat in old(steps) && old(steps)[chat].ProposalDetails? ==>
        var parts := Split(msg.text, ':');
        && steps == old(steps) - {chat}
        && (|parts| != 5 ==> pending == old(pending) && outbox == old(outbox) + [Say(UserId(chat), InvalidFormat)])
        && (|parts| == 5 ==>
              var id := NextProposalId(old(pending));
              var pr := Proposal(UserId(chat), parts[0], parts[1], parts[2], parts[3], Split(parts[4], ','));
              && pending == old(pending)[id := pr]
              && outbox == old(outbox) + AdminNotices(ProposalNotice(msg.username, pr, id))
                           + [Say(UserId(chat), ProposalSent)])
    {
      if chat !in steps {
        return;
      }
      match steps[chat]
      case ChooseUniversity =>
        HandleUniversitySelection(chat, msg.text);
      case NewUniversity =>
        HandleNewUniversity(chat, msg.text);
      case ChooseDegree(u) =>
        HandleDegreeSelection(chat, u, msg.text);
      case NewDegree(u) =>
        HandleNewDegree(chat, u, msg.text);
      case ChooseGroup(u, d) =>
        HandleGroupSelection(chat, u, d, msg.text, msg.firstName, msg.username);
      case NewGroup(u, d) =>
        HandleNewGroup(chat, u, d, msg.text, msg.firstName, msg.username);
      case ProposalDetails =>
        HandleScheduleProposal(chat, msg.text, msg.username);
    }

    /** `/start` of a user not in the users file, followed by the three
        answers on the reply keyboards: a university of the store, a degree of
        it and a group of that degree. The user ends up registered with
        exactly those choices, nothing else is written and no step is left
        pending. */
    method StartDialogue(chat: int, firstName: string, username: string,
                         university: string, degree: string, group: string)
      requires Valid() && UserId(chat) !in savedUsers && HasGroup(schedules, university, degree, group)
      requires university != NotMyUniversity && degree != NotMyDegree && group != NotMyGroup
      modifies this
      ensures Valid()
      ensures schedules == old(schedules) && pending == old(pending) && chat !in steps
      ensures users == old(users)[UserId(chat) := NewUserRecord(firstName, username, university, degree, group)]
    {
      Start(chat, firstName);
      assert steps[chat] == ChooseUniversity;
      Receive(chat, Incoming(university, firstName, username));
      assert steps[chat] == ChooseDegree(university) && users == old(users);
      Receive(chat, Incoming(degree, firstName, username));
      assert steps[chat] == ChooseGroup(university, degree) && users == old(users);
      Receive(chat, Incoming(group, firstName, username));
    }

    /** At the group choice, "Not my group" followed by a name the degree
        does not have: the group is added with no days, the user is
        registered with it, and no step is left pending. */
    method NewGroupDialogue(chat: int, firstName: string, username: string, group: string)
      requires Valid() && chat in steps && steps[chat].ChooseGroup?
      requires group != NotMyGroup && !HasGroup(schedules, steps[chat].university, steps[chat].degree, group)
      modifies this
      ensures Valid()
      ensures var u, d := old(steps)[chat].university, old(steps)[chat].degree;
        && schedules == SetGroups(old(schedules), u, d, old(schedules)[u].degrees[d].groups[group := map[]])
        && users == old(users)[UserId(chat) := NewUserRecord(firstName, username, u, d, group)]
      ensures pending == old(pending) && chat !in steps
    {
      Receive(chat, Incoming(NotMyGroup, firstName, username));
      Receive(chat, Incoming(group, firstName, username));
    }

    /** The older `/schedule`: the reply, or nothing when the handler
        raises. */
    method GetSchedule(chat: int, today: string)
      requires Valid()
      modifies this
      ensures Valid()
      ensures schedules == old(schedules) && users == old(users) && pending == old(pending) && steps == old(steps)
      ensures var reply := OldReply(users, schedules, UserId(chat), today);
        outbox == old(outbox) + (if reply.Success? then [Say(UserId(chat), reply.value)] else [])
    {
      var reply := OldReply(users, schedules, UserId(chat), today);
      if reply.Success? {
        outbox := outbox + [Say(UserId(chat), reply.value)];
      }
    }

    /** `/addschedule`: anyone may propose. */
    method ProposeSchedule(chat: int)
      requires Valid()
      modifies this
      ensures Valid()
      ensures schedules == old(schedules) && users == old(users) && pending == old(pending)
      ensures steps == old(steps)[chat := ProposalDetails]
      ensures outbox == old(outbox) + [Say(UserId(chat), FormatPrompt)]
    {
      outbox := outbox + [Say(UserId(chat), FormatPrompt)];
      steps := steps[chat := ProposalDetails];
    }

    /** A text of exactly five ':'-separated fields is stored as a proposal
        under the next id (its lessons split at ','), announced to every
        admin and acknowledged; any other text is refused and nothing is
        stored. */
    method HandleScheduleProposal(chat: int, text: string, username: string)
      requires Valid()
      modifies this
      ensures Valid()
      ensures schedules == old(schedules) && users == old(users) && steps == old(steps) - {chat}
      ensures |Split(text, ':')| != 5 ==> (
        pending == old(pending) &&
        outbox == old(outbox) + [Say(UserId(chat), InvalidFormat)])
      ensures |Split(text, ':')| == 5 ==>
        var parts := Split(text, ':');
        var id := NextProposalId(old(pending));
        var pr := Proposal(UserId(chat), parts[0], parts[1], parts[2], parts[3], Split(parts[4], ','));
        && pending == old(pending)[id := pr]
        && outbox == old(outbox) + AdminNotices(ProposalNotice(username, pr, id))
                     + [Say(UserId(chat), ProposalSent)]
    {
      steps := steps - {chat};
      var userId := UserId(chat);
      var parts := Split(text, ':');
      if |parts| != 5 {
        outbox := outbox + [Say(userId, InvalidFormat)];
        return;
      }
      var university, degree, group, day := parts[0], parts[1], parts[2], parts[3];
      var lessons := Split(parts[4], ',');
      if PyIn(PyStr(userId), AdminIds) {
        // the branch that would add the day at once and reply "Schedule
        // added": `user_id in ADMINS` compares a str with ints, so it is dead
        NoProposerIsAdmin(userId);
        assert false;
      }
      var proposalId := NextProposalId(pending);
      var proposal := Proposal(userId, university, degree, group, day, lessons);
      pending := pending[proposalId := proposal];
      savedPending := pending;
      NotifyAdmins(ProposalNotice(username, proposal, proposalId));
      outbox := outbox + [Say(userId, ProposalSent)];
    }

    /** The loop over ADMINS: the notice to each admin in turn. */
    method NotifyAdmins(notice: string)
      requires Valid()
      modifies this
      ensures Valid()
      ensures schedules == old(schedules) && users == old(users) && pending == old(pending) && steps == old(steps)
      ensures outbox == old(outbox) + AdminNotices(notice)
    {
      var k := 0;
      while k < |AdminIds|
        invariant 0 <= k <= |AdminIds|
        invariant Valid()
        invariant schedules == old(schedules) && users == old(users) && pending == old(pending) && steps == old(steps)
        invariant outbox == old(outbox) + AdminNotices(notice)[..k]
      {
        assert AdminNotices(notice)[..k + 1] == AdminNotices(notice)[..k] + [Say(IntToDecimal(AdminIds[k]), notice)];
        outbox := outbox + [Say(IntToDecimal(AdminIds[k]), notice)];
        k := k + 1;
      }
      assert AdminNotices(notice)[..k] == AdminNotices(notice);
    }

    /** `/approve <id>` and `/reject <id>`, from any chat: a text that is not
        exactly two words makes the handler raise; an unknown id is refused;
        "/approve" adds the proposed day to the store; any known id is then
        removed, whatever the command word. */
    method HandleAdminAction(chat: int, text: string)
      requires Valid()
      modifies this
      ensures Valid()
      ensures users == old(users) && steps == old(steps)
      ensures |Words(text)| != 2 ==> (
        schedules == old(schedules) && pending == old(pending) && outbox == old(outbox))
      ensures |Words(text)| == 2 && Words(text)[1] !in old(pending) ==> (
        schedules == old(schedules) && pending == old(pending) &&
        outbox == old(outbox) + [Say(UserId(chat), InvalidProposalId)])
      ensures |Words(text)| == 2 && Words(text)[1] in old(pending) ==>
        var command, id := Words(text)[0], Words(text)[1];
        var pr := old(pending)[id];
        && pending == old(pending) - {id}
        && (command == "/approve" ==>
              schedules == UpsertDay(old(schedules), pr.university, pr.degree, pr.group, pr.day, pr.lessons) &&
              outbox == old(outbox) + [Say(UserId(chat), Approved(id)),
                                       Say(pr.proposerId, ApprovedNote)])
        && (command == "/reject" ==>
              schedules == old(schedules) &&
              outbox == old(outbox) + [Say(UserId(chat), Rejected(id)),
                                       Say(pr.proposerId, RejectedNote)])
        && (command != "/approve" && command != "/reject" ==>
              schedules == old(schedules) && outbox == old(outbox))
    {
      var words := Words(text);
      if |words| != 2 {
        return;
      }
      var command, proposalId := words[0], words[1];
      if proposalId !in pending {
        outbox := outbox + [Say(UserId(chat), InvalidProposalId)];
        return;
      }
      var proposal := pending[proposalId];
      if command == "/approve" {
        AddSchedule(proposal.university, proposal.degree, proposal.group, proposal.day, proposal.lessons);
        outbox := outbox + [Say(UserId(chat), Approved(proposalId)),
                            Say(proposal.proposerId, ApprovedNote)];
      } else if command == "/reject" {
        outbox := outbox + [Say(UserId(chat), Rejected(proposalId)),
                            Say(proposal.proposerId, RejectedNote)];
      }
      pending := pending - {proposalId};
      savedPending := pending;
    }

    /** `add_schedule`, saving the store. */
    method AddSchedule(university: string, degree: string, group: string, day: string, lessons: Lessons)
      requires Valid()
      modifies this
      ensures Valid()
      ensures schedules == UpsertDay(old(schedules), university, degree, group, day, lessons)
      ensures users == old(users) && pending == old(pending) && steps == old(steps) && outbox == old(outbox)
    {
      var s := AddDay(schedules, university, degree, group, day, lessons);
      UpsertDayKeepsLevels(schedules, university, degree, group, day, lessons);
      Grow(s);
    }
  }

  /** The notice sent to each admin, in the order of the admin list. */
  function AdminNotices(notice: string): seq<Outgoing> {
    seq(|AdminIds|, k requires 0 <= k < |AdminIds| => Say(IntToDecimal(AdminIds[k]), notice))
  }
}
