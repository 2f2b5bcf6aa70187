/** The handlers of the current bot (main.py) over its global state: the
    schedule store, the registration table, the handler each chat's next
    message goes to (what `register_next_step_handler` records), the messages
    sent, and the contents of the two JSON files. */
module MainBot {
  import opened Wrappers
  import opened PyText
  import opened OrderedDict
  import opened Store
  import opened Users
  import opened DailyMessage
  import ExcelParse
  import WeeklyImage
  import opened BotTexts

  /** The handler registered for a chat's next message, with the arguments
      `register_next_step_handler` passes along. */
  datatype Step =
    | ChooseUniversity
    | ChooseDegree(university: string)
    | ChooseGroup(university: string, degree: string)
    | EnterUniversityName
    | EnterDegree(university: string)
    | UploadSchedule(university: string, degree: string)
    | ConfirmSchedule(university: string, degree: string, parsed: ExcelParse.Parsed)

  /** A message sent by the bot: text, text with a reply keyboard, or the
      weekly picture. */
  datatype Outgoing =
    | Say(to: string, text: string)
    | Menu(to: string, text: string, buttons: set<string>)
    | Photo(to: string, picture: WeeklyImage.Picture)

  /** What a user sends where the bot expects the Excel upload. */
  datatype Upload =
    | NotDocument
    | Document(sheet: Option<seq<ExcelParse.Row>>)

  /** A message arriving in a chat: its text, the chat's first name and
      username, and what it carries where the upload is expected. */
  datatype Incoming = Incoming(text: string, firstName: string, username: string, upload: Upload)

  // ---------------------------------------------------------------------------
  // The replies of this bot.

  function WelcomeBack(name: string): string {
    "Welcome back, " + name + "! Use /schedule to view your group's schedule or type / to see available options."
  }

  function Hey(name: string): string {
    "Hey " + name + "! Please select your university."
  }

  const UseHint := "Now, use /schedule to view your group's schedule or type / to see available options."
  const NoPermission := "You don't have permission to add a schedule."
  const AskUniversityName := "Please enter the university name:"
  const AskDegreeName := "Please enter the degree:"
  const AskUpload := "Please upload the Excel file containing the schedule."
  const BadUpload := "Please upload a valid Excel file."
  const AskApproval := "If you approve, reply with 'approve'. To reject, reply with 'reject'."
  const ScheduleAdded := "The schedule has been successfully added."
  const ScheduleNotAdded := "The schedule was not added."

  const Admins: seq<int> := [1064331548, 1274378031]

  /** The levels a step will index exist in the store. */
  predicate StepFits(s: Schedules<SlotTable>, step: Step) {
    match step
    case ChooseDegree(u) => u in s
    case ChooseGroup(u, d) => HasDegree(s, u, d)
    case _ => true
  }

  /** The store only grows, so a step that fitted still fits. */
  lemma StepFitsGrows(s: Schedules<SlotTable>, s': Schedules<SlotTable>, step: Step)
    requires StepFits(s, step)
    requires forall u :: u in s ==> u in s'
    requires forall u, d :: HasDegree(s, u, d) ==> HasDegree(s', u, d)
    ensures StepFits(s', step)
  {
  }

  /** The record names the user's university, degree and group. */
  predicate HasPlace(rec: UserRecord) {
    UniversityKey in rec && DegreeKey in rec && GroupKey in rec
  }

  function UserId(chat: int): string {
    IntToDecimal(chat)
  }

  class Bot {
    var schedules: Schedules<SlotTable>
    var users: UsersTable
    var steps: map<int, Step>
    var outbox: seq<Outgoing>
    var savedSchedules: Schedules<SlotTable>
    var savedUsers: UsersTable

    /** The files agree with memory (every change is saved at once), and
        every pending step fits the store. */
    ghost predicate Valid()
      reads this
    {
      && savedSchedules == schedules && savedUsers == users
      && forall c :: c in steps ==> StepFits(schedules, steps[c])
    }

    /** Start-up: both files loaded, no step pending, nothing sent. */
    constructor (loadedSchedules: Schedules<SlotTable>, loadedUsers: UsersTable)
      ensures Valid()
      ensures schedules == loadedSchedules && users == loadedUsers
      ensures steps == map[] && outbox == []
    {
      schedules, users := loadedSchedules, loadedUsers;
      savedSchedules, savedUsers := loadedSchedules, loadedUsers;
      steps, outbox := map[], [];
    }

    /** `save_user_info`: the user's record becomes exactly the five fields,
        every other record stays, and the table is saved. */
    method SaveUserInfo(userId: string, firstName: string, username: string,
                        university: string, degree: string, group: string)
      requires Valid()
      modifies this
      ensures Valid()
      ensures users == old(users)[userId := NewUserRecord(firstName, username, university, degree, group)]
      ensures schedules == old(schedules) && steps == old(steps) && outbox == old(outbox)
    {
      users := users[userId := NewUserRecord(firstName, username, university, degree, group)];
      savedUsers := users;
    }

    /** `/start`: the membership test reads the users file afresh (into locals of the
        handler, so no global changes). */
    method Start(chat: int, firstName: string)
      requires Valid()
      modifies this
      ensures Valid()
      ensures schedules == old(schedules) && users == old(users)
      ensures UserId(chat) in savedUsers ==>
        steps == old(steps) &&
        outbox == old(outbox) + [Say(UserId(chat), WelcomeBack(firstName))]
      ensures UserId(chat) !in savedUsers ==>
        steps == old(steps)[chat := ChooseUniversity] &&
        outbox == old(outbox) + [Say(UserId(chat), Welcome(firstName)),
                                 Menu(UserId(chat), PickUniversity, schedules.Keys)]
    {
      var loadedUsers := savedUsers;
      if UserId(chat) in loadedUsers {
        outbox := outbox + [Say(UserId(chat), WelcomeBack(firstName))];
      } else {
        outbox := outbox + [Say(UserId(chat), Welcome(firstName))];
        ShowUniversities(chat);
      }
    }

    /** `/change_group`: back to the university choice. */
    method ChangeGroup(chat: int, firstName: string)
      requires Valid()
      modifies this
      ensures Valid()
      ensures schedules == old(schedules) && users == old(users)
      ensures steps == old(steps)[chat := ChooseUniversity]
      ensures outbox == old(outbox) + [Say(UserId(chat), Hey(firstName)),
                                       Menu(UserId(chat), PickUniversity, schedules.Keys)]
    {
      outbox := outbox + [Say(UserId(chat), Hey(firstName))];
      ShowUniversities(chat);
    }

    method ShowUniversities(chat: int)
      requires Valid()
      modifies this
      ensures Valid()
      ensures schedules == old(schedules) && users == old(users)
      ensures steps == old(steps)[chat := ChooseUniversity]
      ensures outbox == old(outbox) + [Menu(UserId(chat), PickUniversity, schedules.Keys)]
    {
      outbox := outbox + [Menu(UserId(chat), PickUniversity, schedules.Keys)];
      steps := steps[chat := ChooseUniversity];
    }

    method ShowDegrees(chat: int, university: string)
      requires Valid() && university in schedules
      modifies this
      ensures Valid()
      ensures schedules == old(schedules) && users == old(users)
      ensures steps == old(steps)[chat := ChooseDegree(university)]
      ensures outbox == old(outbox) + [Menu(UserId(chat), PickDegree, schedules[university].degrees.Keys)]
    {
      outbox := outbox + [Menu(UserId(chat), PickDegree, schedules[university].degrees.Keys)];
      steps := steps[chat := ChooseDegree(university)];
    }

    method ShowGroups(chat: int, university: string, degree: string)
      requires Valid() && HasDegree(schedules, university, degree)
      modifies this
      ensures Valid()
      ensures schedules == old(schedules) && users == old(users)
      ensures steps == old(steps)[chat := ChooseGroup(university, degree)]
      ensures outbox == old(outbox) + [Menu(UserId(chat), PickGroup, schedules[university].degrees[degree].groups.Keys)]
    {
      outbox := outbox + [Menu(UserId(chat), PickGroup, schedules[university].degrees[degree].groups.Keys)];
      steps := steps[chat := ChooseGroup(university, degree)];
    }

    /** A university is accepted only when it is a key of the store;
        otherwise the choice is asked again. */
    method HandleUniversitySelection(chat: int, text: string)
      requires Valid()
      modifies this
      ensures Valid()
      ensures schedules == old(schedules) && users == old(users)
      ensures text in schedules ==> (steps == old(steps)[chat := ChooseDegree(text)] &&
        outbox == old(outbox) + [Menu(UserId(chat), PickDegree, schedules[text].degrees.Keys)])
      ensures text !in schedules ==> (steps == old(steps)[chat := ChooseUniversity] &&
        outbox == old(outbox) + [Say(UserId(chat), InvalidUniversity),
                                 Menu(UserId(chat), PickUniversity, schedules.Keys)])
    {
      if text in schedules {
        ShowDegrees(chat, text);
      } else {
        outbox := outbox + [Say(UserId(chat), InvalidUniversity)];
        ShowUniversities(chat);
      }
    }

    /** A degree is accepted only when the chosen university has it. */
    method HandleDegreeSelection(chat: int, university: string, text: string)
      requires Valid() && university in schedules
      modifies this
      ensures Valid()
      ensures schedules == old(schedules) && users == old(users)
      ensures HasDegree(schedules, university, text) ==>
        steps == old(steps)[chat := ChooseGroup(university, text)] &&
        outbox == old(outbox) + [Menu(UserId(chat), PickGroup, schedules[university].degrees[text].groups.Keys)]
      ensures !HasDegree(schedules, university, text) ==>
        steps == old(steps)[chat := ChooseDegree(university)] &&
        outbox == old(outbox) + [Say(UserId(chat), InvalidDegree),
                                 Menu(UserId(chat), PickDegree, schedules[university].degrees.Keys)]
    {
      if text in schedules[university].degrees {
        ShowGroups(chat, university, text);
      } else {
        outbox := outbox + [Say(UserId(chat), InvalidDegree)];
        ShowDegrees(chat, university);
      }
    }

    /** A group is accepted only when the chosen degree has it; then, and
        only then, the user is saved with the collected choices. */
    method HandleGroupSelection(chat: int, university: string, degree: string, text: string,
                                firstName: string, username: string)
      requires Valid() && HasDegree(schedules, university, degree)
      modifies this
      ensures Valid()
      ensures schedules == old(schedules)
      ensures HasGroup(schedules, university, degree, text) ==>
        && users == old(users)[UserId(chat) := NewUserRecord(firstName, username, university, degree, text)]
        && steps == old(steps) - {chat}
        && outbox == old(outbox) + [Say(UserId(chat), GroupChosen(text)),
                                    Say(UserId(chat), UseHint)]
      ensures !HasGroup(schedules, university, degree, text) ==>
        && users == old(users)
        && steps == old(steps)[chat := ChooseGroup(university, degree)]
        && outbox == old(outbox) + [Say(UserId(chat), InvalidGroup),
                                    Menu(UserId(chat), PickGroup, schedules[university].degrees[degree].groups.Keys)]
    {
      steps := steps - {chat};
      if text in schedules[university].degrees[degree].groups {
        outbox := outbox + [Say(UserId(chat), GroupChosen(text))];
        SaveUserInfo(UserId(chat), firstName, username, university, degree, text);
        outbox := outbox + [Say(UserId(chat), UseHint)];
      } else {
        outbox := outbox + [Say(UserId(chat), InvalidGroup)];
        ShowGroups(chat, university, degree);
      }
    }

    /** A message in a chat with a pending step goes to the handler that
        step names, with the arguments the step recorded, and the step is used
        up (the handler may register the next one). Only a group choice
        writes the user table, only an approval writes the store, and no other
        chat's step changes. A chat with no pending step is left to the
        command handlers. */
    method Receive(chat: int, msg: Incoming)
      requires Valid()
      modifies this
      ensures Valid()
      ensures chat !in old(steps) ==>
        schedules == old(schedules) && users == old(users) && steps == old(steps) && outbox == old(outbox)
      ensures users != old(users) ==> chat in old(steps) && old(steps)[chat].ChooseGroup?
      ensures schedules != old(schedules) ==>
        chat in old(steps) && old(steps)[chat].ConfirmSchedule? && Lower(msg.text) == "approve"
      ensures chat in old(steps) && old(steps)[chat].ChooseUniversity? ==>
        if msg.text in schedules then
          steps == old(steps)[chat := ChooseDegree(msg.text)] &&
          outbox == old(outbox) + [Menu(UserId(chat), PickDegree, schedules[msg.text].degrees.Keys)]
        else
          steps == old(steps) &&
          outbox == old(outbox) + [Say(UserId(chat), InvalidUniversity),
                                   Menu(UserId(chat), PickUniversity, schedules.Keys)]
      ensures chat in old(steps) && old(steps)[chat].ChooseDegree? ==>
        var u := old(steps)[chat].university;
        u in schedules &&
        if HasDegree(schedules, u, msg.text) then
          steps == old(steps)[chat := ChooseGroup(u, msg.text)] &&
          outbox == old(outbox) + [Menu(UserId(chat), PickGroup, schedules[u].degrees[msg.text].groups.Keys)]
        else
          steps == old(steps) &&
          outbox == old(outbox) + [Say(UserId(chat), InvalidDegree),
                                   Menu(UserId(chat), PickDegree, schedules[u].degrees.Keys)]
      ensures chat in old(steps) && old(steps)[chat].ChooseGroup? ==>
        var u, d := old(steps)[chat].university, old(steps)[chat].degree;
        HasDegree(schedules, u, d) &&
        if HasGroup(schedules, u, d, msg.text) then
          && users == old(users)[UserId(chat) := NewUserRecord(msg.firstName, msg.username, u, d, msg.text)]
          && steps == old(steps) - {chat}
          && outbox == old(outbox) + [Say(UserId(chat), GroupChosen(msg.text)), Say(UserId(chat), UseHint)]
        else
          && users == old(users) && steps == old(steps)
          && outbox == old(outbox) + [Say(UserId(chat), InvalidGroup),
                                      Menu(UserId(chat), PickGroup, schedules[u].degrees[d].groups.Keys)]
      ensures chat in old(steps) && old(steps)[chat].EnterUniversityName? ==>
        steps == old(steps)[chat := EnterDegree(msg.text)] &&
        outbox == old(outbox) + [Say(UserId(chat), AskDegreeName)]
      ensures chat in old(steps) && old(steps)[chat].EnterDegree? ==>
        steps == old(steps)[chat := UploadSchedule(old(steps)[chat].university, msg.text)] &&
        outbox == old(outbox) + [Say(UserId(chat), AskUpload)]
      ensures chat in old(steps) && old(steps)[chat].UploadSchedule? ==>
        var u, d := old(steps)[chat].university, old(steps)[chat].degree;
        match msg.upload
        case NotDocument =>
          steps == old(steps) - {chat} && outbox == old(outbox) + [Say(UserId(chat), BadUpload)]
        case Document(None) =>
          steps == old(steps) - {chat} && outbox == old(outbox)
        case Document(Some(rows)) =>
          steps == old(steps)[chat := ConfirmSchedule(u, d, ExcelParse.ParseRows(rows))] &&
          outbox == old(outbox) + [Say(UserId(chat), AskApproval)]
      ensures chat in old(steps) && old(steps)[chat].ConfirmSchedule? ==>
        var step := old(steps)[chat];
        && steps == old(steps) - {chat}
        && (Lower(msg.text) == "approve" ==>
              schedules == Approve(old(schedules), step.university, step.degree, step.parsed) &&
              outbox == old(outbox) + [Say(UserId(chat), ScheduleAdded)])
        && (Lower(msg.text) != "approve" ==>
              outbox == old(outbox) + [Say(UserId(chat), ScheduleNotAdded)])
    {
      if chat !in steps {
        return;
      }
      match steps[chat]
      case ChooseUniversity =>
        HandleUniversitySelection(chat, msg.text);
      case ChooseDegree(u) =>
        HandleDegreeSelection(chat, u, msg.text);
      case ChooseGroup(u, d) =>
        HandleGroupSelection(chat, u, d, msg.text, msg.firstName, msg.username);
      case EnterUniversityName =>
        HandleUniversityName(chat, msg.text);
      case EnterDegree(u) =>
        HandleDegree(chat, u, msg.text);
      case UploadSchedule(u, d) =>
        ProcessExcelFile(chat, u, d, msg.upload);
      case ConfirmSchedule(u, d, parsed) =>
        HandleApproval(chat, u, d, parsed, msg.text);
    }

    /** `/change_group` followed by the three answers a user gives on the
        reply keyboards: a university of the store, a degree of it and a
        group of that degree. The user ends up registered with exactly those
        choices, the store is untouched and no step is left pending. */
    method ChangeGroupDialogue(chat: int, firstName: string, username: string,
                               university: string, degree: string, group: string)
      requires Valid() && HasGroup(schedules, university, degree, group)
      modifies this
      ensures Valid()
      ensures schedules == old(schedules) && chat !in steps
      ensures users == old(users)[UserId(chat) := NewUserRecord(firstName, username, university, degree, group)]
    {
      ChangeGroup(chat, firstName);
      Receive(chat, Incoming(university, firstName, username, NotDocument));
      Receive(chat, Incoming(degree, firstName, username, NotDocument));
      Receive(chat, Incoming(group, firstName, username, NotDocument));
    }

    /** `/schedule`: the reply for the user, or nothing when the handler
        raises. */
    method GetSchedule(chat: int, today: string)
      requires Valid()
      modifies this
      ensures Valid()
      ensures schedules == old(schedules) && users == old(users) && steps == old(steps)
      ensures var reply := BotReply(users, schedules, UserId(chat), today);
        outbox == old(outbox) + (if reply.Success? then [Say(UserId(chat), reply.value)] else [])
    {
      var userId := UserId(chat);
      if userId !in users {
        outbox := outbox + [Say(userId, NotRegisteredText)];
        return;
      }
      var userInfo := users[userId];
      if UniversityKey !in userInfo || DegreeKey !in userInfo || GroupKey !in userInfo {
        return;
      }
      var university, degree, group := userInfo[UniversityKey], userInfo[DegreeKey], userInfo[GroupKey];
      var text := BuildScheduleText(BotStyle, today, university, degree, group,
                                    DayLookup(schedules, university, degree, group, today));
      if text.Success? {
        outbox := outbox + [Say(userId, text.value)];
      }
    }

    /** `/addschedule`: only the two admin chat ids may go on. */
    method RequestUniversityDegree(chat: int)
      requires Valid()
      modifies this
      ensures Valid()
      ensures schedules == old(schedules) && users == old(users)
      ensures chat !in Admins ==> (steps == old(steps) &&
        outbox == old(outbox) + [Say(UserId(chat), NoPermission)])
      ensures chat in Admins ==> (steps == old(steps)[chat := EnterUniversityName] &&
        outbox == old(outbox) + [Say(UserId(chat), AskUniversityName)])
    {
      if chat !in Admins {
        outbox := outbox + [Say(UserId(chat), NoPermission)];
        return;
      }
      outbox := outbox + [Say(UserId(chat), AskUniversityName)];
      steps := steps[chat := EnterUniversityName];
    }

    method HandleUniversityName(chat: int, text: string)
      requires Valid()
      modifies this
      ensures Valid()
      ensures schedules == old(schedules) && users == old(users)
      ensures steps == old(steps)[chat := EnterDegree(text)]
      ensures outbox == old(outbox) + [Say(UserId(chat), AskDegreeName)]
    {
      outbox := outbox + [Say(UserId(chat), AskDegreeName)];
      steps := steps[chat := EnterDegree(text)];
    }

    method HandleDegree(chat: int, university: string, text: string)
      requires Valid()
      modifies this
      ensures Valid()
      ensures schedules == old(schedules) && users == old(users)
      ensures steps == old(steps)[chat := UploadSchedule(university, text)]
      ensures outbox == old(outbox) + [Say(UserId(chat), AskUpload)]
    {
      outbox := outbox + [Say(UserId(chat), AskUpload)];
      steps := steps[chat := UploadSchedule(university, text)];
    }

    /** The upload step: anything but a document ends the dialogue; a
        workbook without the sheet "Лист1" makes the handler raise; otherwise
        the parsed sheet waits for the admin's answer. */
    method ProcessExcelFile(chat: int, university: string, degree: string, upload: Upload)
      requires Valid()
      modifies this
      ensures Valid()
      ensures schedules == old(schedules) && users == old(users)
      ensures upload.NotDocument? ==> (steps == old(steps) - {chat} &&
        outbox == old(outbox) + [Say(UserId(chat), BadUpload)])
      ensures upload.Document? && upload.sheet.None? ==> steps == old(steps) - {chat} && outbox == old(outbox)
      ensures upload.Document? && upload.sheet.Some? ==>
        steps == old(steps)[chat := ConfirmSchedule(university, degree, ExcelParse.ParseRows(upload.sheet.value))] &&
        outbox == old(outbox) + [Say(UserId(chat), AskApproval)]
    {
      steps := steps - {chat};
      if upload.NotDocument? {
        outbox := outbox + [Say(UserId(chat), BadUpload)];
        return;
      }
      if upload.sheet.None? {
        return;
      }
      var scheduleJson := ExcelParse.ParseExcelToJson(upload.sheet.value);
      outbox := outbox + [Say(UserId(chat), AskApproval)];
      steps := steps[chat := ConfirmSchedule(university, degree, scheduleJson)];
    }

    /** The admin's answer: "approve" in any letter case merges the sheet
        into the store (see `Store.Approve`) and saves it; any other answer
        changes nothing. */
    method HandleApproval(chat: int, university: string, degree: string,
                          scheduleJson: map<string, map<string, SlotTable>>, text: string)
      requires Valid()
      modifies this
      ensures Valid()
      ensures users == old(users) && steps == old(steps) - {chat}
      ensures Lower(text) == "approve" ==>
        schedules == Approve(old(schedules), university, degree, scheduleJson) &&
        outbox == old(outbox) + [Say(UserId(chat), ScheduleAdded)]
      ensures Lower(text) != "approve" ==>
        schedules == old(schedules) &&
        outbox == old(outbox) + [Say(UserId(chat), ScheduleNotAdded)]
    {
      steps := steps - {chat};
      if Lower(text) == "approve" {
        var merged := MergeGroups(schedules, university, degree, scheduleJson);
        ApproveKeepsLevels(schedules, university, degree, scheduleJson);
        forall c | c in steps ensures StepFits(merged, steps[c]) {
          StepFitsGrows(schedules, merged, steps[c]);
        }
        schedules := merged;
        savedSchedules := schedules;
        outbox := outbox + [Say(UserId(chat), ScheduleAdded)];
      } else {
        outbox := outbox + [Say(UserId(chat), ScheduleNotAdded)];
      }
    }

    /** `/weekly`: the picture of the user's week, or nothing when the
        handler raises on a record without the three fields. */
    method GetWeeklySchedule(chat: int, width: string -> int)
      requires Valid()
      modifies this
      ensures Valid()
      ensures schedules == old(schedules) && users == old(users) && steps == old(steps)
      ensures UserId(chat) !in users ==> outbox == old(outbox) + [Say(UserId(chat), NotRegisteredText)]
      ensures UserId(chat) in users && !HasPlace(users[UserId(chat)]) ==>
        outbox == old(outbox)
      ensures UserId(chat) in users && HasPlace(users[UserId(chat)]) ==>
        var rec := users[UserId(chat)];
        var u, d, g := rec[UniversityKey], rec[DegreeKey], rec[GroupKey];
        && |outbox| == |old(outbox)| + 1 && outbox[..|old(outbox)|] == old(outbox)
        && outbox[|old(outbox)|].Photo? && outbox[|old(outbox)|].to == UserId(chat)
        && WeeklyImage.SchedulePicture(outbox[|old(outbox)|].picture,
                                       WeeklyImage.Week(schedules, u, d, g), u, d, g, width)
    {
      var userId := UserId(chat);
      if userId !in users {
        outbox := outbox + [Say(userId, NotRegisteredText)];
        return;
      }
      var userInfo := users[userId];
      if UniversityKey !in userInfo || DegreeKey !in userInfo || GroupKey !in userInfo {
        return;
      }
      var university, degree, group := userInfo[UniversityKey], userInfo[DegreeKey], userInfo[GroupKey];
      var weeklySchedule := WeekOf(schedules, university, degree, group);
      var picture := WeeklyImage.GenerateWeeklyScheduleImage(weeklySchedule, university, degree, group, width);
      outbox := outbox + [Photo(userId, picture)];
    }
  }

  /** `handle_approval` on "approve": create the levels, then assign the
      groups of the sheet. */
  method MergeGroups(s0: Schedules<SlotTable>, university: string, degree: string,
                     scheduleJson: map<string, map<string, SlotTable>>)
    returns (s: Schedules<SlotTable>)
    ensures s == Approve(s0, university, degree, scheduleJson)
  {
    s := s0;
    if university !in s {
      s := s[university := University(map[])];
    }
    if degree !in s[university].degrees {
      s := s[university := s[university].(degrees := s[university].degrees[degree := Degree(map[])])];
    }
    assert s == EnsureDegree(s0, university, degree);
    var groups := AssignGroups(s[university].degrees[degree].groups, scheduleJson);
    s := s[university := s[university].(degrees := s[university].degrees[degree := Degree(groups)])];
  }

  /** The loop of `handle_approval`: `groups[g] = days` for every group of
      the sheet, in any order. */
  method AssignGroups(groups0: map<string, map<string, SlotTable>>, scheduleJson: map<string, map<string, SlotTable>>)
    returns (groups: map<string, map<string, SlotTable>>)
    ensures groups == groups0 + scheduleJson
  {
    groups := groups0;
    var pending := scheduleJson.Keys;
    assert scheduleJson - pending == map[];
    while pending != {}
      invariant pending <= scheduleJson.Keys
      invariant groups == groups0 + (scheduleJson - pending)
      decreases pending
    {
      var g :| g in pending;
      groups := groups[g := scheduleJson[g]];
      assert (scheduleJson - pending)[g := scheduleJson[g]] == scheduleJson - (pending - {g});
      pending := pending - {g};
    }
    assert scheduleJson - pending == scheduleJson;
  }

  /** The loop of `get_weekly_schedule`: each weekday's table or an empty
      one. */
  method WeekOf(s: Schedules<SlotTable>, university: string, degree: string, group: string)
    returns (weeklySchedule: map<string, SlotTable>)
    ensures weeklySchedule == WeeklyImage.Week(s, university, degree, group)
  {
    weeklySchedule := map[];
    var k := 0;
    while k < |WeeklyImage.Days|
      invariant 0 <= k <= |WeeklyImage.Days|
      invariant weeklySchedule.Keys == set day | day in WeeklyImage.Days[..k]
      invariant forall day :: day in WeeklyImage.Days[..k] ==>
        weeklySchedule[day] == WeeklyImage.Week(s, university, degree, group)[day]
    {
      var day := WeeklyImage.Days[k];
      var days := GroupDays(s, university, degree, group);
      var daySchedule := if day in days then days[day] else [];
      assert WeeklyImage.Days[..k + 1] == WeeklyImage.Days[..k] + [day];
      weeklySchedule := weeklySchedule[day := daySchedule];
      k := k + 1;
    }
    assert WeeklyImage.Days[..k] == WeeklyImage.Days;
  }
}
