# University timetable bot — a Dafny model

This project models a Telegram bot. The bot tells students their university timetable. It has four programs:

- **main.py, the current bot.** Users register with a reply-keyboard wizard (university → degree → group). `/schedule` shows today's lessons and `/weekly` draws a picture of the week. Admins upload an Excel sheet with `/addschedule` and approve it, and it is then merged into the schedule store.
- **old_main.py, the older bot.** Its wizard has extra "Not my university / degree / group" buttons. They let a user add a new name to the store. Any user can propose one day of a group's timetable as a `University:Degree:Group:Day:Lessons` text. `/approve <id>` accepts a pending proposal and `/reject <id>` refuses it. These commands are meant for admins, but the handler never checks the sender, so any chat can approve or reject a known id.
- **dailyreminders.py.** A service that reads `schedule_times.json` once a minute. It sends each user whose stored `HH:MM` equals the current time the text of that day's timetable. Every send is retried up to three times.
- **scanner.py.** A job that downloads every list of every course timetable. It compares each download with the copy it keeps, swaps in the lists that changed, and posts one summary message.

The modules mirror those pieces:

| module | file | what it holds |
|---|---|---|
| `Wrappers` | wrappers.dfy | `Option` and `Result` |
| `PyText` | pytext.dfy | the Python `str` operations the bot uses: `strip`, ASCII `lower`, `split(sep)`, `split()`, `join`, `in`, `str(int)` |
| `OrderedDict` | odict.dfy | a dict whose insertion order matters (a day's time-slot table) |
| `Store` | store.dfy | the nested store university → degrees → degree → groups → group → day, with its lookup chain, the approval merge and the per-day upsert |
| `Users` | users.dfy | the registration table and the record `save_user_info` writes |
| `BotTexts` | bot_texts.dfy | the wizard replies both bots share |
| `DailyMessage` | daily_message.dfy | the daily timetable text (bot reply and reminder), with its teacher and "none" rules |
| `ExcelParse` | excel_parse.dfy | `parse_excel_to_json` over abstract sheet rows |
| `Retry` | retry.dfy | the bounded `send_message` retry loop |
| `Reminders` | reminders.dfy | one tick of `check_notifications` |
| `Scanner` | scanner.dfy | one run of `check_for_sheet_changes` over a file map |
| `WeeklyImage` | weekly_image.dfy | the geometry of the weekly picture and the greedy wrapping of `draw_wrapped_text` |
| `MainBot` | main_bot.dfy | the handlers of the current bot as a class over its global state |
| `OldBot` | old_bot.dfy | the handlers of the older bot as a class over its global state |

Each bot is a class. Its fields are:

- the schedule store and the user table;
- for the older bot, the pending proposals;
- the handler each chat's next message goes to, which is what `register_next_step_handler` records;
- the messages sent so far;
- the last saved content of each JSON file.

The class invariant `Valid()` says two things. Every file snapshot equals memory, because each change is saved at once. Every pending wizard step names levels that exist in the store. Each handler is a method whose `ensures` gives the whole new state. `Receive` hands a chat's next message to the handler its pending step names, with the arguments the step recorded, so the registration wizard can be followed from the first answer to the saved record (`ChangeGroupDialogue`, `StartDialogue`, `NewGroupDialogue`).

The loops follow the source as methods: parsing the sheet, building the daily text, wrapping, drawing the table, selecting and sending reminders, and scanning the sheets. Each method is proved equal to a specification function. The properties the programs promise are proved as lemmas about those functions.

Nothing of the I/O is modelled. Inputs that come from the outside world are parameters:

- the clock, as the weekday name and `HH:MM` text;
- the network, as the outcome of each POST attempt and each sheet download;
- pandas, as abstract rows and an abstract comparison of two CSV contents;
- the font, as a text-width function.

A few places are as written in the source and may surprise a reader. Each is proved as a lemma rather than corrected:

- **The older bot's admin test never holds.** It tests the string chat id against a list of integers. Every well-formed proposal therefore goes to the pending table (`NoProposerIsAdmin`).
- **Anyone can approve a proposal.** `/approve <id>` and `/reject <id>` are accepted from any chat: `HandleAdminAction` has no requirement on the sender, and a known id is added to the store and removed just the same.
- **Proposal ids can collide.** A new proposal's id is one more than the number pending. Once a proposal has been removed, that id can name one still pending, and storing the new one overwrites it (`NextProposalIdCanCollide`). While nothing has been removed the id is fresh (`NextProposalIdFresh`).
- **The table outline runs one column past the image.** The outline loop runs over `num_days + 2` columns. Its last column starts at the right edge of the 1500-pixel image (`LastGridColumnOffCanvas`).
- **Two-field lessons crash the text builder.** A lesson entry with exactly two fields makes both timetable texts index a missing third field. The bot handler then raises, and the reminder tick stops (`LessonBody`, `LessonsText`, `NotifyTick`).

## Model

| member | source | states |
|---|---|---|
| PyText.Strip | main.py:156 | `str.strip()` result has no leading or trailing whitespace and is no longer than the input |
| PyText.StripDrops | main.py:156 | the stripped text is a contiguous slice of the input and everything dropped on either side is whitespace |
| PyText.StripIdempotent | main.py:156 | stripping twice gives the same as stripping once |
| PyText.Lower | main.py:136 | `lower()` keeps the length and lowers every ASCII capital, leaving every other character as it is |
| PyText.LowerIsNone | main.py:82 | a text lowers to "none" exactly when it is one of the sixteen upper/lower-case spellings of "none" |
| PyText.Split | main.py:172 | `split(sep)` yields one more piece than there are separators, and no piece contains the separator |
| PyText.JoinSplit | main.py:172 | joining the pieces of a split with the separator gives back the original text |
| PyText.SplitJoin | old_main.py:200-201 | splitting a join of separator-free pieces gives back exactly the pieces |
| PyText.ContainsAt | main.py:345 | the substring test `sub in s` holds exactly when `sub` occurs at some position of `s` |
| PyText.Words | old_main.py:224 | `split()` yields non-empty words free of whitespace |
| PyText.WordsOfJoin | old_main.py:224 | splitting a space-joined list of words gives back the words |
| PyText.NatToDecimal | old_main.py:206 | `str(n)` is a non-empty string of digits with no leading zero unless n is 0 |
| PyText.DecimalRoundTrip | old_main.py:206 | reading back the decimal text of n gives n |
| PyText.NatToDecimalInjective | old_main.py:206 | distinct numbers have distinct decimal texts |
| PyText.IntToDecimal | main.py:49 | `str(chat.id)` starts with '-' exactly for negative ids |
| PyText.IntToDecimalInjective | main.py:49 | distinct chat ids give distinct user keys |
| OrderedDict.Get | main.py:313 | a dict lookup finds nothing exactly when the key is absent, and any value found is stored under that key |
| OrderedDict.Put | main.py:173 | after an assignment the key maps to the new value and every other key keeps its value |
| OrderedDict.PutKeys | main.py:173 | an assignment keeps the key order and appends a new key at the end |
| OrderedDict.PutDistinct | main.py:173 | an assignment never creates a duplicate key |
| Store.GroupDays | main.py:69 | the `.get(..., {})` chain gives the group's day table when university, degree and group all exist, and an empty table otherwise |
| Store.DayLookup | dailyreminders.py:61 | the lookup chain finds a day exactly when every level university/degree/group/day exists, and then gives that day's value |
| Store.EnsureDegree | main.py:137-140 | creating missing levels makes the degree exist, adds at most the university, leaves every other university and degree untouched, and leaves an existing degree exactly as it was |
| Store.SetGroups | main.py:142-143 | replacing one degree's groups changes that degree's groups only |
| Store.Approve | main.py:137-143 | the approval merge creates the university and degree when missing, replaces every group of the sheet wholesale and keeps every other group, degree and university as it was |
| Store.ApproveKeepsLevels | main.py:137-143 | the approval merge never removes a degree or a group |
| Store.UpsertDay | old_main.py:242-251 | `add_schedule` makes the given day hold the lessons and every other (university, degree, group, day) lookup gives what it gave before |
| Store.UpsertDayKeepsLevels | old_main.py:242-250 | `add_schedule` adds exactly the named degree and group to the levels of the store and removes none |
| Users.NewUserRecord | main.py:35-41 | the saved record has exactly the five fields, each holding the given value |
| DailyMessage.LessonBody | main.py:80-87 | the text after a slot line fails with IndexError exactly for an entry with no field or exactly two fields |
| DailyMessage.LessonBlock | main.py:79-87 | a slot's block fails with IndexError exactly for an entry with no field or exactly two fields |
| DailyMessage.LessonsText | main.py:78-87 | building a day's blocks fails exactly when one of its entries has no field or exactly two, and then only with IndexError |
| DailyMessage.LessonsTextShowsLessons | main.py:78-87 | every entry of a successfully built day has one field or at least three, and the text holds its slot line, its subject line, its teacher line when it has a third field, and a blank line |
| DailyMessage.LessonsTextShowsBlock | main.py:78-87 | the block of every slot of a successfully built day is part of the text |
| DailyMessage.TeacherLineShowsInfo | main.py:82-85 | the teacher line holds a '(' exactly when the teacher info does not read "none" (for a name and label without one), and a shown info appears stripped in parentheses |
| DailyMessage.LessonsTextShowsSlots | main.py:79 | every time slot of a successfully built day appears in the text as its slot line |
| DailyMessage.AppendBlock | main.py:79-87 | one pass of the loop appends exactly the slot's block to the message, or fails with IndexError exactly when the block cannot be built |
| DailyMessage.BuildScheduleText | main.py:69-91 | the message built by `+=` in the loop is the header, "*Lessons:*" and every block in slot order, or the "no lessons" text for a missing or empty day |
| DailyMessage.BotReplyUnregistered | main.py:59-61 | a user key not in the table gets only the "not registered" reply |
| DailyMessage.BotReplyNoLessons | main.py:69-71 | when some level of the lookup is missing or the day is empty, the reply is the header followed by "Lessons: No lessons scheduled for today." |
| DailyMessage.ReminderUnknownUser | dailyreminders.py:52-54 | an absent user or an empty record gets "User information not found." |
| DailyMessage.ReminderDefaults | dailyreminders.py:56-84 | missing fields are looked up as "Unknown University", "Unknown Degree", "Unknown Group", and a lookup miss gives the header followed by "No lessons scheduled for today." |
| ExcelParse.DayCell | main.py:167 | only the five weekday columns can hold a filled cell |
| ExcelParse.AmongFirstIndex | main.py:166 | a day is among the first n weekdays exactly when one of them is it |
| ExcelParse.FilledIsWeekday | main.py:166-168 | a filled cell always belongs to one of the five weekdays |
| ExcelParse.Pieces | main.py:172 | a cell is stored as its comma-split pieces, each stripped, one more than there are commas |
| ExcelParse.ParseExcelToJson | main.py:158-175 | the nested loops over rows and weekdays compute exactly the row-by-row fold of the sheet |
| ExcelParse.FillDays | main.py:166-173 | the weekday loop stores every filled cell of the row under the row's group and time slot and nothing else |
| ExcelParse.LastEntryNone | main.py:163-173 | no entry is recorded for a group, day and slot exactly when no row fills that cell |
| ExcelParse.AddDaysLookup | main.py:166-173 | after the weekday loop a lookup gives the row's pieces for a filled weekday of the row's group and slot, and what it gave before elsewhere |
| ExcelParse.ParseRowsLookup | main.py:158-175 | each stored lesson is the pieces of the last row that fills that group, day and slot |
| ExcelParse.LaterRowWins | main.py:173 | a later row filling the same cell overwrites an earlier one |
| ExcelParse.BlankKeyRowSkipped | main.py:163 | a row without a group or without a time changes nothing |
| ExcelParse.AddDaysShape | main.py:164-170 | the weekday loop touches only its own group and adds exactly the filled weekdays as day keys |
| ExcelParse.AddRowShape | main.py:163-170 | one row adds its group when it has a group and a time, and adds exactly its filled weekdays under it |
| ExcelParse.ParseRowsGroup | main.py:163-165 | a group appears exactly when some row names it together with a time |
| ExcelParse.ParseRowsDay | main.py:166-170 | a day appears under a group exactly when some row names that group with a time and fills that day |
| ExcelParse.ParseRowsDays | main.py:166 | every day key produced is one of the five weekdays |
| ExcelParse.AddDaysWellFormed | main.py:173 | the weekday loop keeps every slot table free of repeated slots |
| ExcelParse.ParseRowsWellFormed | main.py:158-175 | no slot table of the result repeats a time slot |
| Retry.SendMessage | dailyreminders.py:26-49 | at most `retries` POSTs; the message gets through exactly when one of the first `retries` attempts answers 200, stopping right after the first such attempt; otherwise all `retries` attempts are made |
| Reminders.SelectedAppend | dailyreminders.py:97-99 | selecting from two parts of the file one after the other is selecting from the whole file |
| Reminders.SelectedOnce | dailyreminders.py:97-99 | when the times file names each user once, as a JSON object does, no user is selected twice in one tick |
| Reminders.SelectedMembers | dailyreminders.py:97-99 | a user is selected exactly when the file stores the current `HH:MM` for that user |
| Reminders.TextsSpec | dailyreminders.py:101-109 | the texts sent are the reminders of a prefix of the selected users; it covers all of them unless a `get_schedule` raises, and then the next user is the one whose reminder raised |
| Reminders.TextsStep | dailyreminders.py:101-104 | one user's reminder either ends the sends with its error or adds exactly that user's text |
| Reminders.TextsAdvance | dailyreminders.py:101-104 | sending one more reminder keeps the texts sent a prefix of all the texts |
| Reminders.GetSchedule | dailyreminders.py:51-84 | the reminder text built by `+=` is the reminder specification for that user: not-found text, defaults and lookup |
| Reminders.SelectUsers | dailyreminders.py:97-99 | the first loop collects exactly the selected users in file order |
| Reminders.SendAll | dailyreminders.py:101-109 | each selected user, in order, is sent their reminder through the three-attempt retry until a `get_schedule` raises, and the tick reports that error |
| Reminders.NotifyTick | dailyreminders.py:90-109 | a missing or unreadable times file gives no sends; otherwise the users whose time is now get their reminders in file order, each delivered as the retry loop reports |
| Scanner.NamesDiffer | scanner.py:57-73 | the downloaded file and the kept file of a list never share a name |
| Scanner.ListResult | scanner.py:71-94 | a failed download changes nothing; with no kept file the download is kept and the course changed; with equal or unreadable frames the kept file stays and nothing changed; different frames replace the kept file and mark a change; no `new_` file remains and no other file is touched |
| Scanner.ScanChanges | scanner.py:96-102 | `changes` is the in-order concatenation of one note per changed course, the report is "No changes found" exactly when no course changed, and only timetable courses are reported |
| Scanner.ScanNotes | scanner.py:96-97 | `changes` is the note of each changed course in order |
| Scanner.ScanCourses | scanner.py:68-97 | every course marked changed is a course of the timetable |
| Scanner.ProcessCourse | scanner.py:69-94 | the inner loop over one course's lists computes the files, the `course_changed` flag and whether a download raised |
| Scanner.CheckForSheetChanges | scanner.py:66-102 | the files are those of the run; one report message is sent unless a download raised, and it gets through exactly when one of three attempts answers 200 |
| Scanner.ScanStaysRaised | scanner.py:55 | once a download has raised, no later course is looked at |
| Scanner.CourseStaysRaised | scanner.py:55 | once a download has raised, no later list of the course is looked at |
| WeeklyImage.CellsInsideImage | main.py:272-316 | the canvas is 1500 x 940; every lesson cell, day label and slot label lies inside it and is the outline cell one column and one row further in |
| WeeklyImage.LessonCellsDisjoint | main.py:315 | two different lesson cells do not overlap |
| WeeklyImage.LastGridColumnOffCanvas | main.py:296-300 | the outline loop's last column starts at the right edge of the image, outside the canvas |
| WeeklyImage.Week | main.py:257-260 | the weekly table has exactly the five weekdays, each holding the group's table for that day or an empty table |
| WeeklyImage.CellLessonsOfWeek | main.py:257-313 | a cell of the user's week shows the lessons the store holds under that university, degree, group, weekday and slot, and nothing when any of those levels is missing |
| WeeklyImage.WrapKeepsWords | main.py:340-353 | every word lands, masked, in exactly one line, and the lines keep the order of the words |
| WeeklyImage.WrapShape | main.py:340-353 | the last line is never empty once a word is seen; only the first finished line can be empty, exactly when the first word alone is too wide |
| WeeklyImage.WrapLineCount | main.py:340-353 | at most one line more than there are words |
| WeeklyImage.DrawWrappedText | main.py:333-353 | the loop produces exactly the greedy wrapping of the lessons to the cell width |
| WeeklyImage.RowCellsProper | main.py:312-316 | every cell drawn in a slot's row is a proper cell of that slot |
| WeeklyImage.RowCellsCover | main.py:312-316 | every non-empty lesson list of the slot's row is drawn |
| WeeklyImage.CellDrawnProper | main.py:313-316 | a cell is drawn at most once, and then inside the canvas with its wrapped lessons |
| WeeklyImage.CellDrawnCovers | main.py:314-316 | a non-empty lesson list is drawn |
| WeeklyImage.TableCellsProper | main.py:309-316 | every drawn cell belongs to a non-empty lesson list of a weekday and a fixed slot, lies inside the canvas and holds that list's wrapped lines |
| WeeklyImage.TableCellsCover | main.py:309-316 | every non-empty lesson list of a weekday and a fixed slot is drawn |
| WeeklyImage.GenerateWeeklyScheduleImage | main.py:265-322 | the picture has the canvas size, the header, the full outline grid, the five day labels, the six slot labels and exactly the drawn lesson cells |
| WeeklyImage.DrawTable | main.py:295-300 | the outline loop draws the 7 x 7 grid rectangles, column by column |
| WeeklyImage.GridColumn | main.py:297-300 | one column of the outline loop draws its seven rectangles |
| WeeklyImage.DayLabels | main.py:303-305 | each weekday label is centred in its top-row cell |
| WeeklyImage.SlotRow | main.py:312-316 | the inner loop of one slot draws exactly that slot's row of cells |
| WeeklyImage.DrawCell | main.py:313-316 | a cell is drawn only when its lesson list is non-empty |
| MainBot.StepFitsGrows | main.py:185-222 | a pending wizard step stays valid when the store grows |
| MainBot.Bot.constructor | main.py:31-32 | start-up loads both files, with no step pending and nothing sent |
| MainBot.Bot.SaveUserInfo | main.py:34-42 | the user's record becomes exactly the five fields, every other record stays, and the table is saved |
| MainBot.Bot.Start | main.py:44-54 | a user already in the saved table is welcomed back; anyone else is welcomed and offered the universities |
| MainBot.Bot.ChangeGroup | main.py:93-97 | the user is greeted and sent back to the university choice |
| MainBot.Bot.ShowUniversities | main.py:178-185 | the universities of the store are offered and the university choice is pending |
| MainBot.Bot.ShowDegrees | main.py:196-203 | the university's degrees are offered and the degree choice is pending |
| MainBot.Bot.ShowGroups | main.py:215-222 | the degree's groups are offered and the group choice is pending |
| MainBot.Bot.HandleUniversitySelection | main.py:187-194 | a university is accepted only when it is a key of the store; otherwise the choice is asked again |
| MainBot.Bot.HandleDegreeSelection | main.py:205-213 | a degree is accepted only when the chosen university has it; otherwise the choice is asked again |
| MainBot.Bot.HandleGroupSelection | main.py:224-242 | a group is accepted only when the given degree has it, and only then is the user saved with the given university and degree and that group |
| MainBot.Bot.Receive | main.py:106-242 | a chat's next message goes to the handler its pending step names, with the step's university, degree or parsed sheet; at a group step with a group of that degree the user's record becomes the step's university and degree and that group; only a group step writes the user table, only an approval writes the store, and a chat with no step is untouched |
| MainBot.Bot.ChangeGroupDialogue | main.py:93-242 | `/change_group` answered with a university, one of its degrees and one of its groups registers the user with exactly those, leaves the store as it was and leaves no step pending |
| MainBot.Bot.GetSchedule | main.py:56-91 | the reply sent is the daily text for the user's record, or nothing when the handler raises; nothing else changes |
| MainBot.Bot.RequestUniversityDegree | main.py:99-106 | only the two admin chat ids may go on to the upload dialogue |
| MainBot.Bot.HandleUniversityName | main.py:108-111 | the university name is recorded and the degree is asked for |
| MainBot.Bot.HandleDegree | main.py:113-116 | the degree is recorded and the upload is asked for |
| MainBot.Bot.ProcessExcelFile | main.py:118-133 | anything but a document ends the dialogue; a workbook without the sheet raises; otherwise the parsed sheet waits for approval |
| MainBot.Bot.HandleApproval | main.py:135-148 | "approve" in any letter case merges the sheet into the store and saves it; any other answer leaves the store unchanged |
| MainBot.Bot.GetWeeklySchedule | main.py:244-263 | an unregistered user is told so; a registered user gets one picture, which is the whole drawing of their week (canvas, header, outline, labels and cells) |
| MainBot.MergeGroups | main.py:137-145 | the in-place creation and assignment compute the approval merge |
| MainBot.AssignGroups | main.py:142-143 | the loop sets every group of the sheet to the sheet's days and keeps every other group |
| MainBot.WeekOf | main.py:257-260 | the loop builds the weekly table of the user's group |
| OldBot.NoProposerIsAdmin | old_main.py:198-204 | a string chat id is never found among the integer admin ids, so `HandleScheduleProposal` proves its admin branch dead |
| OldBot.NextProposalIdFresh | old_main.py:206-215 | while the pending ids are "1" to "n", the next id is new |
| OldBot.NextProposalIdCanCollide | old_main.py:206-239 | once a proposal has been removed, the next id can name one still pending |
| OldBot.ProposalTextParses | old_main.py:200-201 | a text in the prompted format splits into exactly the five fields and the lessons it was written from |
| OldBot.JoinAvoids | old_main.py:200 | a join contains no character absent from its pieces and separator |
| OldBot.AdminCommandParses | old_main.py:224 | "/approve 3" is read back as the command and the id |
| OldBot.OldReplyReadBack | old_main.py:185-188 | the lessons shown in the older reply can be read back line by line |
| OldBot.StepFitsGrows | old_main.py:55-127 | a pending wizard step stays valid when the store grows |
| OldBot.AddDay | old_main.py:242-250 | the in-place creation of the levels and the day assignment compute the per-day upsert |
| OldBot.OldBot.constructor | old_main.py:29-31 | start-up loads the three files, with no step pending and nothing sent |
| OldBot.OldBot.Grow | old_main.py:82 | the store is replaced by a grown one and saved, and nothing else changes |
| OldBot.OldBot.SaveUserInfo | old_main.py:33-41 | the user's record becomes exactly the five fields, every other record stays, and the table is saved |
| OldBot.OldBot.Start | old_main.py:43-53 | a user already in the saved table is welcomed back; anyone else is welcomed and offered the universities |
| OldBot.OldBot.ShowUniversities | old_main.py:55-61 | the universities of the store and "Not my university" are offered |
| OldBot.OldBot.ShowDegrees | old_main.py:87-93 | the university's degrees and "Not my degree" are offered |
| OldBot.OldBot.ShowGroups | old_main.py:121-127 | the degree's groups and "Not my group" are offered |
| OldBot.OldBot.HandleUniversitySelection | old_main.py:63-73 | "Not my university" moves to the new-name step without changing the store; a known university moves on; anything else asks again |
| OldBot.OldBot.HandleNewUniversity | old_main.py:75-85 | an existing name leaves the store unchanged and asks again; a new one is added with no degrees, saved, and its degree choice follows |
| OldBot.OldBot.HandleDegreeSelection | old_main.py:95-106 | "Not my degree" moves to the new-name step without changing the store; a known degree moves on; anything else asks again |
| OldBot.OldBot.HandleNewDegree | old_main.py:108-119 | an existing name leaves the store unchanged and asks again; a new one is added with no groups, saved, and its group choice follows |
| OldBot.OldBot.HandleGroupSelection | old_main.py:129-150 | "Not my group" moves to the new-name step; a group of the given degree registers the user with the given university and degree and that group; anything else asks again |
| OldBot.OldBot.HandleNewGroup | old_main.py:152-172 | an existing name leaves the store unchanged and asks again; a new one is added with no days, saved, and the user registered with it |
| OldBot.OldBot.Receive | old_main.py:55-220 | a chat's next message goes to the handler its pending step names, with the step's university and degree; a group step registers the user with the step's university and degree; only a group step writes the user table, only a "new ..." step writes the store, only the proposal step writes the pending proposals, and a chat with no step is untouched |
| OldBot.OldBot.StartDialogue | old_main.py:43-150 | `/start` of a new user answered with a university, one of its degrees and one of its groups registers the user with exactly those, writes nothing else and leaves no step pending |
| OldBot.OldBot.NewGroupDialogue | old_main.py:129-172 | "Not my group" followed by a name the degree lacks adds that group with no days and registers the user with it |
| OldBot.OldBot.GetSchedule | old_main.py:174-190 | the reply sent is the older daily text for the user's record, or nothing when the handler raises |
| OldBot.OldBot.ProposeSchedule | old_main.py:192-195 | anyone is sent the format prompt and the proposal step is pending |
| OldBot.OldBot.HandleScheduleProposal | old_main.py:197-220 | a text of exactly five ':'-fields is stored under the next id with its untrimmed comma-split lessons and announced to the admins; any other text is refused and nothing is stored |
| OldBot.OldBot.NotifyAdmins | old_main.py:216-217 | exactly one notice is sent to each admin, in the order of the admin list, and nothing else changes |
| OldBot.OldBot.HandleAdminAction | old_main.py:222-240 | from any chat, with no check of the sender: an unknown id is refused with the pending table unchanged; "/approve" adds the proposed day; any known id is then removed, whatever the command |
| OldBot.OldBot.AddSchedule | old_main.py:242-251 | the store becomes the per-day upsert and is saved; nothing else changes |

## Left out

- Telegram transport: polling, handler registration by command, `send_photo` bytes and `ReplyKeyboardRemove` are not modelled. A sent message is a value appended to an outbox.
- Reply keyboards: the buttons are modelled as the set of names offered, plus the extra "Not my ..." button of the older bot. Their order and layout are not modelled.
- `register_next_step_handler`: telebot keeps a list of handlers per chat; the model keeps one pending step per chat. A new registration replaces the old one, and `Receive` uses a step up when its message arrives. Which command handler a message reaches when no step is pending is not modelled.
- Messages without text (photos, stickers) reaching a text step are not modelled. In the source they raise on `message.text`.
- A `None` first name or username from Telegram is not modelled; both are strings.
- JSON files: reading and writing are not modelled. Each save is a snapshot field that equals memory after every handler. The extra reload in `start` is modelled as reading the saved snapshot into handler locals, so no global changes.
- A pending proposal that loads as an empty object is not modelled; pending proposals always hold their six fields.
- pandas: `read_excel`, `read_csv` and `DataFrame.equals` are not modelled. The sheet is a sequence of rows of text-or-blank cells, and comparing two CSV files is a parameter that answers equal, different or read error. Numeric cells, which `clean_text` passes through unstripped, are not modelled.
- The workbook having no sheet named "Лист1" is the one parse failure modelled; other pandas errors are not.
- PIL: fonts, `textbbox`, colours and the float centring of `draw_centered_text` and `draw_wrapped_text` are not modelled. Text width is a function parameter, and the picture records rectangles, labels and wrapped lines. Where lines are placed inside a cell is not modelled.
- `datetime.now()` becomes the `today` and `now` parameters. `time.sleep` and the endless `while True` loops are not modelled; the model covers one reminder tick and one scanner run.
- Retry.SendMessage: the HTTP POST and its 10-second timeout are not modelled; the outcome of each attempt is a parameter. The prints and the 2-second pause between attempts are also not modelled.
- msg_to_all.py, the one-off broadcast script, is not part of this model.
- `environs` and the Google Sheets ids are not modelled; downloads are keyed by `<course>_<list>`.
- `str.lower()` lowers ASCII letters only. Unicode case mapping is not modelled.
- Iteration order: the order of the approval loop over the sheet's groups does not matter (each group is assigned once), and the model iterates in any order. The day tables keep insertion order. The times file is a sequence in file order.
- Scanner: `os.remove` and `os.rename` raising is not modelled. A download that raises (an uncaught exception) ends the run with no report message.
- The body of the branch of `handle_schedule_proposal` that adds a schedule at once for an admin (old_main.py:202-204): `HandleScheduleProposal` keeps the test and proves with `NoProposerIsAdmin` that it never holds, so the body is not written out.
- `print` output is not modelled.
- Reminders.NotifyTick: a loaded times file is any sequence of id/time entries, so an id may repeat, which a loaded JSON object cannot do. Every property holds for all sequences; `SelectedOnce` gives the duplicate-free case.
