# jotfiles core in Dafny

This project models the parts of jotfiles that reconcile a work tracker with
a Trello board, together with the Maven command helpers.

- **`trello_m` personal board** (`TrelloPersonalBoard`). It writes each sprint
  task onto the board as one card. The card is tied to the task by the comment
  `task_id_<id>` and carries the remaining time and one "Task URL" attachment.
  It also writes each calendar event as one card copied from the "Meeting"
  template, and marks due-complete the due-dated cards of the "Done" list.
  `list_messages` and `_bot_comment` read and write bot messages.
- **`trello_hooks` proxy** (`TrelloProxy`). This is the older reconciler. It
  finds cards by the raw task id, writes no marker, and only attaches the task
  URL again.
- **`LocalWorkflow.update_sprint_issues`**. It upserts every task of the
  sprint, in order.
- **Maven helpers**:
  - the `mvn` command lines that `compile_mvn` and `_test` assemble;
  - the `_debug` and `_local_repo` arguments;
  - the loop of `compile_mvn`, which turns Maven's output lines into a
    one-line progress bar.

The board is `Trello.Board`, a class whose `cards` and `nextId` fields change
in place. Each card operation of the Trello client library is one of its
methods.

Each reconciler operation is a method proved equal to a function over board
snapshots, such as `PersonalBoard.UpsertTask` or `Trello.MarkDone`. The
lemmas state what those functions guarantee:

- the create-or-sync decision;
- idempotence of the personal board's upsert, and its absence in the proxy;
- the calendar conflict rule;
- the exact effect of the done pass.

A Python exception is modelled as `Outcome.Raise`, together with the board as
it stood when the exception was raised.

The Maven command strings are shown to mean what they say by reading them
back:

- `Split` is `str.split(" ")`, and recovers the words of a command line;
- `ReadTestArgs` recovers the test request that a command was built from;
- `SuspendOf` and `AddressOf` recover the debug settings.

## Model

| member | source | states |
|---|---|---|
| Trello.Hits | jotfiles/trello_m/__init__.py:93-96 | the open-card search returns exactly the positions of the open cards that answer the query, in board order without repeats |
| Trello.HitsAgree | jotfiles/trello_m/__init__.py:93-96 | two boards whose cards answer a query alike give the same search result |
| Trello.FirstLabel | jotfiles/trello_m/__init__.py:176-177 | the generator's `next` gives the first label with that name; StopIteration exactly when no label has that name |
| Trello.Lookup | jotfiles/trello_m/__init__.py:170 | indexing a cached dict succeeds exactly when the key is present; otherwise KeyError of that key |
| Trello.WithoutUrl | jotfiles/trello_m/__init__.py:125 | the attachments kept are exactly those whose URL differs, and there are no more of them than before |
| Trello.CountUrlSplit | jotfiles/trello_m/__init__.py:125-128 | the attachments kept plus those removed are all of the card's attachments |
| Trello.WithoutUrlNone | jotfiles/trello_m/__init__.py:125-128 | when no attachment points at the URL, none is removed |
| Trello.MarkDoneExact | jotfiles/trello_m/__init__.py:159-166 | the done pass sets due-complete on exactly the open cards of "Done" that have a due date and changes nothing else; with no "Done" list it raises KeyError and changes nothing |
| Trello.MarkDoneIdempotent | jotfiles/trello_m/__init__.py:159-166 | a second done pass changes nothing |
| PersonalBoard.TrelloPersonalBoard.constructor | jotfiles/trello_m/__init__.py:78-87 | the board keeps the list ids, labels and custom field names it read when it was built |
| PersonalBoard.TrelloPersonalBoard.Backlog | jotfiles/trello_m/__init__.py:168-170 | the backlog list's id, or KeyError when the board has no "[Backlog] On Hold" list |
| PersonalBoard.TrelloPersonalBoard.LabelNamed | jotfiles/trello_m/__init__.py:176-177 | the first cached label with that name (no earlier label has it); StopIteration exactly when no label has that name |
| PersonalBoard.Template | jotfiles/trello_m/__init__.py:172-174 | the first open card answering `list:Templates <name>`; IndexError exactly when none answers |
| PersonalBoard.TrelloPersonalBoard.TemplateCard | jotfiles/trello_m/__init__.py:172-174 | the first card of the board that answers the template query (no earlier card answers); IndexError exactly when none answers |
| PersonalBoard.TrelloPersonalBoard.UpsertTaskCard | jotfiles/trello_m/__init__.py:98-120 | the outcome and the new board are those of `UpsertTask`, including the board left by each exception |
| PersonalBoard.TrelloPersonalBoard.SyncTaskCards | jotfiles/trello_m/__init__.py:118-120 | syncing the matched cards in turn gives `SyncHits`: every match synced, or KeyError from the first before anything changes |
| PersonalBoard.TrelloPersonalBoard.UpdateTaskCard | jotfiles/trello_m/__init__.py:122-129 | with "Time (h)" defined, only that card changes, and it becomes `SyncTask` of the card; otherwise KeyError and no change |
| PersonalBoard.TrelloPersonalBoard.RemoveUrl | jotfiles/trello_m/__init__.py:124-128 | removing the task URL's attachments one by one leaves that card with exactly `WithoutUrl` of its attachments, in order, and no other card changes |
| PersonalBoard.TrelloPersonalBoard.UpdateRemaining | jotfiles/trello_m/__init__.py:154-157 | "Time (h)" gets the remaining time, or KeyError when the field is not defined, with no change |
| PersonalBoard.TrelloPersonalBoard.UpsertCalendarCard | jotfiles/trello_m/__init__.py:131-146 | the outcome and the new board are those of `UpsertCalendar` |
| PersonalBoard.TrelloPersonalBoard.UpdateCalendarCard | jotfiles/trello_m/__init__.py:148-152 | the due date is set first; then "CalendarId" is set, or KeyError is raised with the due date already set |
| PersonalBoard.TrelloPersonalBoard.UpdateDone | jotfiles/trello_m/__init__.py:159-166 | the loop over the "Done" cards gives `MarkDone` |
| PersonalBoard.BotComment | jotfiles/trello_m/__init__.py:73-74 | the bot's text is "BOT " followed by the message |
| PersonalBoard.CollectedOneEach | jotfiles/trello_m/__init__.py:64-70 | collecting succeeds exactly when every card found has one comment, and then lists those comments in order; otherwise TypeError |
| PersonalBoard.ListMessages | jotfiles/trello_m/__init__.py:64-70 | `list_messages` as written: each found card's only comment in order; TypeError exactly when some card has no comment or several |
| PersonalBoard.ListAllMessages | jotfiles/trello_m/__init__.py:64-70 | `list_messages` with `extend`: every comment of every found card, in order; it never raises |
| PersonalBoardProps.SyncTaskEffect | jotfiles/trello_m/__init__.py:122-129 | a synced card has "Time (h)" set to the remaining time and exactly one attachment to the task URL, the last one, named "Task URL"; its other fields and attachments are kept and nothing else changes |
| PersonalBoardProps.SyncTaskIdempotent | jotfiles/trello_m/__init__.py:122-129 | syncing a card twice with a task is the same as syncing it once |
| PersonalBoardProps.SyncAtKeepsHits | jotfiles/trello_m/__init__.py:118-120 | syncing never changes what any search returns |
| PersonalBoardProps.UpsertTaskCreates | jotfiles/trello_m/__init__.py:108-120 | with no marked card, exactly one card is created, on top, with the label, due date, "Task" field, marker, remaining time and one "Task URL" attachment; afterwards only it carries the marker |
| PersonalBoardProps.UpsertTaskSyncsMatches | jotfiles/trello_m/__init__.py:101-107 | with marked cards, no card is created and exactly the marked cards are synced; without "Time (h)" it raises KeyError and nothing changes |
| PersonalBoardProps.UpsertTaskFailures | jotfiles/trello_m/__init__.py:108-117 | no backlog list gives KeyError and no change; no sprint label gives StopIteration and no change; no "Task" field gives KeyError after the card was added, leaving that card without a marker; with "Task" but no "Time (h)" it raises KeyError after the card was added and marked, leaving it on top with its marker but no time and no "Task URL" attachment, the only card carrying the marker |
| PersonalBoardProps.MarkedNoTime | jotfiles/trello_m/__init__.py:108-120 | with "Task" but no "Time (h)" field, the marked card is added on top and the sync raises KeyError, so the card keeps its marker but has no time and no "Task URL" attachment |
| PersonalBoardProps.UpsertTaskIdempotent | jotfiles/trello_m/__init__.py:98-120 | after an upsert that passed, the same upsert passes again and leaves the board exactly as it was |
| PersonalBoardProps.UpsertTaskKeepsMarked | jotfiles/trello_m/__init__.py:98-120 | an upsert removes no card and takes no marker away |
| PersonalBoardProps.UpsertTaskMarks | jotfiles/trello_m/__init__.py:98-120 | an upsert that passes leaves a card carrying the task's marker |
| PersonalBoardProps.UpsertCalendarConflict | jotfiles/trello_m/__init__.py:134-139 | more than one card for the event raises ValueError and changes nothing |
| PersonalBoardProps.UpsertCalendarUpdates | jotfiles/trello_m/__init__.py:145-152 | with exactly one card for the event and "CalendarId" defined, that card alone gets the start as its due date and the id in "CalendarId", and all else stays; without "CalendarId" it raises KeyError after the due date was set, so that card keeps the new due date and no other change is made |
| PersonalBoardProps.UpsertCalendarCreates | jotfiles/trello_m/__init__.py:140-146 | with no card for the event, a copy of the first template is added at the bottom, in the backlog, renamed, dated and, when "CalendarId" is defined, with the event id there; without "CalendarId" it raises KeyError with the dated copy left on the board and the next id used; no backlog list gives KeyError and no template gives IndexError, with no change |
| PersonalBoardProps.CalendarCopied | jotfiles/trello_m/__init__.py:140-146 | with no card for the event, the upsert is the update of a template copy added at the bottom with the next id |
| PersonalBoardProps.ListMessagesRejectsTwoComments | jotfiles/trello_m/__init__.py:69 | a card with two comments makes the as-written collection raise TypeError, where `extend` would give both comments |
| PersonalBoardProps.AllCommentsExtendsCollected | jotfiles/trello_m/__init__.py:64-70 | wherever the as-written collection succeeds, the corrected one gives the same list |
| Proxy.TrelloProxy.constructor | jotfiles/trello/trello_hooks.py:54-66 | the proxy keeps the list ids, labels and custom field names it read when it was built |
| Proxy.TrelloProxy.LabelNamed | jotfiles/trello/trello_hooks.py:131-132 | the first cached label with that name (no earlier label has it); StopIteration exactly when none has it |
| Proxy.TrelloProxy.UpsertTaskCard | jotfiles/trello/trello_hooks.py:77-98 | the outcome and the new board are those of `Proxy.UpsertTask`, including the board left by each exception |
| Proxy.TrelloProxy.UpdateCards | jotfiles/trello/trello_hooks.py:96-98 | every matched card gets one more "Task URL" attachment, and no other card changes |
| Proxy.TrelloProxy.UpdateCard | jotfiles/trello/trello_hooks.py:110-112 | that card alone gets one more "Task URL" attachment |
| Proxy.TrelloProxy.UpsertCalendarCard | jotfiles/trello/trello_hooks.py:100-108 | the outcome is that of `Proxy.UpsertCalendar`, and the method changes nothing |
| Proxy.TrelloProxy.Validate | jotfiles/trello/trello_hooks.py:119-120 | validation is the done pass `MarkDone` |
| Proxy.TrelloProxy.ValidateDone | jotfiles/trello/trello_hooks.py:122-129 | the loop over the "Done" cards gives `MarkDone` |
| Proxy.UpsertTaskCreates | jotfiles/trello/trello_hooks.py:86-98 | with no card answering the task id, one card is created on top with the label, due date, "Task" field and one "Task URL" attachment, but no marker and no "Time (h)" |
| Proxy.UpsertTaskAppends | jotfiles/trello/trello_hooks.py:79-85 | with cards answering the task id, each one gets exactly one more attachment to the task URL at the end, and nothing else changes |
| Proxy.UpsertTaskAccumulates | jotfiles/trello/trello_hooks.py:96-98 | the upsert is not idempotent: a second call adds a second attachment to the task URL on every matched card |
| Proxy.UpsertTaskMayDuplicate | jotfiles/trello/trello_hooks.py:79-95 | when the search does not return the new card under the task id, a second upsert creates a second card |
| Proxy.UpsertCalendarOnlyChecks | jotfiles/trello/trello_hooks.py:100-108 | the calendar upsert never changes the board, and raises ValueError exactly when several cards match |
| Workflow.LocalWorkflow.constructor | jotfiles/workflow_hooks.py:33-35 | the workflow keeps the personal board it was given |
| Workflow.LocalWorkflow.UpdateSprintIssues | jotfiles/workflow_hooks.py:37-40 | the loop gives `UpsertAll`: each task is upserted in order, and the first exception ends the run |
| Workflow.UpsertTaskNeedsTime | jotfiles/trello_m/__init__.py:118-120 | an upsert that passes has found the "Time (h)" field |
| Workflow.UpsertAllKeepsMarked | jotfiles/workflow_hooks.py:37-40 | a marker on the board stays through the whole sync, whatever it raises |
| Workflow.UpsertAllMarksEvery | jotfiles/workflow_hooks.py:37-40 | a sync that passes leaves a marked card for every task of the sprint |
| Workflow.UpsertAllSyncsOnly | jotfiles/workflow_hooks.py:37-40 | when every task already has its card and "Time (h)" exists, the sync passes and creates no card |
| Workflow.UpsertAllRerunCreatesNothing | jotfiles/workflow_hooks.py:37-40 | running the sync again after one that passed also passes, and creates no card |
| Workflow.UpsertAllStopsAtFirstRaise | jotfiles/workflow_hooks.py:37-40 | a sync that raises ran every earlier task to completion and ends with the failing upsert's outcome and board |
| Maven.SplitJoin | jotfiles/maven/__init__.py:154-157 | splitting a space-joined line on single spaces gives back the words of its parts |
| Maven.SplitJoinWords | jotfiles/maven/__init__.py:154-157 | parts without spaces come back unchanged, empty ones included |
| Maven.MvnCmdWords | jotfiles/maven/__init__.py:154-157 | when HOME and every argument contain no space, the `mvn` command splits back into "mvn", each argument, the words of the base options and the local repository |
| Maven.DebugReadBack | jotfiles/maven/__init__.py:55-68 | the debug argument reads back as "suspend=y" exactly when suspending, with the override port or else the default one |
| Maven.CompileArgs | jotfiles/maven/__init__.py:73-76 | the arguments are "install", "-DskipTests" and the extras, with "clean" first exactly when asked |
| Maven.ProfileFlags | jotfiles/maven/__init__.py:135 | there is at most one flag per profile, and each flag is "-P" followed by a non-empty name |
| Maven.ProfileFlagsReadBack | jotfiles/maven/__init__.py:135 | the profile flags read back as exactly the non-empty profiles, in order |
| Maven.LeadingArgsReadBack | jotfiles/maven/__init__.py:136-138 | the phase is "test" exactly when compiling; "-pl :" appears exactly for a module, giving it back; the test selection gives the reference back |
| Maven.DebugArgReadBack | jotfiles/maven/__init__.py:139-140 | a debug argument is present exactly when suspending, and it gives back the port |
| Maven.TestArgsReadBack | jotfiles/maven/__init__.py:133-143 | the arguments `_test` assembles read back as the request: phase, module, test, the non-empty profiles, the fixed offline flag "-o", the debug address only when suspending, and the extras last |
| Maven.TestCommand | jotfiles/maven/__init__.py:143-146 | a command is returned exactly when `cmd` is set, and it is an `mvn` command whose first argument is the phase |
| Maven.FirstTwoWords | jotfiles/maven/__init__.py:154-157 | a command line starts with "mvn " and with its first argument as the second word |
| Maven.DecimalValue | jotfiles/maven/__init__.py:92-93 | `int` of the decimal digits of a number gives the number back |
| Maven.LastSomeIsLast | jotfiles/maven/__init__.py:46 | the last present entry is found, and there is none exactly when no entry is present |
| Maven.MatchIsLast | jotfiles/maven/__init__.py:46 | `progress_re.match` finds the last "[d/d]" that starts on the first line, and finds nothing exactly when none starts there |
| Maven.CounterAt | jotfiles/maven/__init__.py:46 | a written "[current/total]" counter reads back as those numbers |
| Maven.MatchCounter | jotfiles/maven/__init__.py:82 | a line whose last bracket is Maven's counter yields that counter |
| Maven.TicksBounds | jotfiles/maven/__init__.py:95-96 | the tick count is the number of whole hundredths of the total, and at least one |
| Maven.BarTicks | jotfiles/maven/__init__.py:94-99 | within the count, each side of the bar has at least one tick and the bar is 99 to 101 ticks wide |
| Maven.BarShape | jotfiles/maven/__init__.py:97-102 | the bar is "[", then the '#' ticks, then the blank ticks, then "] current/total " |
| Maven.CompileMvn | jotfiles/maven/__init__.py:71-108 | the command is `mvn_cmd` of the compile arguments, and what is printed is `Printed` of Maven's output lines |
| Maven.FollowAppend | jotfiles/maven/__init__.py:80-105 | the loop over two runs of lines is the loop over the first, then over the second unless the first raised |
| Maven.SummarySticks | jotfiles/maven/__init__.py:83-90 | once the summary begins, every later line is echoed and no bar is drawn |
| Maven.SummaryEchoesRest | jotfiles/maven/__init__.py:83-90 | a summary line and every line after it are echoed, after whatever came before |
| Maven.BlankCoversBars | jotfiles/maven/__init__.py:103-108 | the final blank is as wide as the widest bar drawn, so it covers every bar and is no wider |
| Maven.ErrorLineEchoed | jotfiles/maven/__init__.py:88-90 | an "[ERROR]" line is echoed as it is and never drawn as a bar |
| Maven.ZeroTotalRaises | jotfiles/maven/__init__.py:93-95 | a counter with total 0, on a line that is neither summary nor error, raises ZeroDivisionError and ends the loop |
| PersonalBoard.UpsertTask | jotfiles/trello_m/__init__.py:98-120 | `upsert_task_card` on a board snapshot: sync the marked cards, or create the marked card on top and sync it, with each exception and the board it leaves; its properties are the `PersonalBoardProps.UpsertTask*` lemmas |
| PersonalBoard.SyncHits | jotfiles/trello_m/__init__.py:118-120 | the sync loop on a snapshot: every listed card synced, or KeyError from the first before any change; proved by `SyncTaskCards` and used by the upsert lemmas |
| PersonalBoard.SyncTask | jotfiles/trello_m/__init__.py:122-129 | `_update_task_card` on one card; its effect is stated by `PersonalBoardProps.SyncTaskEffect` and `SyncTaskIdempotent` |
| PersonalBoard.UpdateCalendarAt | jotfiles/trello_m/__init__.py:148-152 | `_update_calendar_card` on a snapshot: due date, then "CalendarId" or KeyError with the due date kept |
| PersonalBoard.UpsertCalendar | jotfiles/trello_m/__init__.py:131-146 | `upsert_calendar_card` on a snapshot; its cases are `PersonalBoardProps.UpsertCalendarConflict`, `UpsertCalendarUpdates` and `UpsertCalendarCreates` |
| PersonalBoard.Collected | jotfiles/trello_m/__init__.py:64-70 | what `list_messages` as written collects; characterised by `CollectedOneEach` |
| Proxy.AttachTask | jotfiles/trello/trello_hooks.py:110-112 | `_update_card` on one card: one more "Task URL" attachment |
| Proxy.UpsertTask | jotfiles/trello/trello_hooks.py:77-98 | `TrelloProxy.upsert_task_card` on a snapshot; its cases are the `Proxy.UpsertTask*` lemmas |
| Proxy.UpsertCalendar | jotfiles/trello/trello_hooks.py:100-108 | `TrelloProxy.upsert_calendar_card` on a snapshot; characterised by `Proxy.UpsertCalendarOnlyChecks` |
| Trello.MarkDone | jotfiles/trello_m/__init__.py:159-166 | the done pass on a snapshot; its effect is `Trello.MarkDoneExact` |
| Workflow.UpsertAll | jotfiles/workflow_hooks.py:37-40 | the sprint loop on a snapshot, stopping at the first raise; characterised by the `Workflow.UpsertAll*` lemmas |
| Maven.LocalRepo | jotfiles/maven/__init__.py:49-52 | `_local_repo` with the default repository under `$HOME/.m2` |
| Maven.LocalRepoReadBack | jotfiles/maven/__init__.py:44-52 | the argument is "-Dmaven.repo.local=" followed by the home directory and "/.m2/repository", and the home directory reads back out of it |
| Maven.Port | jotfiles/maven/__init__.py:55-58 | `_port`: "address=" and the override, else the default port |
| Maven.Debug | jotfiles/maven/__init__.py:61-68 | `_debug`; its meaning is `Maven.DebugReadBack` |
| Maven.MvnCmd | jotfiles/maven/__init__.py:154-157 | `mvn_cmd`; its meaning is `Maven.MvnCmdWords` |
| Maven.TestArgs | jotfiles/maven/__init__.py:133-143 | the arguments `_test` passes to `mvn_cmd`; their meaning is `Maven.TestArgsReadBack` |
| Maven.Test | jotfiles/maven/__init__.py:123-146 | `_test`'s result; characterised by `Maven.TestCommand` |
| Maven.Match | jotfiles/maven/__init__.py:82 | `progress_re.match(line)`; characterised by `Maven.MatchIsLast` and `MatchCounter` |
| Maven.Ticks | jotfiles/maven/__init__.py:95-96 | `max(int(x * 100 / total), 1)`; characterised by `Maven.TicksBounds` |
| Maven.Bar | jotfiles/maven/__init__.py:97-102 | the progress text; its shape is `Maven.BarShape` and `BarTicks` |
| Maven.ReadLine | jotfiles/maven/__init__.py:81-104 | one pass of the loop body: echo, bar or ZeroDivisionError |
| Maven.Follow | jotfiles/maven/__init__.py:80-105 | the loop over the output lines; characterised by `FollowAppend`, `SummarySticks` and `FollowKeepsWidest` |
| Maven.Printed | jotfiles/maven/__init__.py:80-108 | everything `compile_mvn` prints, ending with the clearing blank; characterised by `Maven.BlankCoversBars` |

## Left out

- Credentials, configuration loading, the Flask endpoints, the poller, the Jira and Google clients: these are outside the reconcilers.
- The Trello REST client: its card operations are the methods of `Trello.Board`, acting on an in-memory board.
- Trello.Hits: search results are taken in board order. Trello's search ranks its results in its own order, so "the first template" of `_template`'s `[0]` (jotfiles/trello_m/__init__.py:174) is the first in board order here, which the source does not promise.
- The raw-query search relation takes the card id and the query text only. Editing a card's fields, comments, attachments or due date therefore never changes what a raw search returns; `Proxy.UpsertTaskAccumulates` and `PersonalBoardProps.SyncAtKeepsHits` rely on this.
- The search query language: a `comment:<text>` query is "some comment equals text". Any other query is an unspecified relation between card ids and query text.
- The float text of "Time (h)" (`str(seconds / 3600)`): the field holds the number of seconds it is computed from.
- `strftime` of due dates: dates are strings already in ISO 8601 form.
- Logging, and the warning logged when several cards match a task.
- `TrelloProxy._update_remaining`: its only call is commented out (jotfiles/trello/trello_hooks.py:111).
- The scrum board's `current_sprint_tasks()`: the tasks are the argument of `UpdateSprintIssues`.
- Maven.CompileMvn: spawning the process, UTF-8 decoding, printing with carriage returns, and `ps.wait()` are not modelled. Maven's output lines are the input, and what is printed is a list of `Shown` items.
- Maven.Test: with `cmd` unset, the command is run and its output printed; that run is not modelled, and the result is just `None`.
- The `test()` wrapper (jotfiles/maven/__init__.py:112-120) only forwards its arguments to `_test`.
- The `HOME` environment variable is a parameter of the Maven members.
- The shell's reading of the quotes inside the debug argument is not modelled. `Split` is Python's `str.split(" ")`.
- Maven.Ticks: the true quotient is taken and then truncated toward zero. Float rounding of `current * 100 / total` is not modelled.
- Maven.Match: only the ASCII digits '0'-'9' count as `\d`.
- Maven.SuspendOf: reads the flag at a fixed position of the debug argument, rather than parsing JVM options in general.

## Findings

| source | as written | input that shows it | evidently intended | confidence | as-written member | corrected member |
|---|---|---|---|---|---|---|
| jotfiles/trello_m/__init__.py:69 | `messages.append(*card.comments)` passes every comment of a card as a separate argument to `append`, which takes exactly one, so a card with no comment or with several raises TypeError | one found card whose comments are "lunch at 12" and "standup moved" | `messages.extend(card.comments)`, collecting every comment of every card | not executed | PersonalBoardProps.ListMessagesRejectsTwoComments | PersonalBoard.ListAllMessages |
