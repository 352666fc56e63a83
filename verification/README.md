# Omnia: a verified model of the daemon and its client

Omnia is a daemon that watches a server (SSH logins, metrics, GPU, alerts) and a terminal client that
follows it over a local socket. This project models the state machines of that pair in Dafny and proves
what they keep over every run: every interleaving of the protocol's steps, every way to cut a stream into
chunks, a crash at every point of the log readers. Code that updates fields is modelled by classes whose
methods are proved against functions of the old state; the theorems are about those functions and about
step machines built from them.

`dafny verify dfyconfig.toml` checks the whole project.

## How the files fit together

| file | part of the system |
|---|---|
| `Protocol.dfy` | the socket protocol and its client as one state machine over two FIFO channels for each connection |
| `Requests.dfy` | where every request id is, futures completed once, replies matched to their requests |
| `LoadSequence.dfy`, `ProtocolSteps.dfy` | the load of the client request by request; restarts of the daemon, the ends of a connection, the history query |
| `LoginFeed.dfy`, `LoginHistory.dfy`, `LoadRace.dfy` | the client's login list against the daemon's table |
| `Backend.dfy` | the client's and the server's objects, method by method against the steps |
| `LastUsed.dfy`, `BannedIps.dfy` | what the client shows of keys and of banned addresses |
| `ShownLogins.dfy` | from a message of sshd to the line that the client shows of it |
| `Lines.dfy`, `AuthLogTail.dfy`, `AuthLogPolls.dfy`, `AuthLogRuns.dfy` | the reader of auth.log, with rotations and crashes at every point |
| `JournaldIngest.dfy`, `JournaldResume.dfy` | the reader of the journal, with failures at every point, and where it starts |
| `Regex.dfy`, `Words.dfy`, `SshdMessages.dfy`, `SshdRoundTrip.dfy`, `SshdSound.dfy` | the six sshd patterns, run by a backtracking matcher; the parser of messages undoes printing, and recognizes nothing else |
| `Calendar.dfy`, `SyslogLines.dfy`, `SyslogShape.dfy` | syslog lines, exactly which are taken apart, and the inference of the missing year |
| `Database.dfy`, `Alerts.dfy`, `AlertRuns.dfy`, `Retention.dfy` | the log tables, the alert rules, and both over whole runs |
| `AlertRules.dfy` | the alert rules in terms of rows, and the alerts for the messages that sshd prints |
| `JsonScanner.dfy`, `JsonPrefix.dfy` | the JSON scanner, and how it sees a longer and a shorter text |
| `JsonGrammar.dfy`, `JsonComplete.dfy`, `JsonSound.dfy` | the grammar of RFC 8259 with layout; the scanner reads every text of it, and nothing else |
| `JsonText.dfy` | `json.dumps`, whose texts are texts of the grammar |
| `GpuStream.dfy`, `GpuChunks.dfy`, `JsonStream.dfy` | the streaming reader on top of it |
| `KeyFingerprint.dfy` | `authorized_keys` and the cache that follows its modification time |
| `TopProcesses.dfy`, `MetricsFlush.dfy` | the process table and the metrics buffer |

A step machine is a function `Next` on states; `After` folds it over any sequence of steps. In `Protocol` a
step that is not enabled does nothing, so a theorem about `After(steps)` for all `steps` is a theorem about
every run. Code between two `await`s is one step. Each channel is kept as the sequence of everything ever
written with a read position, so that "the daemon wrote this on that connection" is a fact of the state.
The model allows more than the code in three places, so its theorems hold of the code too: a broadcast can be
interrupted between any two clients, a handler can fail on any request but `subscribe`, and the client's wait
can be given up at any time.

## Where the code does not keep a promise

These are proved, each with the exact condition or a concrete run.

* **A pushed login can be lost.** The read loop completes the future of the history request and goes on
  with buffered lines before the waiting task wakes up. Pushes it reads in that window go into the old
  list, which the reply then replaces. `LoadRace.RowIsLost` is such a run.
* **A login whose alert check raises is never pushed**: the exception leaves before the broadcast is scheduled
  (`LoadRace.UnscheduledRowIsMissing`). `LoginHistory.MissingExactly` and `LoginHistory.NothingMissingIff` say
  for all runs, tables of any size and all rows which are missing for one reason or the other;
  `LoginHistory.ListIsNewest` says exactly when the list is the newest 500 rows, and
  `LoginHistory.NewestUnlessRaced` that only 500 later pushes hide a loss.
* **A partial line is read twice.** The auth.log reader keeps an incomplete line in its buffer but not in its
  saved offset. `AuthLogTail.ReadExact` gives the exact condition, `AuthLogRuns.PartialLineTwice` the run, for any
  line and part: the saved offset comes to stand behind the end of the file, and the next poll takes it for
  truncated.
* **A rotation between `stat` and `open` reads the new file from the old offset**, and then again from its start
  (`AuthLogRuns.RotatedDuringPoll`). `AuthLogTail.ReadExact` gives the exact condition: behind offset 0 the lines are
  wrong at once; at offset 0 they are right, but a renamed file's are taken again (`AuthLogTail.TakenAgain`), while
  a truncation does no harm.
* **A new file with the inode of the old one that is already longer skips its front**: a truncation that has grown
  over, or an inode used again (`AuthLogRuns.RegrownFileSkips`; exactly when, in `AuthLogTail.StatExact`).
* **A crash while lines are being handed on loses the rest of them**, as the offset behind them is already saved;
  nothing else loses a line that was taken (`AuthLogRuns.CrashLosesLine`, `AuthLogTail.EveryLineHanded`).
* **A crash inside the very first poll replays the whole file**, which that poll was to skip
  (`AuthLogPolls.TornFirstPoll`).
* **A crash inside a rotation skips text**, because inode and offset are saved by two writes
  (`AuthLogRuns.TornRotationSkips`; `AuthLogTail.TornStart` says where reading then starts).
* **`failed_other` starts the brute-force check but is not counted** (`Retention.OtherFailureIsNotCounted`,
  `Retention.UncountedFailuresRaiseNothing`).
* **A restart of the daemon drops what it had not yet pushed**: no later connection is pushed it
  (`ProtocolSteps.RestartForgets`).
* **The 29 February of last year raises** in the year inference: `replace(year=...)` or the constructor meets a
  date that does not exist (`SyslogLines.LeapDayRaises`).
* **A key without a comment never shows a last use**: the daemon calls it `unlabeled-...`, the client
  `chave-...` (`KeyFingerprint.LabelsAgreeIffCommented`, `KeyFingerprint.UncommentedKeyLooksUnused`).
* **A modification time that is used twice leaves the key cache stale** (`KeyFingerprint.ReusedTimeIsStale`);
  `KeyFingerprint.ReuseExact` says exactly which runs stay clear of it.
* **A bare number in the GPU stream can depend on the chunks** (`JsonStream.BareNumbersDependOnChunks`); objects
  never do. `GpuChunks.ChunksExact`: a text decodes alike however it is cut if and only if no number that is met
  outside an object or string has a proper prefix that is itself a number.
* **Before the first journald cursor is stored nothing bounds the loss**: a start without a cursor begins at the
  end of the journal, so the bound of `JournaldIngest.AtMostOnce` starts at the first stored cursor; what that start
  skips it skips for good (`JournaldResume.HistoryIsSkipped`).

## Model

| member | source | states |
|---|---|---|
| Requests.IdsAreConserved | tui/omnia_tui/backend.py:188-207 | in every run the ids issued are exactly those pending, those a reply removed and those a disconnect cleared, each in one place; without a connection none is pending |
| Requests.ConnectStartsEmpty | tui/omnia_tui/backend.py:147-170 | on a new connection nothing is pending but its own first request |
| Requests.CompletedOnce | tui/omnia_tui/backend.py:190-214 | an outcome that a future once has, reply, timeout or loss, is its outcome at every later point of the run |
| Requests.ReplyAnswersItsRequest | daemon/src/omnia_daemon/socket_server.py:95-129 | a future's reply is what the daemon wrote, on the connection the request was sent on, when it took that very request, and fits its command |
| Requests.RepliesInOrder | daemon/src/omnia_daemon/socket_server.py:99-126 | replies on one connection come in the order of its requests, with strictly increasing ids |
| Requests.AlwaysWired | tui/omnia_tui/backend.py:159-214 | the invariant behind both: channels, futures and pending ids agree after any steps |
| LoadSequence.LoadedInSequence | tui/omnia_tui/backend.py:147-235 | in every run a loaded client has had all seven requests of the load, each with its own command and in order, answered without an error on the present connection, and one that waits for a request of the load has had all earlier ones answered so |
| LoadSequence.FailureEnds | tui/omnia_tui/backend.py:147-214 | a request of the load that is refused, timed out or lost, at whatever stage, ends the connection |
| LoadSequence.SuccessGoesOn | tui/omnia_tui/backend.py:216-235 | a reply that is no error is followed by the next request, sent with a new id and pending, and after the last the client is loaded |
| ProtocolSteps.RestartForgets | daemon/src/omnia_daemon/scheduler.py:78-85 | after a restart of the daemon no row logged before it is pushed to a later connection, in any run |
| ProtocolSteps.GiveUpEnds | tui/omnia_tui/backend.py:171-199 | a connection that ends leaves nothing pending, and no pending future waiting |
| ProtocolSteps.AskSends | tui/omnia_tui/backend.py:201-209 | a request from another task goes out on the present connection with an id of its own, at any time |
| ProtocolSteps.FrontIsRecent | daemon/src/omnia_daemon/db.py:124-127 | the history query may answer with the front of any listing of the table that is newest first, ties in any order |
| LoginFeed.PushedToSubscribersOnly | daemon/src/omnia_daemon/socket_server.py:74-80 | in every run a push on a connection comes behind the reply to a `subscribe` on it |
| LoginFeed.AlwaysFeeds | daemon/src/omnia_daemon/socket_server.py:74-80 | in every run no row is pushed twice on a connection; on a served connection a row whose broadcast was never scheduled is never pushed, and every other row inserted after a history reply was built is pushed after it or still to come |
| LoginFeed.HistoryIsPushesOverReply | tui/omnia_tui/backend.py:308-316 | in every run the list is the pushes read since the reply was applied, newest first, before the rows of the reply, cut at 500 |
| LoginHistory.MissingExactly | tui/omnia_tui/backend.py:179-235 | once all is delivered, any row of the table, whatever its size, is missing if and only if its push was read between the reply and its application and the reply did not have it, or its broadcast was never scheduled after the reply was built, or it was too old for the reply, or 500 others are in front of it |
| LoginHistory.NothingMissingIff | tui/omnia_tui/backend.py:216-235 | no row of the table is missing if and only if the table had at most 500 rows when the reply was built, the reply had every row pushed in that window, no broadcast since was left unscheduled and no row has 500 others in front of it |
| LoginHistory.TwiceOnlyIfUnwritten | tui/omnia_tui/backend.py:308-316 | no row appears more than twice; twice only if the reply had it and its push was unwritten when the reply was built |
| LoginHistory.NewestMissing | tui/omnia_tui/backend.py:179-235 | with strictly increasing times and pushes in order, one of the newest 500 rows is missing if and only if its push was read in the window or its broadcast was never scheduled |
| LoginHistory.ListIsNewest | daemon/src/omnia_daemon/db.py:124-127 | then the list is exactly the newest 500 rows, newest first, if and only if that is so of none of them |
| LoginHistory.NewestUnlessRaced | tui/omnia_tui/backend.py:313-316 | with every broadcast since the reply scheduled, if and only if nothing was pushed in the window or at least 500 pushes were read since |
| LoginHistory.RecentIsNewest | daemon/src/omnia_daemon/db.py:124-127 | with strictly increasing times `ORDER BY ts DESC LIMIT` has one answer: the newest rows in descending order |
| LoadRace.RowIsLost | tui/omnia_tui/backend.py:179-222 | a run after which everything is delivered, the table has a row and the client shows none |
| LoadRace.UnscheduledRowIsMissing | daemon/src/omnia_daemon/scheduler.py:81-83 | a run with an empty window after which everything is delivered and the one row of the table, whose alert check raised, is not shown |
| Backend.OmniaBackend.SendRequest | tui/omnia_tui/backend.py:201-209 | the client's whole state after a request is sent is that of the protocol's step |
| Backend.OmniaBackend.ReceiveMessage | tui/omnia_tui/backend.py:179-193 | one round of the read loop is the protocol's step, and the keys stay up to date with the list |
| Backend.OmniaBackend.FailPendingRequests | tui/omnia_tui/backend.py:195-199 | exactly the pending futures that wait are failed, and nothing is pending |
| Backend.OmniaBackend.Teardown | tui/omnia_tui/backend.py:147-177 | the end of a connection is the protocol's step |
| Backend.OmniaBackend.ApplyNewLoginEvent | tui/omnia_tui/backend.py:313-316 | the shown list is the new login before the old list, cut at 500, and every key shows the first time of its label in it |
| Backend.OmniaBackend.ApplyLoginHistory | tui/omnia_tui/backend.py:308-311 | the list becomes the rows of the reply in their order, and the keys follow |
| Backend.OmniaBackend.ApplyKeys | tui/omnia_tui/backend.py:318-320 | the keys loaded are shown with their last use |
| Backend.OmniaBackend.KeysShowLastUse | tui/omnia_tui/backend.py:322-335 | while the list is newest first each key shows the greatest time of a kept successful login with its label, or none if there is none |
| Backend.OmniaServer.Broadcast | daemon/src/omnia_daemon/socket_server.py:74-80 | every connection that is served and subscribed has exactly the push at the end of what is written to it, and every other connection is as it was |
| Backend.OmniaServer.HandleOne | daemon/src/omnia_daemon/socket_server.py:95-129 | the next request is taken, its answer with a body its command allows, an error exactly if the handler raised, is written at the end, and the connection is subscribed from a `subscribe` on |
| Backend.BroadcastIsItsSteps | daemon/src/omnia_daemon/socket_server.py:74-80 | the visits of one broadcast, in whatever order, write exactly what `Broadcast` writes |
| ShownLogins.LoginIsShown | tui/omnia_tui/backend.py:40-65 | every message of sshd is shown with its user, address, text and label, as a success, a failure, an unknown user or a disconnect according to its form |
| LastUsed.ShownFields | tui/omnia_tui/backend.py:51-65 | a missing or empty user or address is shown as a question mark, and everything else as it is |
| LastUsed.Rebuild | tui/omnia_tui/backend.py:322-335 | the `setdefault` loop gives each key the first time of its display label in the list |
| LastUsed.FirstTimeIsGreatest | tui/omnia_tui/backend.py:322-335 | in a list that is newest first that is the greatest time of a use, and none exactly if there is no use |
| LastUsed.FirstTimeCons | tui/omnia_tui/backend.py:313-326 | whatever the order of times, the use pushed last decides |
| LastUsed.PushKeepsNewestFirst | tui/omnia_tui/backend.py:313-315 | a push no older than the head keeps the list newest first |
| BannedIps.NoteJail | tui/omnia_tui/backend.py:395-399 | one jail: known addresses keep their time, new ones get now, rows carry the time of their address |
| BannedIps.BanList.Apply | tui/omnia_tui/backend.py:371-403 | a status makes the table the addresses it bans, old times kept, and the rows those addresses jail by jail in order, each with its jail and its time; an empty status changes nothing |
| BannedIps.SinceIsStartOfRun | tui/omnia_tui/backend.py:389-403 | after any reports the addresses are those of the last one and each time is that of the first report of its unbroken run, whatever the jails |
| BannedIps.RunIsUnbroken | tui/omnia_tui/backend.py:400-402 | that run contains the address in every report, and the report before it does not |
| AuthLogTail.Tail.Locate | daemon/src/omnia_daemon/ssh_ingest.py:97-117 | what is saved and where reading starts, for a first run, a rotation, a truncation and growth |
| AuthLogTail.Tail.Poll | daemon/src/omnia_daemon/ssh_ingest.py:88-140 | one poll takes the lines, saves the offset and keeps the rest that the poll function says |
| AuthLogTail.PollIsItsSteps | daemon/src/omnia_daemon/ssh_ingest.py:88-142 | an uninterrupted poll of the step machine saves, keeps and takes what the method does |
| AuthLogPolls.FirstPoll | daemon/src/omnia_daemon/ssh_ingest.py:102-106 | the first poll takes nothing and saves the end of the file |
| AuthLogPolls.NewFilePoll | daemon/src/omnia_daemon/ssh_ingest.py:107-127 | a file with another inode, or shorter than the saved offset, is read whole, with nothing of the old one before it |
| AuthLogPolls.GrownFilePoll | daemon/src/omnia_daemon/ssh_ingest.py:119-127 | a file that has grown is read from the saved offset on, behind the leftover of the poll before |
| AuthLogPolls.TornFirstPoll | daemon/src/omnia_daemon/ssh_ingest.py:99-106 | a run from the first start in which a crash between the two writes of the first poll makes the next daemon take the whole file |
| AuthLogTail.EveryRun | daemon/src/omnia_daemon/ssh_ingest.py:88-142 | with the buffer emptied at each poll the invariant holds after any growth, rotation, truncation, poll and crash at any point, as long as each new file is seen to be new: no `stat` takes one with the saved inode for the old file, and no read takes lines of another file than `stat` saw, unless at offset 0 with the saved inode |
| AuthLogTail.TailingIsFaithful | daemon/src/omnia_daemon/ssh_ingest.py:88-142 | in those runs the lines taken of each file generation are its lines from the start offset in order, the saved offset stands behind a newline or at the start, and each line taken is handed on once and in order, lost by a crash while its batch was handed on, or in flight |
| AuthLogTail.TailingAsWritten | daemon/src/omnia_daemon/ssh_ingest.py:119-127 | the same for the code as written, for every such run in which what a read returns is nothing or ends at a newline |
| AuthLogTail.EveryCleanRun | daemon/src/omnia_daemon/ssh_ingest.py:119-127 | and for every such run in which no read meets both its own leftover and a newline |
| AuthLogTail.ReadExact | daemon/src/omnia_daemon/ssh_ingest.py:119-127 | the lines taken stay right after a read if and only if the buffer is empty or the chunk has no newline, and the file is the one that `stat` saw, or is read from offset 0, or the chunk has no newline; and the invariant holds if and only if moreover a file read from offset 0 has the saved inode |
| AuthLogTail.TakenAgain | daemon/src/omnia_daemon/ssh_ingest.py:92-127 | after a read of a renamed file from offset 0 the next poll takes its lines again, whatever it has grown by |
| AuthLogTail.StatExact | daemon/src/omnia_daemon/ssh_ingest.py:92-117 | `stat` keeps the invariant if and only if a new file with the saved inode is shorter than the saved offset or that offset is 0; if not, the poll after any growth takes lines from behind the front |
| AuthLogTail.EveryLineHanded | daemon/src/omnia_daemon/ssh_ingest.py:127-140 | in every run at all, of the code as written too, each line taken is handed on once and in order, or was lost by a crash while its batch was being handed on, or is in flight; without a crash none is lost |
| AuthLogTail.LinesExact | daemon/src/omnia_daemon/ssh_ingest.py:121-127 | for the file that `stat` saw: the lines taken are those of the file if and only if the buffer is empty or the chunk has no newline |
| AuthLogTail.TornStart | daemon/src/omnia_daemon/ssh_ingest.py:92-117 | after a crash between the writes of inode and offset the new file is read from the old offset, or from its start if it is shorter |
| AuthLogRuns.PartialLineTwice | daemon/src/omnia_daemon/ssh_ingest.py:88-127 | a run from the first start, for any line and part of a line: the part comes out twice in one line, the saved offset is behind the end of the file, and the next poll takes the file for truncated |
| AuthLogRuns.TornRotationSkips | daemon/src/omnia_daemon/ssh_ingest.py:107-112 | a run from the first start in which a crash between the writes of inode and offset makes the next start skip the front of the new file |
| AuthLogRuns.CrashLosesLine | daemon/src/omnia_daemon/ssh_ingest.py:127-140 | a run from the first start in which a line is taken, its offset saved, and a crash keeps it from the consumer for good |
| AuthLogRuns.RegrownFileSkips | daemon/src/omnia_daemon/ssh_ingest.py:92-117 | a run from the first start in which a truncated file grows longer than it was before the next poll, whose front is then skipped |
| AuthLogRuns.RotatedDuringPoll | daemon/src/omnia_daemon/ssh_ingest.py:92-127 | a run from the first start in which a rotation between `stat` and `open` makes the lines of the new file behind the old offset come out, and then all its lines again |
| Lines.SplitLinesCorrect | daemon/src/omnia_daemon/ssh_ingest.py:124-126 | lines and rest make up the text again, and no line holds a newline |
| Lines.SplitUnique | daemon/src/omnia_daemon/ssh_ingest.py:124-125 | there is only one such cut |
| Lines.Consumed | daemon/src/omnia_daemon/ssh_ingest.py:126 | the sum is the length of the lines with their newlines |
| JournaldIngest.Ingest.Follow | daemon/src/omnia_daemon/ssh_ingest.py:159-207 | one source without a failure inserts and passes on exactly the parseable entries after the cursor, in order |
| JournaldIngest.FollowIsItsSteps | daemon/src/omnia_daemon/ssh_ingest.py:66-80 | read, insert and pass on for each entry in turn is a run of the step machine without a failure, and its state after it has the rows, events and cursor that `Follow` leaves |
| JournaldIngest.SourceIsItsSteps | daemon/src/omnia_daemon/ssh_ingest.py:54-85 | the same from the opening of a source to the end of the journal |
| JournaldIngest.RowsAreParsed | daemon/src/omnia_daemon/ssh_ingest.py:66-80 | in every run a row is for a line of the journal that `parse_sshd_message` recognizes, and holds its time and what the parser says |
| JournaldIngest.Ingest.Round | daemon/src/omnia_daemon/ssh_ingest.py:170-213 | one source and then the pause before the next: what `Follow` says, and the pause and its doubling up to the limit |
| JournaldIngest.Retry | daemon/src/omnia_daemon/ssh_ingest.py:208-213 | the pause doubles up to its limit |
| JournaldIngest.AtMostOnce | daemon/src/omnia_daemon/ssh_ingest.py:170-213 | over any failures the rows are parseable entries in order and none twice; each since the first cursor has its row, is in flight or was dropped, at most one for each failure |
| JournaldIngest.NoFailureNoLoss | daemon/src/omnia_daemon/ssh_ingest.py:54-85 | without a failure every parseable entry since the first cursor has its row or is the one in flight |
| JournaldResume.HistoryIsSkipped | daemon/src/omnia_daemon/ssh_ingest.py:55-60 | in every run of a first start no entry logged before it gets a row or is passed on |
| JournaldResume.ResumesBehindCursor | daemon/src/omnia_daemon/ssh_ingest.py:55-60 | every later source starts with the entry behind the saved cursor |
| JournaldResume.LossIsBounded | daemon/src/omnia_daemon/ssh_ingest.py:170-213 | a run loses no more logins than it has failures |
| JournaldResume.WaitOfStep | daemon/src/omnia_daemon/ssh_ingest.py:180-213 | each failure doubles the pause up to thirty seconds, and only a message sets it back to one |
| Regex.SearchExact | daemon/src/omnia_daemon/ssh_log_parser.py:73-124 | `search` finds something if and only if the pattern matches somewhere, and then it is the match at the first such place |
| SshdRoundTrip.ParsePrint | daemon/src/omnia_daemon/ssh_log_parser.py:69-136 | for all six forms with each of the three methods, all users without blanks, addresses, ports, keys and trailing words, parsing the printed message gives back its fields |
| SshdRoundTrip.EarlierPatternsFail | daemon/src/omnia_daemon/ssh_log_parser.py:15-39 | no pattern tried before the one of a form is found anywhere in a message of that form |
| SshdRoundTrip.OwnPatternFound | daemon/src/omnia_daemon/ssh_log_parser.py:15-39 | the pattern of the form is found, and captures exactly the printed fields |
| SshdSound.ParsedExactly | daemon/src/omnia_daemon/ssh_log_parser.py:13-136 | any message at all is recognized if and only if, without the blanks around it, it holds one of the six forms, and the event then says what the fields of such a form say |
| SshdSound.StripExact | daemon/src/omnia_daemon/ssh_log_parser.py:71 | `strip` takes away white space at both ends and nothing else |
| SshdSound.EventSound | daemon/src/omnia_daemon/ssh_log_parser.py:73-134 | for any message at all an event names a user without blanks and a nonempty address of address characters |
| SshdSound.UserRoundTrip | daemon/src/omnia_daemon/ssh_log_parser.py:17-39 | the user comes back if and only if it is a nonempty word without blanks |
| SyslogLines.BsdRoundTrip | daemon/src/omnia_daemon/ssh_log_parser.py:158-169 | a BSD line of any time in the last 364 days, but the 29 February of last year, parses to that time, process and message |
| SyslogLines.ParsePrintBsd | daemon/src/omnia_daemon/ssh_log_parser.py:41-45 | a printed line is split into its fields whatever host, process and message it names |
| SyslogShape.ParsePrintIso | daemon/src/omnia_daemon/ssh_log_parser.py:47-50 | a line with an RFC 3339 timestamp, with or without a fraction and with any zone, gives its process and its message, if the timestamp is accepted |
| SyslogShape.BsdShapeMatches | daemon/src/omnia_daemon/ssh_log_parser.py:42-45 | every line of the BSD form matches with its fields captured, however many blanks stand before the day |
| SyslogShape.LineSound | daemon/src/omnia_daemon/ssh_log_parser.py:149-169 | and whatever line is taken apart is of one of these two forms, with the process and the message that are returned |
| Calendar.SecondsCountTicks | daemon/src/omnia_daemon/ssh_log_parser.py:165-168 | the linear time counts the ticks of the calendar, over the ends of days, months, leap years and centuries |
| SyslogLines.InferExact | daemon/src/omnia_daemon/ssh_log_parser.py:163-168 | exactly which times come back from their date without the year |
| SyslogLines.InferredBounds | daemon/src/omnia_daemon/ssh_log_parser.py:165-168 | an accepted time is later than now minus 366 days and at most one day after now |
| SyslogLines.InferRecent | daemon/src/omnia_daemon/ssh_log_parser.py:165-168 | the last 364 days come back, but for one leap day |
| SyslogLines.LeapDayRaises | daemon/src/omnia_daemon/ssh_log_parser.py:165-168 | the 29 February of last year raises `ValueError` |
| SyslogLines.SshdWithAnyPid | daemon/src/omnia_daemon/ssh_log_parser.py:174-176 | with or without a process number exactly the program `sshd` is recognized |
| Database.Database.CountFailedLoginsSince | daemon/src/omnia_daemon/db.py:129-135 | the loop counts as the function of the table does, which `CountFailedIsNumber` says is the number of rows |
| Database.CountFailedIsNumber | daemon/src/omnia_daemon/db.py:129-135 | the count is the number of rows with this address, at this time or later, that are public-key failures or unknown users |
| Database.Database.CountAcceptedWithKeyBefore | daemon/src/omnia_daemon/db.py:145-156 | likewise for accepted logins with a key |
| Database.Database.LastAlertTs | daemon/src/omnia_daemon/db.py:218-222 | likewise for the last alert of a key |
| Database.Database.CleanupRetention | daemon/src/omnia_daemon/db.py:236-243 | cleanup leaves exactly the logins and the resource snapshots that are not older than their retention periods, and nothing else changes |
| Database.LastAlertIsGreatest | daemon/src/omnia_daemon/db.py:218-222 | the last alert is the greatest time with that key, none exactly if no row has the key |
| Database.CountAcceptedZero | daemon/src/omnia_daemon/db.py:151-156 | the count is zero if and only if the table has no earlier login with the key |
| Database.PrunedRows | daemon/src/omnia_daemon/db.py:238-240 | pruning keeps exactly the rows not older than the cutoff |
| Database.PrunedCount | daemon/src/omnia_daemon/db.py:129-135 | pruning does not change a count over a window that starts at the cutoff or later |
| Alerts.AlertManager.Raise | daemon/src/omnia_daemon/alerts.py:50-57 | an alert is added exactly when its key has none or the cooldown has passed |
| Alerts.AlertManager.OnSshEvent | daemon/src/omnia_daemon/alerts.py:59-107 | the alert table after an event is what the rules make of both tables |
| Alerts.AlertManager.OnMetricsSnapshot | daemon/src/omnia_daemon/alerts.py:109-124 | likewise for the disks of a snapshot, one after the other |
| AlertRules.FailedLoginRule | daemon/src/omnia_daemon/alerts.py:59-88 | a failure of any of the three types adds an alert for its address exactly if the number of public-key failures and unknown users from there in the window reaches the threshold and no alert for it is younger than the cooldown |
| AlertRules.NewKeyRule | daemon/src/omnia_daemon/alerts.py:90-107 | an accepted key adds an alert exactly if no row shows an earlier accepted login with it and no alert for it is younger than the cooldown |
| AlertRules.OtherEvents | daemon/src/omnia_daemon/alerts.py:59-71 | any other event, and a failure without an address, adds nothing |
| AlertRules.DiskRule | daemon/src/omnia_daemon/alerts.py:109-124 | a disk at or over the threshold adds an alert exactly if none for it is younger than the cooldown, after those of the disks before |
| AlertRules.AttackIsReported | daemon/src/omnia_daemon/alerts.py:59-88 | from sshd to the alert, over every run: when the last message is a failure of any kind or an unknown user, and as many messages of public-key failures and unknown users from its address were logged in the window as the threshold asks for, an alert for the address is there and fresh, whatever else was logged or deleted |
| AlertRules.AllIsWithoutCleanup | daemon/src/omnia_daemon/db.py:236-243 | the unpruned tables of a run are those of the same run without its cleanups |
| AlertRuns.Perform | daemon/src/omnia_daemon/alerts.py:50-107 | the methods of the alert manager and of the database do to both tables what the step of the run does |
| AlertRuns.CooldownHolds | daemon/src/omnia_daemon/alerts.py:50-57 | over every run with a clock that does not go back, alerts with one key are at least the cooldown apart |
| AlertRuns.AtMostOnePerCooldown | daemon/src/omnia_daemon/alerts.py:50-57 | a span of length L holds at most L / cooldown + 1 alerts with one key |
| AlertRuns.AlertIsFresh | daemon/src/omnia_daemon/alerts.py:68-88 | a check that meets its condition leaves an alert with its key that is new or younger than the cooldown |
| AlertRuns.KeysAreIndependent | daemon/src/omnia_daemon/db.py:218-222 | what a check does depends on the alerts with its own key only, and leaves all others alone |
| AlertRuns.AlertsOfKey | daemon/src/omnia_daemon/alerts.py:50-57 | in every run the alerts with a key are those that its own checks with a met condition raise, as if there were no others |
| AlertRuns.RunsAreIndependent | daemon/src/omnia_daemon/alerts.py:50-57 | two runs whose checks of a key meet its condition alike have the same alerts with it, whatever else differs |
| AlertRuns.KeysApart | daemon/src/omnia_daemon/alerts.py:79-115 | different rules, addresses, keys and disks have different alert keys |
| Retention.RetentionIsInvisible | daemon/src/omnia_daemon/alerts.py:68-88 | if no event is older than retention minus window before an earlier cleanup, the pruned and the unpruned run raise the same `failed_login` alerts at every point |
| Retention.BruteForceIsReported | daemon/src/omnia_daemon/alerts.py:68-88 | under that condition, when a failure of any of the three types ends a run in which the number of counted failures ever logged from its address in the window reaches the threshold, an alert for the address is there and is new or younger than the cooldown |
| Retention.OtherFailureIsNotCounted | daemon/src/omnia_daemon/db.py:129-135 | a `failed_other` event raises exactly when the failures before it already reach the threshold |
| Retention.UncountedFailuresRaiseNothing | daemon/src/omnia_daemon/alerts.py:21 | an address whose logins are never counted never gets a `failed_login` alert in any run |
| Retention.SecondAlertNeedsDeletion | daemon/src/omnia_daemon/alerts.py:90-107 | with increasing login times a `new_key` alert after an earlier login with the key needs a cleanup in between that deleted that login, then older than the retention period |
| Retention.AlertedOnceAtFirstUse | daemon/src/omnia_daemon/alerts.py:90-107 | while no login with the key is deleted its only alert in the run is the one at its first login |
| GpuStream.Extract | daemon/src/omnia_daemon/gpu_intel.py:30-37 | the loop collects exactly the engines whose `busy` is numeric |
| GpuStream.BusyIsReported | daemon/src/omnia_daemon/gpu_intel.py:30-37 | what an engine says of `busy` is reported exactly if it is a number or a boolean |
| GpuStream.GpuMonitor.TryStream | daemon/src/omnia_daemon/gpu_intel.py:64-105 | whatever the chunks, `_latest` is the last object decoded and the result says whether there was one |
| GpuStream.GpuMonitor.TakeValues | daemon/src/omnia_daemon/gpu_intel.py:86-100 | the inner loop ends, having cut off all values that the buffer starts with |
| GpuStream.ChunkIndependence | daemon/src/omnia_daemon/gpu_intel.py:77-100 | however a text in which no number that is met can be split is cut, the values and the leftover are those of the whole |
| GpuChunks.ChunksExact | daemon/src/omnia_daemon/gpu_intel.py:77-100 | every way of cutting a text decodes as the whole if and only if no number that is met in it can be split |
| GpuStream.StreamDecoding | daemon/src/omnia_daemon/gpu_intel.py:77-100 | of a stream of objects the complete ones are decoded in order, and the buffer is empty or a proper prefix of the next |
| GpuStream.StreamLatest | daemon/src/omnia_daemon/gpu_intel.py:98-100 | the latest reading is that of the last object that has arrived completely |
| JsonScanner.ScanValueGrows | daemon/src/omnia_daemon/gpu_intel.py:92-96 | a value that `raw_decode` has accepted stays the same value when more text arrives, unless it is an open number |
| JsonPrefix.ScanValueShrinks | daemon/src/omnia_daemon/gpu_intel.py:92-96 | a value that ends within a prefix of the text is read from the prefix alone |
| JsonComplete.DocIsRead | daemon/src/omnia_daemon/gpu_intel.py:92-96 | every text of the grammar of RFC 8259, with any blanks, tabs and line ends as layout, any escapes and any form of number, is read as its value wherever it stands; a bare number must not go on behind it |
| JsonSound.ScanExact | daemon/src/omnia_daemon/gpu_intel.py:92-96 | and only such a text is read, with exactly its value and its end |
| JsonText.ScanUndoesWrite | daemon/src/omnia_daemon/socket_server.py:36-39 | reading undoes `json.dumps` for every JSON value, `NaN` and the infinities included, whatever text follows; only behind a bare number the text must not go on with the number |
| JsonText.ReadWriteRead | daemon/src/omnia_daemon/gpu_intel.py:92-96 | whatever is read of a text of 16-bit characters is a value that `json.dumps` writes, and reading what it writes gives it back |
| JsonStream.PrintedObjectsAreRead | daemon/src/omnia_daemon/gpu_intel.py:77-100 | objects in any layout with any separators, cut into any chunks, come back as these objects and leave nothing |
| JsonStream.ObjectTexts | daemon/src/omnia_daemon/gpu_intel.py:92-98 | the objects of a stream are exactly the object texts of that grammar |
| JsonStream.SeparatorChars | daemon/src/omnia_daemon/gpu_intel.py:88 | the separators are the seven characters that `lstrip` names |
| JsonStream.BareNumbersDependOnChunks | daemon/src/omnia_daemon/gpu_intel.py:92-97 | `1` and `2` in two chunks are two numbers, in one chunk they are one |
| KeyFingerprint.ParseAuthorizedKeys | daemon/src/omnia_daemon/key_fingerprint.py:46-70 | the loop returns the entries of the lines in order |
| KeyFingerprint.ParsePrintedKey | daemon/src/omnia_daemon/key_fingerprint.py:55-69 | a printed line of options, one of the eight types, key and comment gives back its entry, or none if the key is malformed |
| KeyFingerprint.KnownTypes | daemon/src/omnia_daemon/key_fingerprint.py:18-27 | no other word is a key type |
| KeyFingerprint.BlanksAndComments | daemon/src/omnia_daemon/key_fingerprint.py:55-58 | a blank line, and one whose first other character is a hash, has no entry |
| KeyFingerprint.LabelTexts | daemon/src/omnia_daemon/key_fingerprint.py:76-102 | the labels of an unlisted key and of one without a comment, by the last twelve characters of its digest |
| KeyFingerprint.WrittenBetween | daemon/src/omnia_daemon/key_fingerprint.py:85-95 | a write between `stat` and read leaves the new entries under the old time, and the next lookup reads again |
| KeyFingerprint.LastWins | daemon/src/omnia_daemon/key_fingerprint.py:94 | of entries with one fingerprint the last is kept |
| KeyFingerprint.KeyStore.ReloadIfNeeded | daemon/src/omnia_daemon/key_fingerprint.py:85-95 | the cache after a reload that sees the file twice, once by `stat` and once by reading |
| KeyFingerprint.KeyStore.LabelForFingerprint | daemon/src/omnia_daemon/key_fingerprint.py:97-102 | the comment, or which of the two made-up labels |
| KeyFingerprint.CacheIsCoherent | daemon/src/omnia_daemon/key_fingerprint.py:85-95 | with writes, deletions and re-creations anywhere, whenever the cached time is the file's time the cache is what the file says, if no time is used twice |
| KeyFingerprint.StoreHas | daemon/src/omnia_daemon/key_fingerprint.py:94 | the cache has a fingerprint if and only if some entry has it |
| KeyFingerprint.QuietLookup | daemon/src/omnia_daemon/key_fingerprint.py:97-106 | a lookup during which nobody writes agrees with a fresh parse |
| KeyFingerprint.QuietLookupKnows | daemon/src/omnia_daemon/key_fingerprint.py:97-106 | after such a lookup exactly the fingerprints of the keys in the file are known |
| KeyFingerprint.ReuseExact | daemon/src/omnia_daemon/key_fingerprint.py:85-95 | the cache is coherent at every point of a run if and only if no write in it has the time of the cached file and other entries than the cache |
| KeyFingerprint.StaysStale | daemon/src/omnia_daemon/key_fingerprint.py:92-93 | after a write with the time of the cached file a lookup leaves the cache as it was |
| KeyFingerprint.ReusedTimeIsStale | daemon/src/omnia_daemon/key_fingerprint.py:92-93 | a run from the empty cache in which the second text of a file is never seen |
| KeyFingerprint.LabelsAgreeIffCommented | tui/omnia_tui/backend.py:76-77 | daemon and client label a listed key alike if and only if it has a comment |
| KeyFingerprint.UncommentedKeyLooksUnused | tui/omnia_tui/backend.py:322-335 | a key without a comment shows no last use, however often it is used and whatever the key file said when each login was labelled, if no comment then was the label that the client makes up |
| TopProcesses.MetricsCollector.constructor | daemon/src/omnia_daemon/metrics_collector.py:47-60 | the cache starts with exactly the listed processes that could be primed |
| TopProcesses.MetricsCollector.Top | daemon/src/omnia_daemon/metrics_collector.py:62-90 | the result is the sorted and cut list of what was measured, and the cache holds exactly the listed processes that could be read or primed |
| TopProcesses.SortedCorrect | daemon/src/omnia_daemon/metrics_collector.py:89 | the sorted list is a permutation, descends, and keeps equal items in their order |
| TopProcesses.TopIsTop | daemon/src/omnia_daemon/metrics_collector.py:62-90 | different pids, all cached before, descending, as many as there are up to the limit, and none left out uses more CPU than one reported |
| MetricsFlush.MetricsLoop.Round | daemon/src/omnia_daemon/scheduler.py:45-57 | one round of the loop is the step of the run |
| MetricsFlush.MetricsLoop.Flush | daemon/src/omnia_daemon/scheduler.py:62-75 | a flush stores the means of the whole buffer and the other columns, disks and GPU among them, of its last sample |
| MetricsFlush.SamplesAreConserved | daemon/src/omnia_daemon/scheduler.py:45-57 | the flushed batches and then the buffer are the samples taken, in order, and no batch is empty |
| MetricsFlush.FlushesAreSpaced | daemon/src/omnia_daemon/scheduler.py:53-57 | flushes are at least the interval apart, and none that is due is put off |
| MetricsFlush.MeanOfColumn | daemon/src/omnia_daemon/scheduler.py:62-72 | each stored mean is the total of its own column over the number of samples |
| MetricsFlush.RowIsLatest | daemon/src/omnia_daemon/scheduler.py:62-75 | time, memory, disks and GPU of a row are those of the last sample |
| MetricsFlush.MeanIsBetween | daemon/src/omnia_daemon/scheduler.py:62-75 | a stored mean lies between any bounds of its batch |
| MetricsFlush.MeansAddUp | daemon/src/omnia_daemon/scheduler.py:62-75 | over any run the means, weighted by batch size, and the buffer make up the sum of all samples |

## Left out

- LoginHistory.MissingExactly: stated without retention cleanup of the table; the client is one client, and other clients only delay the visits of a broadcast.
- A row is known by its number in the protocol, and a pushed row and a row of a reply with one number are taken to show the same; `_login_event_from_dict` is in `LastUsed.FromRow`.
- Backend.OmniaServer.Broadcast: written for the case that nothing runs between its writes; the interleavings are in `Protocol`. Streams other than `login_event`, and `unsubscribe`, which the client never sends, are not part of this model.
- Backend.OmniaServer.HandleOne: the requests are those the client sends, so invalid JSON and unknown commands do not occur, and `subscribe` does not raise on the client's arguments.
- AuthLogTail.TailingIsFaithful: holds of the variant that starts each poll with an empty buffer, as the code does not, and of runs in which each new file is seen to be new. An empty line and one that is no syslog line count as lines here; which lines parse is in `SyslogLines`.
- JournaldIngest.AtMostOnce: one source, each entry with its own cursor; nothing is bounded before the first cursor is stored, as the code then starts at the end of the journal.
- SshdRoundTrip.ParsePrint: digits are ASCII digits; Python's `\d` also takes other decimal digits.
- SyslogLines.ParsePrintBsd: BSD lines as RFC 3164 prints them; all lines of both forms are in `SyslogShape`, where an RFC 3339 timestamp goes to `fromisoformat`, which is a parameter. Time zones are left out: times are civil times on one scale.
- JsonText.ReadWriteRead: as for `ScanUndoesWrite`, characters that take two units are left out.
- JsonText.ScanUndoesWrite: texts are sequences of 16-bit units, written as `json.dumps` does; the joining of surrogate pairs into one character is left out.
- KeyFingerprint.CacheIsCoherent: a write is one step with its own modification time, and reading the file is one step; SHA-256 and base64 are a parameter; the text is already cut into lines.
- TopProcesses.MetricsCollector.Top: what `psutil` yields or raises is an input; sorting is a function, proved to be the stable sort.
- MetricsFlush.MeanIsBetween: means over real numbers, without rounding.
- The socket is an unbounded FIFO of lines: the 64 KiB line limit of `StreamReader` and back-pressure other than a pause between two writes are left out.
- SMTP, SQLite, subprocesses and `speedtest-cli` are inputs or sequences.
- Other fields of metrics, sessions, services, containers and speed tests: rows mapped one by one, without state worth proving.
- `config.py`, `extra_tools.py`, `speedtest_runner.py`, `main.py`, the screens and the mock backend are not part of this model.
