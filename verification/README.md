# Recruitment back end and terminals: a verified model

A Dafny model of the stateful parts of the recruitment service, and of five self-contained algorithms, with
proofs about all their inputs and all their runs. `dafny verify dfyconfig.toml` checks everything.

## How it is built

Every SQL transaction is one atomic step; times are integers that a run reads as it goes; random
identifiers, codes and tokens are inputs. Where the program changes things step by step there are two layers:

- pure functions on the tables (`SmsModel`, `RecruitmentModel`, `PushQueue`, `FaceRunner`, `EmployeeCodes`, ...),
  over which runs are defined and the invariants are proved;
- classes and loops in the program's own form (`SmsService`, `RecruitmentDesk`, `PushWorker`, `FacePage`, `Limiter`,
  `Renumbering`, `CodeUpdate`, ...), each method proved to leave exactly what the function says, rollbacks included.

What each request does is said twice: by its function, and by lemmas that never name it, in the program's own
numbers (`SmsEffects`, `RecruitmentEffects`, `RecruitmentPrinted`, `RecruitmentContracts`, `PushDispatch`, `PushReceipts`, `FaceLoop`):
when it is accepted, what it writes, and that it writes nothing else.

The parts:

- **SMS codes** (`SmsModel`, `SmsWorld`, `SmsEffects`, `SmsDelivery`, `SmsLeases`, `SmsCandidates`, `SmsAccess`, `SmsService`). Candidates request and verify codes
  while any number of workers reserve, call an unreliable gateway, crash, answer after their lease has lapsed, and
  webhooks report. The gateway refuses a message identifier it already holds; nothing else is assumed of it. A run
  keeps a history (requests, tries, accesses, calls, messages taken) that no step reads.
- **Applications** (`RecruitmentModel`, `RecruitmentEffects`, `RecruitmentPrinted`, `RecruitmentContracts`,
  `RecruitmentInvariants`, `RecruitmentRuns`, `RecruitmentDates`, `RecruitmentDesk`). One application with at most one
  contract, its interviews and the frozen versions of their convocations, under every staff and candidate operation.
- **Push queue** (`PushQueue`, `PushDispatch`, `PushReceipts`, `PushRuns`, `PushWorker`). Batches, tickets, receipts, retries, workers that die between the call
  and the commit.
- **Constraint canonicaliser** (`Ordering`, `Splitting`, `Canonical`, `Printing`, `OrderOnly`, `LeafTexts`, `QuotedLists`,
  `RepeatedLists`). The scanners on text, the recursion, and the theorems about what is ignored. The grammar: OR and AND of
  terms, in parentheses or not, at any depth; a term is a text with any number of lists `ARRAY[...]` outside quotes. Inside
  the brackets of a term, OR and AND are text. `repr`, the sort key, is any injective function.
- **Smaller pieces**: the capture circle (`GuideGeometry`), the facial terminal's loop (`FaceRunner`, `FaceLoop`, `FaceLosses`, `FacePage`), employee codes
  (`EmployeeCodes`, `Renumbering`, `RenumberingFacts`, `RenumberingCodes`, `CodeUpdate`), calendar months and retention (`Calendar`, `Retention`), the failure
  counter (`FailureCounter`).

## Where a natural claim fails

The lemmas named give a case where it fails, and exactly when it holds.

- A stage past the decision does not imply a favourable decision: `StageOutlivesDecision`, `StageLosesDecision`.
- A closed application can still be sent a document, through an update: `ClosedApplicationStillSends`, `ClosedApplicationSends`.
- `dispatch` (said to count only tickets the provider accepted, app/modules/recruitment_engage_service.py:73-75) counts too many when a
  ticket carries an error detail that is a list or an object after another ticket was taken: `ReportTooMany`, `ReportIsExact`.
  In `receipts` such a detail loses the whole collection: `PushWorker.Worker.Collect`.
  An accepted row may therefore never end: `NeverEnds`, `EndsExactly`.
- A terminal is said to ask about a lost burst before any new try (app/static/pointeur-facial.js:196-197). Stopped and started
  again, it does not: `LossForgotten`, `TriesUnasked`.
- Two interviews can be in force at one date, although a convocation sent at once checks it: `SameDateTwice`, `DateDoubles`.
- The retention list is one day late for a 29 February: `LeapDayListedLate`, `ListedWhenDue`.
- The canonical form is said to ignore order alone, and every order (scripts/check_permission_constraints.py:6-8). It also
  ignores parentheses around a whole term, and reads a list inside a quoted constant, since `ARRAY[` is searched without
  regard to quotes: `ConstantsConfused`, `ExactWithoutMisreading`. And the order of a list counts when its term holds
  another `ARRAY[`, in a constant, in a value or as a second list: `ValuesKeepOrder`, `ValuesPermuted`, `OrderIgnoredExactly`.
  `OrderAndNothingElse` joins both conditions.
- The terms of an OR or AND inside the brackets of a term, of a negation for instance, are compared in order:
  `NegationKeepsOrder`, `TextsCompareVerbatim`.
- A reservation whose lease runs can be taken again, because a worker whose lease lapsed still records its failure over it:
  `LiveReservationRetaken`, `TakenAgainExactly`.
- The delay after a failed call is no wait after that failure: it counts from the clock the worker read when it started, and
  a call of ten seconds leaves none of the five. `LiveReservationRetaken` (recorded at 47 or later, taken at 48), `RetryDue`; what holds
  is a distance from the first try: `RetriesAfterFirst`.
- Four sendings of a push are no bound, because a worker may die after its call: `FiveSendings`, `FewSendings`.
- `_generate_codes` asked for no code returns every free one: `NoneAskedAllReturned` (its caller never asks for none).
- The failure counter forgets failures that still count when a shorter window is used. One table serves windows of 60, 300 and 600
  seconds (app/modules/biometrics/terminals.py:156, 275, 314; app/modules/auth/routes.py:162), one for each key; what is left is the cleaning
  of the whole table above ten thousand keys, which applies the window of the key being recorded to all: `OtherKeyForgets`, `CountsExactly`.

One test is never needed: a tick set by the timer never finds its runner busy (`TimerFindsFree`).

## Model

| member | source | states |
|---|---|---|
| `RepeatedLists.OrderAndNothingElse` | scripts/check_permission_constraints.py:92-104 | for every expression of the grammar (OR and AND of terms, each with any number of lists): comparing it with every other one ignores order, and nothing else, if and only if none of its constants is taken for a list, and none of its terms has several `ARRAY[` and two different values in one list |
| `RepeatedLists.OrderIgnoredExactly` | scripts/check_permission_constraints.py:92-104 | every expression equal to this one up to the order of list values and, at any depth, of OR and AND terms, compares equal to it, if and only if no term of it has several `ARRAY[`, in texts, lists or constants, and two different values in one list |
| `RepeatedLists.OrderIsIgnored` | scripts/check_permission_constraints.py:92-104 | two expressions equal up to order compare equal when no term of one of them is such |
| `RepeatedLists.TermsCommute` | scripts/check_permission_constraints.py:92-97 | for any two terms, the OR of them, and the AND, compare equal in either order |
| `RepeatedLists.ValuesCommute` | scripts/check_permission_constraints.py:98-104 | the values of the only list of a term compare equal in either order, when they hold no `ARRAY[` |
| `RepeatedLists.ParenthesesIgnored` | scripts/check_permission_constraints.py:50-54 | parentheses around a whole expression are ignored |
| `RepeatedLists.ValuesPermuted` | scripts/check_permission_constraints.py:98-104 | permuting the values of the lists of a term leaves its canonical form unchanged if and only if the term has a single `ARRAY[` or its text does not change |
| `RepeatedLists.ValuesKeepOrder` | scripts/check_permission_constraints.py:98-104 | `x = ANY (ARRAY['ARRAY[', 'b'])` and `x = ANY (ARRAY['b', 'ARRAY['])` differ |
| `RepeatedLists.ValuesInOrder` | scripts/check_permission_constraints.py:98-104 | the same for any two different values, one of which holds an `ARRAY[`: both expressions belong to the grammar, are equal up to order, and differ |
| `RepeatedLists.TextsCompareVerbatim` | scripts/check_permission_constraints.py:92-104 | terms in which the program finds no list compare equal if and only if they are the same text: OR and AND inside their brackets are compared in order |
| `RepeatedLists.NegationKeepsOrder` | scripts/check_permission_constraints.py:92-104 | `NOT (a = 1 OR b = 2)` and `NOT (b = 2 OR a = 1)` differ |
| `QuotedLists.ExactWithoutMisreading` | scripts/check_permission_constraints.py:92-104 | everything that compares equal to an expression of the grammar differs from it only in order, if and only if none of its constants has the only `ARRAY[` of its term inside quotes, with a bracket that closes it |
| `QuotedLists.OnlyOrderIsIgnored` | scripts/check_permission_constraints.py:92-104 | two expressions that compare equal differ only in order, when one of them has no such constant |
| `QuotedLists.ConstantsConfused` | scripts/check_permission_constraints.py:98-103 | `x = 'ARRAY[b, a]'` and `x = 'ARRAY[a, b]'`, two different constants, compare equal |
| `OrderOnly.EqualAsRead` | scripts/check_permission_constraints.py:92-104 | for any two expressions of the grammar the canonical forms are equal if and only if, read as the program reads them, they are the same up to order |
| `OrderOnly.CanonicalOfPrinted` | scripts/check_permission_constraints.py:92-104 | scanning the printed text of a tree yields the canonical form of the tree as the program reads it: a term with a single closed `ARRAY[`, quoted or not, is a list, any other a text; groups, operators and brackets are read back as printed |
| `LeafTexts.OneReading` | scripts/check_permission_constraints.py:98-103 | the text of a term determines its lists: two ways to write it as texts and lists, no list opening inside quotes, are the same |
| `OrderOnly.NormalForgetsOrder` | scripts/check_permission_constraints.py:95-104 | the canonical forms of trees as read agree exactly when the trees pair off term by term up to order |
| `Ordering.SortForgetsOrder` | scripts/check_permission_constraints.py:97 | sorted sequences are equal exactly when the multisets are |
| `Splitting.SplitText` | scripts/check_permission_constraints.py:28-47 | the scanning loop returns exactly the pieces between operators at depth 0 outside quotes |
| `Splitting.JoinSplit` | scripts/check_permission_constraints.py:28-47 | joining the pieces with the operator gives the text back, for every text |
| `Splitting.SplitCutsAtTop` | scripts/check_permission_constraints.py:28-47 | each cut falls at depth 0 outside quotes counted from the start of the whole text |
| `Splitting.SplitShrinks` | scripts/check_permission_constraints.py:92-97 | each piece is shorter than the text as soon as there are two, so the recursion ends |
| `Splitting.IsBalanced` | scripts/check_permission_constraints.py:57-66 | the loop answers true exactly when the depth never goes below zero and ends at zero outside quotes |
| `Splitting.UnwrapText` | scripts/check_permission_constraints.py:50-54 | the loop returns the text with every enclosing pair of parentheses removed |
| `Splitting.UnwrapComplete` | scripts/check_permission_constraints.py:50-54 | afterwards nothing is left to strip and no pair encloses the whole text |
| `Splitting.StripExactly` | scripts/check_permission_constraints.py:50-54 | stripping takes off the blanks at both ends, and nothing else |
| `Splitting.FindClosingBracket` | scripts/check_permission_constraints.py:107-118 | the position found is the first closing bracket at the depth of the list, outside quotes; none found means there is none |
| `Printing.UnwrapEnclose` | scripts/check_permission_constraints.py:50-54 | any number of enclosing parentheses is undone exactly |
| `Printing.SplitJoin` | scripts/check_permission_constraints.py:28-47 | splitting the join of closed terms that contain no first-level operator returns those terms |
| `Printing.ItemsSplit` | scripts/check_permission_constraints.py:98-103 | the items printed between brackets are read back one by one |
| `SmsService.SmsService.Rate` | app/modules/recruitment_sms_service.py:53-64 | a counter below its maximum is raised by one, created when missing; at its maximum the whole transaction is rolled back |
| `SmsService.SmsService.Latest` | app/modules/recruitment_sms_service.py:76-77 | the loop finds the newest request of the phone, so that the delay test means: some request of this phone is younger than the delay |
| `SmsService.SmsService.RequestCode` | app/modules/recruitment_sms_service.py:67-94 | the committed tables and the answer are those of the transaction function; every refusal leaves the committed tables unchanged |
| `SmsService.SmsService.VerifyCode` | app/modules/recruitment_sms_service.py:97-115 | same, for verification: the try is counted and kept even when the code is wrong |
| `SmsService.SmsService.Identity` | app/modules/recruitment_sms_service.py:118-127 | returns a row that the token opens, or 401 exactly when there is none |
| `SmsService.SelectInOrder` | app/modules/recruitment_sms_service.py:210-213 | an ordered query with a limit: the smallest keys, in order, as many as asked or as there are |
| `SmsService.SmsService.ReservePending` | app/modules/recruitment_sms_service.py:202-219 | sweeps, then reserves the oldest sendable rows no other worker holds, up to the limit, and returns their messages; nothing else changes |
| `SmsService.SmsService.RecordReply` | app/modules/recruitment_sms_service.py:222-239 | writes only a row still in sending, as the reply says |
| `SmsService.SmsService.ApplyGatewayState` | app/modules/recruitment_sms_service.py:243-265 | applies a reported state unless it is ignored, and says which |
| `SmsService.SmsService.MarkTracked` | app/modules/recruitment_sms_service.py:270-277 | marks the messages least recently checked, up to the limit, and nothing else |
| `SmsWorld.CarrierKeepsView` | app/modules/recruitment_sms_service.py:193-265 | no delivery step changes what candidates read: code status, tries, expiry, token, names, counters |
| `SmsWorld.CandidateReadsView` | app/modules/recruitment_sms_service.py:67-127 | a candidate call answers and writes the same in two tables that differ only in delivery fields |
| `SmsWorld.NonInterference` | app/modules/recruitment_sms_service.py:97-127 | two runs with the same candidate calls, whatever workers, gateway, webhooks and crashes do in each, give the same answers |
| `SmsDelivery.ReserveRowMoves` | app/modules/recruitment_sms_service.py:203-217 | a reservation keeps the row invariant, counts one attempt for the rows it takes, and leaves a live reservation alone |
| `SmsDelivery.RecordMoves` | app/modules/recruitment_sms_service.py:223-239 | recording any reply, even by a worker whose lease lapsed, keeps the row invariant |
| `SmsDelivery.ApplyMoves` | app/modules/recruitment_sms_service.py:243-265 | so does any report |
| `SmsDelivery.ReplayedReport` | app/modules/recruitment_sms_service.py:243-265 | a report applied or ignored, then replayed at any time, changes nothing |
| `SmsDelivery.RunKeeps` | app/modules/recruitment_sms_service.py:198-240 | the delivery invariant holds over every run of candidates, workers, crashes, lost replies and reports |
| `SmsDelivery.OneSmsPerChallenge` | app/modules/recruitment_sms_service.py:198-240 | in every run from an empty table the gateway takes at most one SMS per challenge and is called at most three times |
| `SmsDelivery.ReservedRowsHoldTheirText` | app/modules/recruitment_sms_service.py:203-218 | every row a worker reserves still holds its ciphertext, waits for its code and has more than fifteen seconds to live |
| `SmsDelivery.TextOnlyWhileNeeded` | app/modules/recruitment_sms_service.py:80-240 | in every run the ciphertext of a row is kept exactly while its code waits and its SMS is unsent |
| `SmsLeases.RetryDue` | app/modules/recruitment_sms_service.py:204-236 | after a failed call recorded by a worker started at `at`, the challenge can be taken at a given clock if and only if tries are left, the code waits with more than fifteen seconds to live, and five seconds after `at` (fifteen from the second try) have passed, whenever the recording took place |
| `SmsLeases.RetriesAfterFirst` | app/modules/recruitment_sms_service.py:204-236 | in every run a second try is at least five seconds after the first, and a third at least fifteen after the first |
| `SmsDelivery.StepFollows` | app/modules/recruitment_sms_service.py:198-265 | in one step the rank of a row falls only for a new try or a proof of sending after a failure, and a failure is left only for sent or delivered |
| `SmsDelivery.RunFollows` | app/modules/recruitment_sms_service.py:198-265 | over any run an accepted row never returns to queued or sending, delivered is final, and acceptance, sending and delivery times are written once |
| `SmsLeases.TakenAgainExactly` | app/modules/recruitment_sms_service.py:204-236 | in every run, whoever records or reports: a reservation whose lease still runs is taken again if and only if a failed call was recorded for it with tries left, its delay, counted from the start of the recording worker, has passed, and the code waits with more than fifteen seconds to live |
| `SmsLeases.LiveReservationIsExclusive` | app/modules/recruitment_sms_service.py:204-236 | while a lease runs and no failed call is recorded, no worker reserves the challenge again, whatever other answers and reports are recorded |
| `SmsLeases.LiveReservationRetaken` | app/modules/recruitment_sms_service.py:222-236 | a run in which a lapsed worker records its failure over a reservation live until 92, and a third worker takes the challenge at 48 while the second has not called yet |
| `SmsCandidates.CandidateRun` | app/modules/recruitment_sms_service.py:53-115 | the candidate invariant holds over every run whose clock does not go back |
| `SmsCandidates.AcceptedExactly` | app/modules/recruitment_sms_service.py:67-94 | a valid request is accepted if and only if the whole history holds fewer than five requests of the phone and twenty of the address in the clock hour, and none of the phone in the last sixty seconds: purging never changes an answer |
| `SmsCandidates.OneUsableCode` | app/modules/recruitment_sms_service.py:80-81 | at most one unverified usable code per phone |
| `SmsCandidates.RequestsApart` | app/modules/recruitment_sms_service.py:76-79 | accepted requests of a phone are at least sixty seconds apart |
| `SmsCandidates.FewRequests` | app/modules/recruitment_sms_service.py:53-64 | at most five requests of a phone in a clock hour and ten in any 3600 seconds |
| `SmsCandidates.FewTries` | app/modules/recruitment_sms_service.py:97-115 | a code gets at most five tries and one access, purged or not |
| `SmsCandidates.AccessExactly` | app/modules/recruitment_sms_service.py:97-115 | access is given if and only if the code is right, less than five minutes old, not followed by another request of the phone, tried fewer than five times and not yet used |
| `SmsCandidates.TokenOpensOneRow` | app/modules/recruitment_sms_service.py:118-127 | a token opens at most one row |
| `SmsAccess.AccessOpens` | app/modules/recruitment_sms_service.py:97-127 | in every run, after a code was verified at a clock `at`, whatever candidates, workers, gateway and webhooks do next, filing and purging included, the token opens the row of that code at a later clock if and only if that clock is below `at` + 7200 |
| `SmsAccess.SessionIsTheirs` | app/modules/recruitment_sms_service.py:67-115 | in every run a verified code gives the phone and the stripped names of the request that filed it, with the code of that request, less than five minutes old |
| `SmsAccess.FiledOnce` | app/modules/public_candidates.py:366-382 | an access files one application: whatever happens between them, two filings made with accesses to the same row are answered the same reference |
| `SmsCandidates.OneCounterPerHour` | app/modules/recruitment_sms_service.py:53-64 | two moments share a counter exactly when they fall in one clock hour, and the phone and the address never share one |
| `SmsEffects.RequestMoves` | app/modules/recruitment_sms_service.py:67-94 | an accepted request files one row with its phone, names, code and five minutes, ends the unverified codes of the phone and erases their texts, deletes what is over a day old, and leaves every other row alone |
| `SmsEffects.RequestCounts` | app/modules/recruitment_sms_service.py:53-92 | it counts one for its phone and one for its address in the clock hour, and deletes exactly the counters whose hour ended over an hour ago |
| `SmsEffects.VerifyMoves` | app/modules/recruitment_sms_service.py:97-115 | a try counts one exactly when the code can be tried; the right code gives its row the token for 7200 seconds and erases the text; a wrong one changes nothing else, nor any other row |
| `SmsEffects.ReserveMoves` | app/modules/recruitment_sms_service.py:202-217 | a worker gives up exactly the rows too late or lost for good, takes exactly the picked rows that can be sent, for forty-five seconds, and touches no other |
| `SmsEffects.SendMoves` | app/modules/recruitment_sms_service.py:218-221 | what a call leaves: taken once by the gateway, and tried again, rejected or taken for the worker, exactly by what came back |
| `SmsEffects.RecordMoves` | app/modules/recruitment_sms_service.py:222-239 | an answer writes exactly the row still sending: the state reported with its times, back in the queue in its delay, or failed |
| `SmsEffects.ReportMoves` | app/modules/recruitment_sms_service.py:243-265 | a report is applied exactly when it moves the row on, to the state it names, with the times that were not known |
| `SmsEffects.TrackMoves` | app/modules/recruitment_sms_service.py:268-277 | tracking stamps exactly the picked rows that are due: under fifteen minutes old, unchecked for three seconds, or for fifteen once sent |
| `RecruitmentDesk.Desk.UpdateProcessing` | app/modules/recruitment_engage_staff.py:320-373 | the committed application, its assignment and next action included, and the answer are those of the transaction function; an error rolls every field back |
| `RecruitmentDesk.Desk.SendRow` | app/modules/recruitment_engage_staff.py:607-620 | first sending: status, version, stage and visible state together |
| `RecruitmentInvariants.IssueVersions` | app/modules/recruitment_convocations.py:136-150 | a sending adds one version, which holds the date and the printed fields of the interview and is the only live one; the versions before it keep their content |
| `RecruitmentDesk.Desk.ProposeInterview` | app/modules/recruitment_engage_staff.py:636-671 | commits what the transaction function Propose says: duplicates by request or by date, drafts, and nothing kept of a refused sending |
| `RecruitmentDesk.Desk.SendConvocation` | app/modules/recruitment_engage_staff.py:674-689 | commits exactly what the transaction function Send says, with the same answer |
| `RecruitmentDesk.Desk.UpdateInterview` | app/modules/recruitment_engage_staff.py:692-724 | commits exactly what the transaction function Update says, with the same answer |
| `RecruitmentDesk.Desk.CancelConvocation` | app/modules/recruitment_engage_staff.py:727-745 | commits exactly what the transaction function Cancel says, with the same answer |
| `RecruitmentDesk.Desk.ConfirmArrival` | app/modules/recruitment_engage_staff.py:831-849 | commits exactly what the transaction function Arrive says, with the same answer |
| `RecruitmentDesk.Desk.RecordInterviewOutcome` | app/modules/recruitment_engage_staff.py:852-872 | commits exactly what the transaction function RecordOutcome says, with the same answer |
| `RecruitmentDesk.Desk.Prepare` | app/modules/recruitment_engage_staff.py:918-948 | commits exactly what the transaction function PrepareContract says, with the same answer |
| `RecruitmentDesk.Desk.RecordContractState` | app/modules/recruitment_engage_staff.py:979-1012 | commits exactly what the transaction function SetContractState says, sharing with the candidate included, with the same answer |
| `RecruitmentDesk.Desk.WithdrawApplication` | app/modules/recruitment_engage_public.py:343-359 | commits what the transaction function Withdraw says, the loop over the open interviews included |
| `RecruitmentDesk.Desk.ConfirmInterview` | app/modules/recruitment_engage_public.py:182-195 | commits exactly what the transaction function Confirm says, with the same answer |
| `RecruitmentDesk.Desk.ConvocationViewed` | app/modules/recruitment_engage_public.py:153-162 | commits exactly what the transaction function View says, with the same answer |
| `RecruitmentInvariants.NeverOutdated` | app/modules/recruitment_convocations.py:174-192 | of the versions of a reachable interview none is outdated, and one is active exactly when it is the current one of a proposed or confirmed interview |
| `RecruitmentInvariants.SentOnce` | app/modules/recruitment_engage_staff.py:678-682 | sending an open interview does something only for a draft |
| `RecruitmentInvariants.StepKeeps` | app/modules/recruitment_engage_staff.py:320-1012 | every operation of staff and candidate keeps the whole invariant and only lets interviews move forward |
| `RecruitmentInvariants.RunKeeps` | app/modules/recruitment_engage_staff.py:320-1012 | so does every run |
| `RecruitmentRuns.VersionHistory` | app/modules/recruitment_convocations.py:136-192 | in every run the versions of an interview are exactly 1 to its version, only the current one can be live, and its state is active exactly while the interview is proposed or confirmed |
| `RecruitmentRuns.DocumentsAreFrozen` | app/modules/recruitment_convocations.py:93-108 | a document once sent never changes; replacement and cancellation are written once |
| `RecruitmentRuns.InterviewHistory` | app/modules/recruitment_engage_staff.py:831-872 | absent means no arrival, an arrival falls on the interview day in Algiers time, confirmed means a confirmation on record, what was viewed was sent |
| `RecruitmentRuns.ConfirmedByCandidate` | app/modules/recruitment_engage_public.py:182-195 | an interview that is not confirmed, after a new date for instance, becomes confirmed only through a confirmation by the candidate |
| `RecruitmentRuns.MovedInterview` | app/modules/recruitment_engage_staff.py:692-724 | a new date erases confirmation and arrival and keeps the old date; one version more exactly when the date or something printed changed, a field left empty and an explicit null being the same |
| `RecruitmentRuns.SentTwice` | app/modules/recruitment_engage_staff.py:674-689 | sending again, at any time, changes nothing |
| `RecruitmentRuns.ServedOnce` | app/modules/recruitment_engage_staff.py:643-647 | a request already served never adds a second interview, whatever happened in between |
| `RecruitmentRuns.NoSecondAtSameDate` | app/modules/recruitment_engage_staff.py:648-652 | a convocation sent at once never doubles another one in force at the same date |
| `RecruitmentDates.DateDoubles` | app/modules/recruitment_engage_staff.py:636-724 | any operation puts two interviews in force at one date if and only if it sends a draft, or moves a sent interview, to the date of another one in force, under the guards of those operations |
| `RecruitmentDates.SameDateTwice` | app/modules/recruitment_engage_staff.py:674-689 | a run that files two drafts of one date and sends both |
| `RecruitmentRuns.SentInTime` | app/modules/recruitment_engage_service.py:207-211 | no document is sent, by any operation, for a date more than five minutes past |
| `RecruitmentRuns.ContractHistory` | app/modules/recruitment_engage_staff.py:918-1012 | in every run a contract exists only for a favourable, communicated, not withdrawn application; signature and hired have a contract, hired a signed one |
| `RecruitmentRuns.ContractForward` | app/modules/recruitment_engage_staff.py:979-1012 | a contract never disappears, its state only moves forward, and once signed nothing in it changes but its sharing with the candidate |
| `RecruitmentRuns.VisibleHistory` | app/modules/recruitment_engage_service.py:239-249 | a communicated decision is what the candidate sees; withdrawn is seen exactly when the candidate withdrew |
| `RecruitmentRuns.OnlyCommunicationTells` | app/modules/recruitment_engage_staff.py:345-352 | only the communication step ever shows accepted or declined |
| `RecruitmentRuns.WithdrawnForGood` | app/modules/recruitment_engage_public.py:343-359 | after a withdrawal no version is ever sent or active again, whatever is tried |
| `RecruitmentRuns.StageLosesDecision` | app/modules/recruitment_engage_staff.py:336-368 | a stage past the decision loses its favourable decision exactly when the recruiter takes the decision back, without a contract, and leaves the stage |
| `RecruitmentRuns.StageOutlivesDecision` | app/modules/recruitment_engage_staff.py:336-344 | a run that ends in the hiring file with an unfavourable decision |
| `RecruitmentRuns.ClosedApplicationSends` | app/modules/recruitment_engage_staff.py:597-724 | on a closed application no interview is added, and a version is added if and only if an open interview is updated with a date not past, a society allowed, a text that prints, and a change of date or printed fields |
| `RecruitmentRuns.ClosedApplicationStillSends` | app/modules/recruitment_engage_staff.py:597-598 | an application closed by a communicated refusal that still sends a document |
| `RecruitmentPrinted.ProposeAnswers` | app/modules/recruitment_engage_staff.py:636-671 | each answer to a proposal, exactly: closed, late, already there by its request or its date, society out of scope, text that cannot be drawn, or written; only the last changes anything |
| `RecruitmentPrinted.ProposePrints` | app/modules/recruitment_engage_staff.py:570-671 | a proposal that is written adds one interview with the location, contact and note of its form, the details that were sent, no society under an offer; sent at once, its first document says the same |
| `RecruitmentPrinted.ProposeMoves` | app/modules/recruitment_engage_staff.py:607-620 | a convocation sent at once raises the stage to the convocation and shows the interview unless a decision was told; a draft does neither |
| `RecruitmentPrinted.UpdateAnswers` | app/modules/recruitment_engage_staff.py:692-724 | each answer to an update, exactly; unchanged exactly when a sent interview is as the form asks |
| `RecruitmentPrinted.UpdatePrints` | app/modules/recruitment_engage_staff.py:570-724 | an update that is written leaves the date, location, contact and note of its form, each detail from the form when sent and as it was when not, no society under an offer; a sent interview has one document more, which says the same |
| `RecruitmentPrinted.SendAnswers` | app/modules/recruitment_engage_staff.py:674-689 | a draft is sent exactly when the application is open, its date not past and its text printable; an interview in force was sent already |
| `RecruitmentPrinted.SendPrints` | app/modules/recruitment_engage_staff.py:607-689 | a draft that is sent has a first document that says what the draft said, and raises stage and visible state |
| `RecruitmentPrinted.DocumentSaysInterview` | app/modules/recruitment_convocations.py:93-150 | in every run the newest document of an interview says its date and every printed field |
| `RecruitmentPrinted.OwnFormUnchanged` | app/modules/recruitment_engage_staff.py:692-724 | in every run, updating a sent open interview with its own date and fields changes nothing, unless an offer takes the place of its society |
| `RecruitmentPrinted.OneFieldChanges` | app/modules/recruitment_engage_staff.py:570-724 | in every run, changing one field of that form changes that printed field, or the date, and no other |
| `RecruitmentContracts.ContractAccepted` | app/modules/recruitment_engage_staff.py:979-1012 | a contract request is accepted exactly when there is a contract, a signed one is only signed again, and a signature bears a date not after today |
| `RecruitmentContracts.ContractMoves` | app/modules/recruitment_engage_staff.py:979-1012 | an accepted one puts the contract in the state asked for unless it is behind; a first signature writes its date and sets the signature stage, a first remittance its moment; sharing follows when sent; nothing else changes |
| `RecruitmentContracts.PrepareAccepted` | app/modules/recruitment_engage_staff.py:918-941 | a contract is prepared exactly after a favourable decision told, for a society, with consistent dates, while it is not signed |
| `RecruitmentContracts.PrepareMoves` | app/modules/recruitment_engage_staff.py:918-948 | preparing writes the terms on the contract there is, or on a new one, and raises the stage to the contract |
| `RecruitmentContracts.ContractTells` | app/modules/recruitment_engage_staff.py:918-1012 | in every run from filing: a contract exists exactly when terms were written and holds the last ones; it is signed exactly when a signature was accepted, on its date; remitted exactly when it was remitted and not signed |
| `RecruitmentEffects.WithdrawMoves` | app/modules/recruitment_engage_public.py:343-359 | a withdrawal is accepted exactly until a decision was told; the first is written, shown, and cancels every interview not over with its document |
| `RecruitmentEffects.ConfirmMoves` | app/modules/recruitment_engage_public.py:182-195 | a confirmation is written exactly for a proposed interview not past, in its current version |
| `RecruitmentEffects.ViewMoves` | app/modules/recruitment_engage_public.py:153-162 | looking at an interview marks its current version as seen, and nothing else |
| `RecruitmentEffects.CancelMoves` | app/modules/recruitment_engage_staff.py:727-745 | cancelling ends a draft, or an interview in force with its live document, and leaves one that is over |
| `RecruitmentEffects.ArriveMoves` | app/modules/recruitment_engage_staff.py:831-849 | an arrival is written exactly once, for an interview in force, on its day in Algiers, from its current version |
| `RecruitmentEffects.OutcomeMoves` | app/modules/recruitment_engage_staff.py:852-872 | a presence or an absence is recorded exactly when the interview was sent, not cancelled and held, an absence not after an arrival, marks acceptable; a presence raises the stage |
| `RecruitmentEffects.ProcessAccepted` | app/modules/recruitment_engage_staff.py:320-363 | a request on the application is accepted exactly under the stated conditions on withdrawal, decision, communication and stage |
| `RecruitmentEffects.ProcessMoves` | app/modules/recruitment_engage_staff.py:320-373 | what an accepted one leaves: decision, stage, moment told, what the candidate sees, follow-up, and nothing else |
| `PushRuns.RetriedMoves` | app/modules/recruitment_push_worker.py:65-71 | a retried row keeps its attempts and its data; it ends exactly at four attempts, and otherwise is due again fifteen seconds to five minutes later |
| `PushRuns.RejectedMoves` | app/modules/recruitment_push_worker.py:74-91 | a rejected row fails unless its rate was exceeded and a try is left; attempts are kept |
| `PushWorker.Worker.Dispatch` | app/modules/recruitment_push_worker.py:94-153 | the loops leave each row and the returned number as specified row by row, the exception handler included |
| `PushWorker.Worker.Select` | app/modules/recruitment_push_worker.py:112-126 | rows to be dropped are dropped, the others counted and kept in order |
| `PushWorker.Worker.ReadTickets` | app/modules/recruitment_push_worker.py:134-143 | tickets are read in order up to the first that raises |
| `PushWorker.Worker.Recover` | app/modules/recruitment_push_worker.py:144-151 | after an exception every row that was sent is retried or failed, settled or not |
| `PushWorker.Worker.Collect` | app/modules/recruitment_push_worker.py:156-181 | every due row follows its receipt, or nothing is kept when one receipt raises |
| `PushWorker.Worker.Enqueue` | app/modules/recruitment_push_worker.py:35-52 | one row is added per device that has none for the notification |
| `PushQueue.ReportIsExact` | app/modules/recruitment_push_worker.py:127-153 | the number returned is the number of rows moved to accepted if and only if no ticket was taken before a ticket that raises |
| `PushQueue.ReportTooMany` | app/modules/recruitment_push_worker.py:127-153 | a batch that reports one accepted row and leaves none |
| `PushRuns.RunKeeps` | app/modules/recruitment_push_worker.py:35-181 | the invariant of the queue holds over every run, workers that die after their call included |
| `PushRuns.FewSendings` | app/modules/recruitment_push_worker.py:65-71 | the sendings of a row are its attempts plus one per worker that died between its call and its commit, so at most four plus those; fewer while it is pending |
| `PushRuns.FiveSendings` | app/modules/recruitment_push_worker.py:65-71 | a run with one such death in which a row is sent five times |
| `PushReceipts.EndsExactly` | app/modules/recruitment_push_worker.py:156-181 | a collection ends an accepted row it picks, or sends it again, if and only if no receipt picked with it has a list or an object for its detail, and the row has a receipt or is twenty-three hours old |
| `PushReceipts.NeverEnds` | app/modules/recruitment_push_worker.py:156-181 | for any number of collections, a run in which each fails on such a receipt and the row stays accepted and due, past twenty-three hours |
| `PushReceipts.CollectedExactly` | app/modules/recruitment_push_worker.py:156-181 | a row of a collection that does not raise is accepted by the provider without error exactly on an ok receipt, lost exactly without one from twenty-three hours on, failed or sent again exactly as its refusal says, and otherwise due in five minutes |
| `PushReceipts.CollectForgets` | app/modules/recruitment_push_worker.py:74-181 | the devices a collection forgets are exactly those refused as no longer registered; rows that were not picked keep the rest |
| `PushDispatch.EnqueuedExactly` | app/modules/recruitment_push_worker.py:35-52 | every target device has a row; a new one is pending, due now and never sent, for a device that had none; the others stay |
| `PushDispatch.DropsExactly` | app/modules/recruitment_push_worker.py:112-121 | a row whose device may not be told is skipped, one a day old fails, unsent |
| `PushDispatch.RetriesExactly` | app/modules/recruitment_push_worker.py:144-151 | without an answer, or when a ticket raises, every row sent is tried again in its delay up to four times; a refusal of the batch fails them all |
| `PushDispatch.DispatchedExactly` | app/modules/recruitment_push_worker.py:131-143 | when the reply can be read each row follows its own ticket, the one at the number of rows sent before it |
| `PushDispatch.DispatchForgets` | app/modules/recruitment_push_worker.py:74-143 | the devices a batch forgets are exactly those refused as no longer registered before any ticket raises |
| `PushRuns.OneRowPerDevice` | app/modules/recruitment_push_worker.py:45-52 | never two rows for one notification and device |
| `PushRuns.ChangesAreFew` | app/modules/recruitment_push_worker.py:65-181 | every change of a row spends 2 x (4 - attempts) + [accepted] or ends it: nine changes at most, none once ended |
| `GuideGeometry.Centred` | app/static/pointeur-borne.js:145-160 | circle and square are centred and neither clamp changes anything |
| `GuideGeometry.CropInVideo` | app/static/pointeur-borne.js:145-160 | the square lies inside the video |
| `GuideGeometry.CropIsWhatIsShown` | app/static/pointeur-borne.js:145-160 | a point of the video is cut out exactly when its image on screen, mirrored or not, is in the bounding square of the circle |
| `GuideGeometry.CircleVisible` | app/static/pointeur-borne.js:145-160 | the circle is wholly on the visible video exactly when the ratio is at most one |
| `GuideGeometry.ScaleFits` | app/static/pointeur-borne.js:145-160 | contained, the whole video is in the element and fills one side; covering, it fills the element and one side exactly |
| `GuideGeometry.DiameterIs` | app/static/pointeur-borne.js:145-160 | the diameter is its ratio of the shorter visible side |
| `FaceRunner.RunKeeps` | app/static/pointeur-facial.js:175-283 | the invariant of the page holds over every run |
| `FaceRunner.PostedOnce` | app/static/pointeur-facial.js:228-232 | a burst is posted to recognition at most once over a whole run |
| `FaceRunner.OneRequestAtATime` | app/static/pointeur-facial.js:222-245 | a runner never waits for two requests |
| `FaceRunner.TimerFindsFree` | app/static/pointeur-facial.js:192-194 | a timer only ever fires for a free runner that is not stopped |
| `FaceRunner.OneLiveRunner` | app/static/pointeur-facial.js:175-190 | a terminal has at most one runner that is not stopped |
| `FaceRunner.UnknownIsOnlyChecked` | app/static/pointeur-facial.js:196-230 | until one of its requests is answered, a runner with an unanswered burst keeps it and asks only for its status |
| `FaceLosses.TriesExactly` | app/static/pointeur-facial.js:219-232 | a burst is posted exactly by a timer that finds its runner free, running, not cooling and with nothing to check |
| `FaceLosses.AsksBeforeTrying` | app/static/pointeur-facial.js:196-245 | in every run, a runner posts nothing while one of its bursts was lost and not asked about |
| `FaceLosses.TriesUnasked` | app/static/pointeur-facial.js:184-245 | in every run, a terminal posts a new burst with a lost one not asked about if and only if a runner of it that was stopped left one |
| `FaceLosses.LossForgotten` | app/static/pointeur-facial.js:184-190 | a run that loses a burst, stops the terminal and starts it again: the next tick posts another |
| `FaceLoop.LoopGoesOn` | app/static/pointeur-facial.js:192-245 | in every run, a runner of the running page that is not stopped and of the present generation either waits for an answer or has its timer set, and a busy one has exactly one request in flight |
| `FaceLoop.AsksExactly` | app/static/pointeur-facial.js:219-235 | a request goes out exactly when a free runner wakes and is not cooling: a check of its unknown burst, else a posting |
| `FaceLoop.EndsExactly` | app/static/pointeur-facial.js:236-276 | the end of a request frees its runner, sets its timer exactly when it serves and is not refused, stops it on a refusal, and says what it does not know |
| `FaceLoop.StartsExactly` | app/static/pointeur-facial.js:175-182 | starting a terminal without runner adds one, whose timer is set exactly when the page runs |
| `FaceLoop.StopsExactly` | app/static/pointeur-facial.js:184-190 | stopping a terminal stops its runner, stopping the page every one |
| `FacePage.Facial.Tick` | app/static/pointeur-facial.js:219-245 | one tick, as the step function says |
| `FacePage.Facial.Finish` | app/static/pointeur-facial.js:229-276 | one answer or error, as the step function says |
| `FacePage.Facial.VerifyNow` | app/static/pointeur-facial.js:278-283 | as the step function says |
| `FacePage.Facial.StartRunner` | app/static/pointeur-facial.js:175-182 | as the step function says |
| `FacePage.Facial.StopRunner` | app/static/pointeur-facial.js:184-190 | as the step function says |
| `FacePage.Facial.Stop` | app/static/pointeur-facial.js:561-576 | the loop stops every active runner and no other |
| `EmployeeCodes.GenerateCodes` | scripts/renumber_employee_codes.py:52-73 | the nested loops return the first free codes of the series, or the error |
| `EmployeeCodes.EnoughFree` | scripts/renumber_employee_codes.py:55-73 | the second capacity error never happens, for any set of used codes |
| `EmployeeCodes.GeneratedAre` | scripts/renumber_employee_codes.py:52-73 | for one employee or more it succeeds exactly when the first test passes, with that many distinct unused codes of the series |
| `EmployeeCodes.NoneAskedAllReturned` | scripts/renumber_employee_codes.py:52-73 | asked for none it returns every free code |
| `Renumbering.BuildAll` | scripts/renumber_employee_codes.py:76-105 | the grouping and numbering loops compute the specified changes |
| `RenumberingFacts.ChangesAreSound` | scripts/renumber_employee_codes.py:76-105 | every employee gets exactly one code, of its series, all distinct between societies sharing letters; within a society the changes are in the order of names and their codes in the order of the series |
| `RenumberingFacts.CodesRiseWithNames` | scripts/renumber_employee_codes.py:76-105 | of two employees of one society the first by name has the lower code of the series |
| `RenumberingCodes.NamesDecide` | scripts/renumber_employee_codes.py:29-34 | of two employees of a society, the one with the lower last name, then first name, then number has the lower code, by letter then number |
| `RenumberingCodes.CodesSpelled` | app/modules/drh/service.py:1582-1592 | every code given out is a letter of its society followed by a number from 01 to 200, which reads back |
| `RenumberingCodes.KnownGetLowest` | scripts/renumber_employee_codes.py:76-105 | the employees of a known society have the lowest codes of their series, whatever the other societies have |
| `RenumberingCodes.GeneratedFirst` | scripts/renumber_employee_codes.py:52-73 | a free code that stands before one given out is given out too |
| `RenumberingFacts.BuildSucceeds` | scripts/renumber_employee_codes.py:52-105 | it succeeds if and only if the four known societies have at most 600, 400, 200 and 200 employees and there are at most 5200 in all |
| `CodeUpdate.ApplyChanges` | scripts/renumber_employee_codes.py:123-140 | the two passes leave every listed employee with its new code and the others unchanged; when the table is clear, codes are unique after each of the writes, two per employee that changes |
| `CodeUpdate.UniqueThroughout` | scripts/renumber_employee_codes.py:123-140 | codes stay unique after every single write if and only if nobody holds the temporary code of another when it is written and nobody left out holds a code given out |
| `CodeUpdate.BuiltAreProper` | scripts/renumber_employee_codes.py:76-140 | the codes that are built differ from one another and from every temporary code |
| `CodeUpdate.ByIdHas` | scripts/renumber_employee_codes.py:123-137 | every change that was built is the one written, employees having different numbers |
| `Calendar.MonthsBeforeIs` | app/modules/recruitment_retention.py:45-51 | defined exactly within the years of a date; a valid date of the month counted back, on the same day or the last one |
| `Calendar.MonthsBeforeMonotone` | app/modules/recruitment_retention.py:45-51 | an earlier day never gives a later one |
| `Calendar.MonthsBackAndForth` | app/modules/recruitment_retention.py:45-67 | going back and forth returns to the day exactly when it was not clamped |
| `Calendar.OrdinalOrders` | app/modules/recruitment_retention.py:45-51 | comparing dates is comparing day numbers, the numbers used to measure months |
| `Retention.ListedWhenDue` | app/modules/recruitment_retention.py:65-98 | a dossier passes the cutoff test exactly when its displayed due date has come, except a 29 February on that very day |
| `Retention.ListedIsDue` | app/modules/recruitment_retention.py:65-98 | what is listed is due; what is not is due today at the earliest, and today only for a 29 February |
| `Retention.LeapDayListedLate` | app/modules/recruitment_retention.py:65-98 | a dossier of 29 February 2024 displayed as due on 28 February 2026 and not listed that day |
| `Retention.ListedHasDue` | app/modules/recruitment_retention.py:65-67 | a listed dossier always has a due date to display, December 9999 aside |
| `Retention.Dossiers` | app/modules/recruitment_retention.py:146-172 | the walk returns the three lists as classified, truncated, or fails when a due date cannot be built |
| `Retention.EverythingListedIsDue` | app/modules/recruitment_retention.py:146-172 | every entry displays its own due date, already reached |
| `Retention.NothingLost` | app/modules/recruitment_retention.py:146-172 | every dossier goes to exactly one place |
| `Retention.ClassifiedExactly` | app/modules/recruitment_retention.py:146-172 | a dossier is listed as departed exactly for a recruited person whose employee left, by the first recorded exit date; as declined exactly for an unfavourable advice no application tells, by its date; undated exactly when that date is missing |
| `Retention.DepartedExactly` | app/modules/recruitment_retention.py:146-172 | the departed list holds exactly those dossiers, with the date and the day their two years are over |
| `Retention.DeclinedExactly` | app/modules/recruitment_retention.py:146-172 | so does the declined list |
| `Retention.UndatedExactly` | app/modules/recruitment_retention.py:146-172 | the undated list holds exactly those without their date |
| `Retention.ListsInOrder` | app/modules/recruitment_retention.py:146-172 | the lists follow the order of the dossiers, each once |
| `FailureCounter.Limiter.RecordFailure` | app/core/rate_limit.py:41-48 | returns the young dates of the key plus the new one, and leaves the table pruned |
| `FailureCounter.Limiter.FailureCount` | app/core/rate_limit.py:30-38 | returns the number of young dates of the key and keeps only those |
| `FailureCounter.Limiter.Prune` | app/core/rate_limit.py:18-27 | the loop keeps exactly the young dates of every key |
| `FailureCounter.PrunedIsYoung` | app/core/rate_limit.py:18-27 | after a cleaning every key left has a date that still counts |
| `FailureCounter.KeptExactly` | app/core/rate_limit.py:24-44 | cleaning keeps every date younger than the window as often as it was there, and no other |
| `FailureCounter.TableHolds` | app/core/rate_limit.py:18-53 | after any calls with any windows, the dates held for a key are those of its failures since its last clearing that were young enough for every later call on the key and for every cleaning of the whole table |
| `FailureCounter.CountsExactly` | app/core/rate_limit.py:18-53 | each call with its own window (a recording with an empty one aside): the number returned is the number of failures of the key since its last clearing younger than the window of the call, if and only if none of these was too old for an earlier call on the key or for a cleaning of the whole table by any key |
| `FailureCounter.WiderWindowsAreHarmless` | app/core/rate_limit.py:18-53 | the number is exact when earlier calls on the key, and calls that cleaned the table, had no shorter window |
| `FailureCounter.EmptyWindowCountsOne` | app/core/rate_limit.py:41-48 | a recording with an empty window returns one, although nothing is younger than that window |
| `FailureCounter.OtherKeyForgets` | app/core/rate_limit.py:18-48 | each key with one window of its own: with ten thousand keys in the table, another key of a shorter window makes a failure of this key be forgotten |

## Left out

- The poll and acknowledge protocol of the old SMS gateway, which is exclusive with the modelled one: the delivery claims are about runs without it.
- Cryptography: digests are the values they hide, a ciphertext is present or not, and drawn identifiers and tokens are inputs, assumed new where a lemma says so.
- Normalisation of phone numbers and of society names, and the trimming of interview fields: inputs are taken normalised.
- The regular-expression pass that removes casts before the canonicaliser, and Python's `repr`: any injective sort key stands for it.
- The date order and limit by which one tracking or dispatch pass picks rows, in whole runs: there any subset may be picked; the service methods state the order and the limit.
- HTTP routing, forms, permissions, society scope, audit and event logs, notification texts, e-mail, PDF and QR drawing.
- Several applications at once, documents, notes, messages, and the transfer to the personnel department: whether the employee's file exists is an input.
- Convocations sent before versions existed: runs start from an application just filed.
- Notification of the candidate and the wake-up of the push worker: enqueueing is an event of its own.
- The row limit of 100 and the order of a push batch: any due rows may be picked, in any order.
- The date-ordered lists of refused applications and inactive accounts: same cutoff test as the modelled walk.
- Rendering, camera and polling of the terminals, and several pages at once; a runner's cool-down is an input of each tick.
- Floating-point rounding in the capture circle, which is over the reals.
- Rows of interviews and challenges are values in a field of their service object, not objects: aliasing between two sessions of one process is not modelled.
- SmsDelivery.OneSmsPerChallenge: relies on the gateway refusing an identifier it already holds (app/modules/recruitment_smsgate.py:109-126) and on new identifiers per request.
- FaceRunner.PostedOnce: identifiers drawn by the page are assumed new.
- OrderOnly.CanonicalOfPrinted: is about the form the database prints (balanced terms, groups inside groups in parentheses, values separated by a comma and a blank). A value is a text: the order inside a value that is itself a list is not examined.
