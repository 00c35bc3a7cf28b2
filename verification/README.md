# OubliePas: a verified model of the schedule, the reminders and the accounts

OubliePas tracks subscriptions and bills. This project models, in Dafny 4.11, the parts
of its backend whose correctness is a matter of dates and of state kept between
requests, and proves what they promise. `dafny verify dfyconfig.toml` checks it.

| Component | Files |
|---|---|
| The calendar and the schedule of a commitment | `Calendar.dfy`, `Schedule.dfy` |
| The tables, the occurrence table and its changes | `Records.dfy`, `Occurrences.dfy`, `Evolution.dfy`, `Repository.dfy` |
| Reminder windows and one pass of reminders | `Windows.dfy`, `Reminders.dfy`, `ReminderSending.dfy` |
| Runs of the reminder protocol and the daily job | `Recovery.dfy`, `Daily.dfy`, `ReminderRuns.dfy`, `DateRuns.dfy`, `ReplayMargins.dfy` |
| Refresh tokens | `Tokens.dfy` |
| One-time codes and the login lockout | `Throttle.dfy`, `Codes.dfy`, `Accounts.dfy` |
| The ceiling, the batch change of status, the trash | `Commitments.dfy`, `Ceiling.dfy`, `BatchGreedy.dfy`, `CommitmentService.dfy` |
| The dashboard totals | `Dashboard.dfy` |

## How it is modelled

- A date is its day number in the proleptic Gregorian calendar (clause 3.2.1 of ISO
  8601:2004), an instant a number of microseconds, an amount a number of cents.
- A table is a map with its primary key; an occurrence row is keyed by the pair its
  unique constraint names and carries the identifier its log lines refer to.
  `Db.Sound` collects the check constraints, the foreign keys and the freshness of
  identifiers, and every operation is proved to keep it.
- Services and repositories that update tables are classes whose methods are proved
  against functions of the tables; the laws are proved about those functions and about
  runs of them. Requests and passes are taken one at a time.
- A zone is any offset from UTC-12 to UTC+14 at the instant of the pass. Which
  deliveries fail, the clock readings, the guesses and the digits of codes are inputs.
- A delivery, its log lines and its commit are one step. A push to an account without a
  device is logged as delivered, as the program does, so claims about push are about
  recorded deliveries.

## Where a property needs a condition

- A reminder goes out once per occurrence row as long as no account reads a pass on a day
  more than 15 days behind the latest purge of the log, and this margin is exact
  (`MarginIsExact`). On the server's day it leaves 14 days for a pass at any instant and
  15 for one that starts at noon, where nobody is a day behind (`ReplayDaysAreExact`).
- An action is chosen on the server's day and opened on the person's. The two agree
  unless a deadline falls between them (`ActionsInEveryZone`). From UTC+12 on the person
  is a day ahead at noon, so a trial that ended yesterday for the person hides an open
  cancellation window for a day (`TrialMasksCancellation`); the trial's own action was
  due the day before (`MaskedWasWarned`).
- Generation runs on the server's day too. The row of an open cancellation window is
  there in time except for an owner a day ahead whose date is 91 days off
  (`CancellationIsGenerated`, `GenerationIsOutrun`).
- The 90-day bound on actions covers a whole trial window if and only if the first due
  date is at most 90 days after the window opens (`TrialCoverage`). It always covers a
  cancellation window.
- A run of generations leaves no gap if and only if no scheduled date falls between one
  horizon and the next generation's day (`ForwardRuns`).
- Purging tokens changes no answer if and only if the grace is a day or more
  (`PurgeIsUnobservable`).

The repository's README says of the reminder log that a replayed past date sends nothing.
A replay within the margins above repeats nothing already delivered (`AtMostOnce`); it
does send what was due on that day and whose line was never closed (`SendsWhatIsOpen`),
for instance for a row written since (`ReplaySendsNew`). The README also says that the
floor of the daily generation is the owner's day; the daily job passes the server's day,
and the model follows the code.

## Model

| member | source | states |
|---|---|---|
| Calendar.OrdinalCountsDays | services/commitments/occurrence_generator.py:28-38 | day numbers follow the calendar one by one from 0001-01-01, leap years included: the meaning of the dates the program computes with |
| Calendar.OrderIsChronological | services/commitments/occurrence_generator.py:52-83 | comparing two day numbers is comparing the dates field by field |
| Calendar.CalendarRoundTrip | services/commitments/occurrence_generator.py:28-32 | reading a date from its number and numbering it again are inverse |
| Calendar.ClosedForm | services/commitments/occurrence_generator.py:28-32 | the number of a date is the days of the years before it, leap years by the rule of 4, 100 and 400, of the months before it, and its own: the whole calendar in one formula |
| Schedule.MonthsLater | services/commitments/occurrence_generator.py:28-32 | adding months lands in the month that many months later, on the anchor's day or on the last day of a shorter month, for any anchor and any count |
| Schedule.DatesKeepTheDay | services/commitments/occurrence_generator.py:35-38 | the i-th date is i weeks after the start, or i, 3i or 12i months after it on the start's own day, which a shorter month only borrows |
| Schedule.Gap | services/commitments/occurrence_generator.py:8-38 | two due dates in a row are at least a week apart and at most 7, 31, 92 or 366 days, for every anchor day, clamping and leap years included |
| Schedule.PeriodsAreTight | services/commitments/occurrence_generator.py:11 | the bounds 31, 92 and 366 are each reached by some rule, so no smaller constant would do |
| Schedule.FirstIndexIsTight | services/commitments/occurrence_generator.py:41-49 | every date before the first index is below the floor and every date from two indices further on is not: at most two dates are computed in vain |
| Schedule.JumpLosesNothing | services/commitments/occurrence_generator.py:41-49 | starting at the first index gives the same dates as enumerating from zero |
| Schedule.OccurrenceDates | services/commitments/occurrence_generator.py:52-83 | the loop with its jump, its two breaks and its cap terminates and returns the plain enumeration cut at the cap, or the single date of a one-off |
| Schedule.CappedAtSixty | services/commitments/occurrence_generator.py:12 | of a recurring rule the first sixty dates of the window are returned, or all of them if there are no more |
| Schedule.WindowIsExact | services/commitments/occurrence_generator.py:52-83 | the enumeration is strictly increasing and holds exactly the scheduled dates between floor and horizon, within the term |
| Schedule.OneOffWindow | services/commitments/occurrence_generator.py:60-70 | a one-off commitment has its one date, within its term and up to the horizon, and ignores the floor: an invoice dated yesterday is written |
| Schedule.NextDateWithin | services/commitments/occurrence_generator.py:11-38 | from any day on or after some due date, another one comes within one period |
| Schedule.CapNeverCuts | services/commitments/occurrence_generator.py:12-21 | the cap of 60 never truncates the window the generator asks for |
| Schedule.GeneratedWindow | services/commitments/occurrence_generator.py:90-106 | the rows written on a day are exactly the scheduled dates up to that frequency's horizon |
| Schedule.WrittenOn | services/commitments/occurrence_generator.py:15-21 | what the generator asks for on a day, for every frequency: the scheduled dates up to 90, 122 or 396 days ahead, from that day on unless the rule is a one-off |
| Schedule.AlwaysADateAhead | services/commitments/occurrence_generator.py:15-21 | an open-ended commitment that has started has a date in its window, and still has one after up to 30 missed days |
| Occurrences.AddOccurrencesExact | repositories/commitment_repository.py:185-206 | an insertion adds a pending row at each free date, keeps every row already there and gives fresh identifiers |
| Occurrences.RescheduleIsExact | services/commitments/occurrence_generator.py:116-119 | rescheduling keeps settled and past rows as they were; its other rows are exactly the scheduled dates still free, pending at the new amount; a commitment that is not active keeps no pending row from that day on |
| Occurrences.RescheduledDates | services/commitments/occurrence_generator.py:116-119 | by date: after a rescheduling a commitment has the rows kept and, while it is active, those its rule falls on, a past one-off included |
| Occurrences.RescheduleTwiceIsOnce | services/commitments/occurrence_generator.py:116-119 | a second rescheduling on the same day changes no date, status or amount |
| Occurrences.RunIsExact | services/commitments/occurrence_generator.py:90-114 | after any run of generations and settlements the dates of an active recurring commitment are those it had and those in reach of some generation, each once |
| Occurrences.ForwardRuns | services/commitments/occurrence_generator.py:111-127 | generations on days that never go back leave the whole schedule from the first day to the last horizon if and only if no scheduled date falls between one horizon and the next day |
| Occurrences.CloseGenerationsLeaveNoGap | services/commitments/occurrence_generator.py:111-127 | so they do whenever they are at most a horizon and a day apart |
| Evolution.TableRunEvolves | services/commitments/occurrence_generator.py:90-119 | any run of generations and settlements of a commitment keeps identifiers and log lines of its rows and gives fresh ones to the rows that appear, so it is a change the reminder runs allow |
| Evolution.SyncAllActiveExact | services/commitments/occurrence_generator.py:121-127 | the daily generation fills in the window of every active, live commitment, adds nothing else and changes no row |
| Repository.CommitmentRepository.AddOccurrences | repositories/commitment_repository.py:185-206 | the row-by-row insertion on the table is the insertion specified, and returns the number of rows created |
| Repository.OccurrenceGenerator.SyncAllActive | services/commitments/occurrence_generator.py:121-127 | the loop over active commitments leaves the table the daily generation specifies |
| Clock.OneDayApart | core/clock.py:54-61 | a zone's date holds from midnight to midnight of its own clock; for any instant and any offset from -12 to +14 hours, a person's date is within a day of the server's |
| ReminderWindow.DueDays | services/notifications/reminder_window.py:42-54 | a notice is due exactly from the commitment's own lead time to the due date, an overdue reminder exactly from 3 to 30 days after it |
| ActionWindows.ChoosesTightest | services/commitments/action_window.py:46-59 | the window chosen is the tightest whose deadline has not passed, a cancellation winning a tie; none is chosen only when none is left |
| ActionWindows.ChosenByColumns | services/commitments/action_window.py:26-59 | the chosen window from the columns: a trial only for the first due date, open from the lead time or three days before its end; a cancellation from the lead time before the last day to cancel; the earlier deadline not passed, a cancellation on a tie |
| ActionWindows.TrialCoverage | services/commitments/action_window.py:26-33 | the action bounds hold on every day of a trial window if and only if the start is at most 90 days after it opens; a trial ending at most 60 days before the start always is |
| Reminders.WideQueryLosesNothing | repositories/commitment_repository.py:444-494 | for notices and overdue reminders, filtering the rows of the wide query is filtering all unreminded rows, for every instant and zone |
| Reminders.RemindedExactly | repositories/commitment_repository.py:444-512 | who is reminded, column by column: a pending row not yet logged, of an active, live, reminded commitment, whose owner is active, verified and has the channel's and the family's switch on, on the family's days in the owner's calendar, exactly when the delivery does not fail; a settled row never |
| Reminders.ActionsInEveryZone | services/notifications/reminder_service.py:102-190 | in every zone an action is sent exactly when its tightest live window is open on the person's own day, unless a deadline falls between the server's day and the person's: then an account ahead is sent nothing that day, and an account behind is sent the window that is left, if that one is open |
| Reminders.AfterPass | services/notifications/reminder_service.py:199-250 | a line is in the log after a whole pass exactly when it was there or some family writes it, judged on the log the pass started from: families and channels do not disturb each other except for the notices a trial action closes |
| Recovery.CleanPassRecovers | services/notifications/reminder_service.py:151-173 | after any passes at an instant with any deliveries failing, a clean pass at that instant leaves exactly the log one clean pass would have left |
| ReminderRuns.StepKeepsInv | services/notifications/reminder_service.py:115-180 | every purge, dispatch, reopening and change of the tables keeps closed lines in the log or too old to matter, and each delivery accounted for |
| ReminderRuns.DeliveredWasOpen | repositories/commitment_repository.py:514-524 | a dispatch that an account reads on a day at most 15 days behind the latest purge reaches no row of that account whose lines the purge removed |
| ReminderRuns.AtMostOnce | services/notifications/reminder_service.py:115-180 | in any run in which no account's own day is more than 15 days behind the latest purge, each row's reminder of a family is delivered on a channel at most once, plus once for each time an edit reopened it; notices and overdue reminders at most once |
| ReplayMargins.SendsWhatIsOpen | services/notifications/reminder_service.py:115-180 | what a replayed date sends: exactly the notices and overdue reminders due on each account's day whose line was never closed in the whole run, neither by a delivery nor by a trial action, whatever the log has forgotten since |
| ReplayMargins.ReplaySendsNew | jobs/daily.py:58-82 | a replay may send something new: a commitment that started on day t and was created the day after has no row for t; the noon replay of day t writes it and its notice is in the log at the end |
| ReplayMargins.LoggedLineRepeats | models/db/commitments_db.py:35-39 | after a purge, a reminder already logged goes out again if and only if its line was purged and it is due on the account's day; some due date does so if and only if that day is more than 15 days behind the purge (45 for a notice) |
| ReplayMargins.JobOnOverdue | jobs/daily.py:67-82 | what one daily job does with the email of an overdue row: its line is kept unless the row is past the purge date, and the reminder goes out exactly when it is due on the account's day and the line is not there |
| ReplayMargins.LateReplayRepeats | models/db/commitments_db.py:35-39 | for any pass that some account reads more than 15 days behind a purge, three daily jobs end with it and deliver one overdue reminder twice: the first sends it in time, the second purges its line, the third is that pass |
| ReplayMargins.MarginIsExact | models/db/commitments_db.py:35-39 | no run within a margin of the accounts' own days repeats a notice or an overdue reminder if and only if the margin is at most the 15 days of the constants |
| ReplayMargins.ReplayDaysAreExact | jobs/daily.py:58-64 | counted on the server's day, and pass by pass, no run repeats one if and only if a pass may be at most 14 days behind, and at most 15 when it starts at noon as a replayed job does |
| DateRuns.OncePerRowOfDate | services/commitments/occurrence_generator.py:116-119 | by due date rather than by row: over any run a date's reminder goes out at most once for each row the date has had, a rescheduled one being a new row, and once more for each reopening |
| ReminderRuns.NoNoticeAfterTrialAction | services/notifications/reminder_service.py:170-172 | after an action for a trial is delivered on a channel no notice of that row follows on it, in that pass or later |
| ReplayMargins.TrialActionAlone | services/notifications/reminder_service.py:218-238 | actions go out before notices: a pass that delivers a trial's action on a channel does not deliver that row's notice on it and leaves it logged |
| ReminderRuns.CaughtUpExactlyOnce | services/notifications/reminder_window.py:42-54 | while a row and its settings stay as they are, its notice or overdue reminder is delivered exactly once if some dispatch falls on a day of its window and never otherwise |
| ReminderRuns.DailyJobIsARun | jobs/daily.py:58-84 | the daily job is such a run, in its own order: purge and generate, then actions, notices and overdue reminders on each channel |
| Daily.PrepareKeeps | jobs/daily.py:67-74 | purging and generating lose no log line of a row due within 45 days and give new rows fresh identifiers |
| Daily.JobKeeps | jobs/daily.py:67-82 | a whole day's job drops the old trash and changes no other commitment, no account and no row of a commitment that stays |
| Daily.CancellationIsGenerated | services/commitments/occurrence_generator.py:15-21 | on every day a scheduled date's cancellation window is open for its owner, in every zone, the action query reaches it, and the row is in the table before sending if and only if it was there already or the date is within the horizon of the server's day; it can only lie beyond it for an owner a day ahead with a date 91 days off |
| Daily.GenerationIsOutrun | services/commitments/occurrence_generator.py:9-21 | that happens: with 60 days of notice and a lead of 30, on the first open day of an account at UTC+13 the job of noon has not written the row |
| Daily.OpenCancellationIsSendable | services/notifications/reminder_service.py:182-190 | in every zone, an open cancellation window is sent if and only if no trial masks it: a tighter trial whose deadline the server has not passed and the person has, or, where the server has passed the cancellation's own deadline, the lack of an open trial |
| Daily.TrialMasksCancellation | services/commitments/action_window.py:46-59 | that happens: on the last day of a trial an account at UTC+13 whose cancellation window is open in both calendars is sent nothing by the job of noon |
| Daily.CancellationIsSentInTime | jobs/daily.py:67-84 | on every day the window is open for its owner, a pending row in the table has its line in the log at the end of the job if and only if it had it before or no trial masks the window |
| Daily.MaskedWasWarned | services/notifications/reminder_service.py:182-190 | a masked day follows one on which the trial's own action was due to the same account for the same row, if the date was within the 90-day bound by then |
| ReminderSending.ReminderService.RemindUser | services/notifications/reminder_service.py:131-180 | one account's rows are refused, filtered, delivered and logged, or counted as failed, all or none |
| ReminderSending.ReminderService.Dispatch | services/notifications/reminder_service.py:115-180 | the loop over accounts leaves exactly the log, the deliveries and the failure count of its specification |
| ReminderSending.NothingFailed | jobs/daily.py:134-135 | the count of failed emails is zero if and only if every email due when the pass started has its line in the log at its end |
| DailyJob.RunDaily | jobs/daily.py:58-135 | on the program's tables the job leaves those of its specification and reports how much it purged, forgot, generated and failed to send; the process fails exactly when an email that was due is missing from the log |
| Tokens.StepKeepsSound | services/authentication/tokens.py:8-21 | in every state a token's signed expiry is never later than its stored expiry, and rows and signatures name the same owner |
| Tokens.RefreshAcceptsExactly | services/authentication/email_password.py:157-189 | a refresh succeeds exactly for a live, unexpired token of an active owner, and trades it for one new live token of that owner, touching no other |
| Tokens.RefusalsAre | services/authentication/email_password.py:157-185 | when a refresh is answered as a replay and when as a disabled account's, by the stored columns; both leave the owner without a live token and every other account as it was, and an invalid token changes nothing |
| Tokens.IssuedIsAccepted | services/authentication/tokens.py:8-21 | a token just issued is accepted from an active owner exactly until its lifetime in days is over |
| Tokens.SwitchDecides | services/authentication/email_password.py:179-185 | a token good in every other way is refused while its owner is disabled and accepted once the owner is enabled again |
| Tokens.StaysLive | services/authentication/email_password.py:157-193 | a live token ends only by its own exchange or sign-out, by a step that ends every session of its owner, or by a purge past its expiry |
| TokenRuns.StepKeepsInv | services/authentication/email_password.py:157-189 | every step keeps at most one live token in each sign-in's chain and every accepted token dead |
| TokenRuns.RotationIsSafe | services/authentication/email_password.py:157-189 | over any run each token is accepted at most once, each sign-in's chain holds at most one live token, and live tokens never outnumber sign-ins |
| TokenRuns.ReplayEndsEverySession | services/authentication/email_password.py:165-170 | presenting a used, unexpired, still stored token is answered as a replay and leaves its owner without a live token until the owner signs in again |
| TokenRuns.EndedUntilSignIn | services/authentication/email_password.py:165-185 | over any run, after a replay, a refresh of a disabled account, a password change or a deletion, the account has no live token until it signs in again, being enabled again included |
| TokenRuns.SignedOutForGood | services/authentication/email_password.py:191-193 | over any run a token signed out is never accepted again |
| TokenPurge.PurgeIsUnobservable | repositories/refresh_token_repository.py:52-58 | a store purged at any times with a grace answers every refresh as a store never purged if and only if the grace is at least a day; the grace of the command line may be any integer |
| TokenPurge.ShortGraceIsObservable | scripts/purge_refresh_tokens.py:20-32 | the other half, by a run from an empty store: signed in, signed out, purged as soon as the row has expired, replayed within the signature's last second |
| TokenService.EmailPasswordAuth.RefreshAccessToken | services/authentication/email_password.py:157-189 | the endpoint's checks in their order give the answer and the store of the specification |
| Throttle.AtMostLimitPerHour | services/emailing/otp_service.py:121-133 | a counter restarted when its last event is an hour old lets at most its limit through in any half-open hour |
| Throttle.BlocksExactly | services/emailing/otp_service.py:121-133 | the counter blocks exactly when as many events as the limit came each less than an hour after the one before and the last less than an hour ago, so it always opens again |
| Codes.OtherKindsUntouched | services/emailing/otp_service.py:69-73 | no request changes the counter or the code of another kind |
| Codes.FailedGuessPersists | services/emailing/otp_service.py:30-45 | up to five guesses, one that is wrong, late or without a code costs one and leaves the codes as they were; after five nothing is compared or written, the right code included |
| Codes.SentCodeMatches | services/emailing/otp_service.py:53-75 | the code accepted is the code sent, for fifteen minutes, and no other |
| Codes.VerificationFlow | services/authentication/email_password.py:117-144 | an account asks for a code and is verified exactly by the digits sent, in time; where no code may be sent nothing changes |
| Codes.ResetFlow | services/user_profile/user_profile.py:115-154 | a reset is done exactly by the digits sent, in time, with a password that is not the old one |
| Codes.EmailChangeFlow | services/user_profile/user_profile.py:156-213 | a new address is pending from its request on and taken exactly by the digits sent, in time, if nobody took it meanwhile |
| Codes.VoidedCodes | services/user_profile/user_profile.py:84-113 | a changed password voids the reset code, a linked address the verification code; without a pending address nothing is confirmed; a disabled account has nothing compared or sent; a first password and the account's switch change only their column |
| Codes.CodeWorksOnce | services/authentication/email_password.py:117-138 | a success spends the code and gives the guesses back, and nothing of that kind is compared again before a new code |
| CodeRuns.StepKeepsInv | services/emailing/otp_service.py:21-45 | every request, an account disabled or a first password set included, keeps the counters bounded and every comparison paid for by a guess of its own code |
| CodeRuns.GuessesAreBounded | services/emailing/otp_service.py:30-36 | over any run at most five guesses are compared with one issued code, at most five times the codes issued for a kind, and no counter passes five |
| CodeRuns.CodesPerHourAreBounded | services/emailing/otp_service.py:121-133 | no half-open hour holds more than five codes sent to an account, all kinds together |
| CodeRuns.SendRefusedExactly | services/emailing/otp_service.py:121-126 | over any run a code is refused exactly when the last five sent to the account came each less than an hour after the one before and the last less than an hour ago |
| Login.StepKeepsInv | services/authentication/email_password.py:65-100 | the lockout counter is the count of wrong passwords since the last correct one, restarted after an hour |
| Login.LockedExactly | services/authentication/email_password.py:65-78 | an account is locked exactly when the last twenty wrong passwords since a correct one came each less than an hour after the one before and the last less than an hour ago; otherwise the password is compared |
| Login.WrongPasswordsPerHour | services/authentication/email_password.py:65-100 | in any half-open hour at most twenty wrong passwords are compared, unless a correct one comes in between |
| Commitments.RefusedExactly | services/commitments/commitment_service.py:162-216 | why an edit is refused: nothing given, not a live line of the account, dates out of order, or an entry into a population of twenty-five |
| Commitments.UpdateEffects | services/commitments/commitment_service.py:194-226 | an edit touches its own line only; rescheduling fields replace its open rows by the new schedule, deadline fields alone clear its action lines, other edits leave rows and log |
| Commitments.UpdatedLine | services/commitments/commitment_service.py:194-226 | the edited line takes what is given and keeps the rest, column by column; if amount, frequency, start, end or status is given its dates are those kept and, while it is active, those its new rule falls on |
| Commitments.CreateWritesWindow | services/commitments/commitment_service.py:138-153 | a new commitment is written with exactly the dates its rule falls on, at its amount and pending |
| Commitments.CreatedUnlessFull | services/commitments/commitment_service.py:138-160 | a creation is refused exactly where twenty-five lines of the type are followed, and changes nothing then |
| Commitments.UpdateEvolves | services/commitments/commitment_service.py:194-226 | an edit keeps the tables sound and is one of the changes the reminder runs allow, followed by a reopening when only deadlines changed |
| Commitments.RestoredExactly | services/commitments/commitment_service.py:272-301 | a restoration is refused exactly when a type something would enter passes fifty, and changes nothing then; otherwise it clears the stamp of the account's named trashed lines |
| Ceiling.UpdateKeepsCeiling | services/commitments/commitment_service.py:162-171 | an edit lets no population grow past the ceiling, whether by unarchiving or by a change of type |
| Ceiling.StepKeepsCeiling | services/commitments/commitment_service.py:155-171 | every step but restoring keeps each account's population of a type at most at the larger of 25 and what it was |
| Ceiling.RestoreKeepsRoof | services/commitments/commitment_service.py:272-301 | a restoration adds every entrant or changes nothing, and never passes 50 |
| Ceiling.RoofHolds | services/commitments/commitment_service.py:155-171 | in every reachable state an account follows at most 50 live commitments of a type |
| Ceiling.TrashLifecycle | repositories/commitment_repository.py:97-183 | a trashed line is gone after the nightly purge exactly if it was trashed before the cutoff, and after its owner empties the trash of its type; lines not named and lines of other accounts fare as without |
| Ceiling.TrashRoundTrip | repositories/commitment_repository.py:152-173 | restoring what was just deleted gives back the very same tables and is never refused |
| BatchGreedy.BatchIsGreedy | services/commitments/commitment_service.py:228-241 | making lines active or paused brings back the first archived lines of each type as named, as many as there is room for, blocks the others, never blocks a line already counted, passes over lines of other accounts and lines already in the status, changes nothing of a line but its status, and puts no line in both lists however often it is named |
| BatchGreedy.ArchivingNeverBlocks | services/commitments/commitment_service.py:228-241 | archiving blocks nothing and changes every named line that was not archived |
| BatchRows.BatchDates | services/commitments/commitment_service.py:228-241 | a batch's effect on the dates: archived lines lose their open ones from that day on, lines made active are given their window, no other line's change |
| CommitmentRequests.CommitmentService.SetStatusMany | services/commitments/commitment_service.py:228-241 | the loop leaves the tables, the changed and the blocked lines of the specification |
| CommitmentRequests.CommitmentService.CountEntrants | services/commitments/commitment_service.py:276-281 | counts for each type the trashed lines that would count again |
| CommitmentRequests.CommitmentService.GuardRestore | services/commitments/commitment_service.py:272-295 | allows exactly the restorations that stay under the roof for each type something enters |
| CommitmentRequests.CommitmentService.Restore | services/commitments/commitment_service.py:297-301 | the refusal precedes the write: an oversized request releases nothing; otherwise the trashed lines named come back and are counted |
| Dashboard.MonthBoundsAreTheMonth | services/commitments/commitment_service.py:78-82 | the bounds hold exactly the days of the reference's year and month |
| Dashboard.EntersTotals | repositories/commitment_repository.py:55-62 | which rows enter each total: the account's, of the calendar month, not of a trashed commitment and not skipped, by type and by category; the paid and the pending ones |
| Dashboard.TotalsAgree | services/commitments/commitment_service.py:370-409 | on any tables the month's total over types equals the sum of its categories and the sum of paid and pending; trashed commitments and skipped rows enter none |
| Dashboard.Summarize | services/commitments/commitment_service.py:370-409 | the month's figures are the totals of its rows and agree with one another; each category of the rows has one line, with its sum and its number of rows |

## Left out

- HTTP routing, schemas beyond their field ranges, cookies, rate limits per address, logging: plumbing around the modelled services.
- PostgreSQL, sessions and the advisory lock: requests and passes are serialised, so nothing is claimed about interleaved ones.
- Password hashing, token signing, hashing and random codes: opaque; hashing is taken as injective, issued tokens as fresh.
- The text, the order and the layout of messages, push encryption, subscriptions and their pruning, object storage and avatars: formatting and foreign libraries.
- The weekly digest and the quota alert: their key makes the same argument as the reminder log.
- Account linking with Google beyond its effect on the verification code and as a sign-in.
- The limit of year 9999 of the host language's dates: years grow without bound here.
- Payment instants and payment dates of a settled row, late lists, upcoming lists and the other counts of the dashboard: short facts about single queries.
- ReminderSending.ReminderService.RemindUser: the counters of skipped rows and of sent messages are not modelled.
- ReminderSending.ReminderService.Dispatch: the counters of skipped rows, of accounts and of each family are not modelled.
- DailyJob.RunDaily: the counters of skipped rows, of accounts reached and of the digest are not in the report.
- Commitments.UpdateEvolves: the message text of a refusal is not modelled, only its kind.
- Codes.EmailChangeFlow: the endpoints also refuse a disabled account before the service is called; that refusal belongs to the routing layer.
- Codes.FailedGuessPersists: takes from core/database.py that the session commits when a request ends in an application error; a crash, which rolls back, is a request that did not happen.
- Dashboard.Summarize: the late, active and upcoming figures and the order of the categories are not modelled.
- Repository.CommitmentRepository.SetOccurrenceStatus: the check of the owner is not modelled.
- Repository.CommitmentRepository.Select: the order of the rows is not modelled.
- CodeRuns.CodesPerHourAreBounded: takes the clock as never going back between two sends to an account.
