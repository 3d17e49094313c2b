# Verified models of the education query gateway

The gateway answers students' timetable and grade queries through a school portal. Under the HTTP surface it contains a
number of small engines, and this project models them and proves what they are there for:

- a compiler from timetable rows to an iCalendar feed (`CalendarTime`, `CalendarConfig`, `ConfigParser`, `ConfigMeaning`,
  `CalendarRules`, `WrittenTimetable`, `WeeklyRuns`, `EventOrder`, `CalendarEvents`, `CalendarMeaning`, `TextEscape`, `LineFold`,
  `CalendarPrinter`, and `CalendarFeed` for the whole way);
- the asynchronous job queue kept in Redis, one call at a time (`JobStore`) and one Redis command at a time (`JobProtocol`), the
  second refining the first (`QueueRefinement`);
- reference-counted locks by key and the PDF cache that lets one request export for all (`KeyedLocks`, `SingleFlight`);
- the token bucket limiter and the sliding log limiter, over one model of an ordered dictionary (`OrderedKeys`,
  `RateLimiter`, `RateExactness`, `SlidingLog`);
- the session store with its index by user (`SessionStore`) and the pool of converter profiles (`ProfilePool`);
- the semaphore whose clients use optimistic Redis transactions (`RedisSemaphore`);
- the rotating query log, its backward chunked reader and the newest-queries window (`LogFiles`, `LogReader`, `StatusWindow`);
- the notice file of revisions shared by several processes, with pruning and compaction (`Notices`, `NoticeRuns`,
  `NoticeChanges`, `NoticeStore`);
- the normaliser of the week parameter (`WeekParam`, `WrittenWeeks`), and the download link and cache key made from it, with the coding of
  queries (`UrlCoding`, `DownloadLink`).

`PyText` holds the few operations of Python strings, sets and integers that the other modules use. `dafny verify dfyconfig.toml`
checks the whole project.

Where the source is a class that changes its fields, the model is a class whose methods are proved against functions on its
abstract value, and the properties are lemmas about those functions and about runs of them. Protocols between processes or
threads are step systems: each action is one indivisible command, and the theorems hold in every state of every run, for any
number of participants. Times in the limiters are exact real numbers; a clock that never goes back is a stated assumption.

## What the proofs found

- A class written `第3-5节` gets the periods 3 and 5 only: the dash never adds the periods between, although the comment at
  app/calendar/rules.py:72-77 lists a range among the accepted forms (`RangeLosesThePeriodBetween`). A written range from a to b
  is read as all of a to b if and only if no period lies between its ends (`RangeIsItsEnds`).
- A class whose periods do not adjoin, such as `第1,3节`, is left to be split by a caller (app/calendar/rules.py:89), but no caller
  does: its one event covers a period exactly if that lies between its first and its last (`CoversWhatLiesBetween`,
  `PeriodBetweenIsCovered`). Its label, too, names the ends only (`LabelReadsBack`).
- The identifier of an event is made of semester, course, weekday, periods, parity and the number of the run in its row. So rows
  that differ only in their weeks, teacher and room get the same identifiers (`OtherWeeksSameUid`), against section 3.8.4.7 of RFC
  5545; two events share one if and only if all of these agree (`UidsAgree`).
- Putting an archived notice back online by an appended line lets a notice that had been pruned from the history appear
  again, and this is the only way it happens while the clock advances (`RunsAreDurable`, with a concrete run in
  `PrunedNoticeResurfaces`). Since the time is read before the lock is taken, archiving an archived notice anew with an older time
  can do the same; `MutationIsDurable` gives the exact condition for every file.
- `iter_recent_lines` promises newest first (app/querylog.py:134) but yields newest first exactly when there is no backup,
  because the highest-numbered, oldest backup is listed first (`NewestFirstWithoutBackups`, with a concrete run in
  `BackupIsReadBeforeTheLast`).
- `ProfilePool._active` counts the profiles in use if and only if no freed profile has been handed out again
  (`ActiveIsExact`), and it can fall below zero if and only if the capacity is at least two (`ActiveCanBeNegative`); no thread
  waits and no limit is broken nevertheless (`PoolSafety`).
- The download link codes its query with `urlencode`, but the request through it does not decode `odd_or_double` and does not turn
  a plus back into a space. So the parities `true` and `"1"` with its quotes are accepted, and the links made from them refused
  (`TruthIsRefused`, `QuotedParityIsRefused`). The link is accepted if and only if the parity is a JSON integer or a text of
  digits and underscores after at most one space (`ParityReadsBack`), and it finds the prewarmed PDF if and only if, besides, the
  semester has no space (`SemesterReadsBack`, `LinkFindsThePrewarmedPdf`).

## Model

| member | source | states |
|---|---|---|
| CalendarConfig.ClockOrder | app/calendar/config.py:98-107 | Comparing two clock texts is comparing the times they show, so the check on texts keeps every period's start before its end |
| CalendarConfig.WindowIsHull | app/calendar/config.py:63-67 | The window of a list of periods contains each defined period and touches both its ends in one; it is missing exactly when none is defined |
| CalendarConfig.WeekdayInjective | app/calendar/config.py:56-61 | In an accepted configuration two day codes with the same weekday are the same code |
| ConfigParser.Fill | app/calendar/config.py:122-130 | The loop over a section yields the dictionary in which a later entry for a key replaces an earlier one, or the first error |
| ConfigParser.ParseConfig | app/calendar/config.py:117-196 | The statement sequence, with its order of checks, computes the parse function |
| ConfigParser.ToDict | app/calendar/config.py:75-95 | Prints every dictionary entry once, in any order, and the scalar members |
| ConfigParser.ParsedIsValid | app/calendar/config.py:117-196 | Every accepted configuration has ordered windows for periods 1 to 30, blocks over defined periods, an injective weekday map, terms that start on a Monday, and offsets 0 to 10 |
| ConfigParser.ValidIsAccepted | app/calendar/config.py:75-196 | Every valid configuration is accepted in its printed form, as itself |
| ConfigParser.AcceptsExactlyTheValid | app/calendar/config.py:117-196 | A configuration is the result for some payload if and only if it is valid and its keys and dates can be written down |
| ConfigParser.PrintParses | app/calendar/config.py:75-95 | Parsing the printed form of an accepted configuration gives the same configuration, whatever the payload it came from |
| ConfigMeaning.FirstErrorCounts | app/calendar/config.py:122-130 | A section is refused exactly if some entry is, and the first such entry is the error |
| ConfigMeaning.LastEntryWins | app/calendar/config.py:122-130 | The last entry for a key is the one in the dictionary |
| ConfigMeaning.DefaultsAre | app/calendar/config.py:117-196 | Only the periods must be given; every other section may be left out and is empty, conflicts are then left to the course, and the version is one |
| ConfigMeaning.WrittenPeriod | app/calendar/config.py:122-130 | A period written under a number has the written times, unless it is written again |
| ConfigMeaning.WrittenTerm | app/calendar/config.py:157-176 | A written term starts on its Monday for twenty weeks without exceptions, as far as it does not say otherwise |
| ConfigMeaning.WrittenWeekday | app/calendar/config.py:148-155 | A weekday written under a code is the one of the configuration, in either case and with blanks around it |
| CalendarRules.MeantWeeksComplete | app/calendar/rules.py:46-58 | A readable week string means only weeks 1 to 99, and the set of meant weeks leaves none out |
| CalendarRules.ReadSegments | app/calendar/rules.py:46-58 | The segment loop reports exactly the first bad segment, and otherwise collects exactly the weeks between the ends of some segment |
| CalendarRules.ParseWeeks | app/calendar/rules.py:34-69 | A week string is refused exactly for a defect the specification names, with that error; otherwise the result lists the meant weeks in ascending order with the parity |
| CalendarRules.PeriodNumbersAreTheWrittenOnes | app/calendar/rules.py:72-91 | The periods of a name are the numbers written before the first 节, each once; a dash adds none |
| CalendarRules.RangeIsItsEnds | app/calendar/rules.py:72-91 | The periods of a written range from a to b are exactly a and b, so they are all of a to b if and only if no number lies between |
| CalendarRules.RangeLosesThePeriodBetween | app/calendar/rules.py:72-91 | The range from 3 to 5 yields 3 and 5 and not 4 |
| CalendarRules.PeriodsAreTheWrittenOnes | app/calendar/rules.py:94-109 | The periods of a row are the written ones whenever there are any and those of its block exactly when there are none; a written period outside a block that has periods is noted, or refused if so configured, and nothing else is, but a row with neither |
| CalendarRules.DayIsOfItsWeek | app/calendar/rules.py:123-138 | In a term that starts on a Monday a day is the named weekday of the named week and of no other |
| WrittenTimetable.StringMeans | app/calendar/rules.py:34-69 | A written list of weeks and ranges, with any separator, the word for week and a mark of parity, means exactly the weeks between the ends of some part that have the parity |
| WrittenTimetable.StringIsAccepted | app/calendar/rules.py:34-69 | It is accepted exactly if every part counts from one and not backwards, none ends after the term, and some week has the parity |
| WrittenTimetable.ListedPeriodsAreRead | app/calendar/rules.py:72-91 | A written list of periods, with anything but digits between them, is read as exactly these, each once |
| CalendarRules.OccurrenceDates | app/calendar/rules.py:127-138 | Fails exactly when some week lies outside the term, and otherwise lists the held days in order: from the first teaching day on and no exception date |
| WeeklyRuns.RunsCutTheDays | app/calendar/ics.py:36-44 | The runs joined are the days, within a run days are seven apart, and no two neighbouring runs could be one |
| WeeklyRuns.RunsAreUnique | app/calendar/ics.py:36-44 | There is only one such division of the days |
| WeeklyRuns.CutWeekly | app/calendar/ics.py:36-44 | The loop yields the maximal weekly runs of the distinct days in order |
| EventOrder.StableSortSorts | app/calendar/ics.py:142 | Events come out by start and summary, each as often as before, and events with equal keys keep their order |
| CalendarEvents.RuleRoundTrip | app/calendar/ics.py:139 | Reading the printed recurrence rule gives the count (section 3.3.10 of RFC 5545) |
| CalendarEvents.RunEventExpands | app/calendar/ics.py:121-141 | Expanding the event of a run by its rule gives the days of the run, and the event starts before it ends |
| CalendarEvents.WeeksTextNamesTheRun | app/calendar/ics.py:146-152 | The printed week range names exactly the consecutive weeks of the run |
| CalendarEvents.AcceptedWeeks | app/calendar/rules.py:61-62 | The weeks of an accepted row lie in the term |
| CalendarEvents.BuildDates | app/calendar/ics.py:100-107 | For an accepted row the weeks become exactly the class days; the error of the date step is never raised |
| CalendarEvents.RowDenotation | app/calendar/ics.py:76-143 | Expanding all events of an accepted row gives exactly the days the row means, each once, in maximal runs, with the times of the window of its written periods, or of its block's if none is written, on one day and start before end |
| CalendarEvents.BuildRow | app/calendar/ics.py:82-141 | One pass of the loop yields the events and the anomalies the specification gives for the row |
| CalendarEvents.BuildEvents | app/calendar/ics.py:76-143 | The whole loop yields the sorted events and all anomalies in order |
| CalendarEvents.AcceptedRows | app/calendar/ics.py:82-106 | A row is accepted exactly if weekday and weeks can be read, some of its periods is defined, and it is in no conflict that is refused; its periods are the written ones, or those of its block if none is written |
| CalendarEvents.TakesInWindow | app/calendar/ics.py:96-109 | The window of an accepted row runs from the earliest start to the latest end of its defined periods |
| CalendarEvents.CalendarDenotation | app/calendar/ics.py:76-143 | A time span on a day is shown by the built calendar if and only if some row is taught there: dated, in no refused conflict, on its weekday in a week it means, from the earliest start to the latest end of its periods |
| CalendarMeaning.ClassDays | app/calendar/ics.py:110-112 | A row is taught on a day exactly if the day is the named weekday, lies in a meant week of the term, and is a teaching day |
| CalendarMeaning.WrittenPeriodIsTaught | app/calendar/rules.py:94-109 | A row that names one defined period is taught exactly in that period, whatever its time code, unless conflicts are skipped and its block has periods but not this one |
| CalendarMeaning.CoversWhatLiesBetween | app/calendar/rules.py:87-91 | The one event of a row covers a period exactly if some of its periods starts no later and some ends no earlier |
| CalendarMeaning.PeriodBetweenIsCovered | app/calendar/rules.py:87-91 | A class in periods 1 and 3 gets one event that covers period 2, which it does not name |
| CalendarMeaning.LabelReadsBack | app/calendar/rules.py:141-148 | Reading the printed label gives the lowest and the highest period, so all periods if and only if there is no other |
| CalendarMeaning.SummaryReadsBack | app/calendar/ics.py:113-130 | The summary gives back the course, and the teacher if there is one |
| CalendarMeaning.EventsTellTheRow | app/calendar/ics.py:113-141 | Every event of an accepted row gives back its course, teacher, room, periods and parity, and the weeks of its own days |
| CalendarMeaning.DescriptionReadsBack | app/calendar/ics.py:121-135 | The description gives back the periods, the room if there is one, the weeks of the run, and the parity if there is one |
| CalendarMeaning.UidsAgree | app/calendar/ics.py:117-129 | As far as the hash keeps keys apart, two events have the same identifier if and only if semester, course code, title, weekday code, periods, parity and the number of the run agree |
| CalendarMeaning.RowUidsDiffer | app/calendar/ics.py:117-129 | The events of one row have different identifiers |
| CalendarMeaning.OtherWeeksSameUid | app/calendar/ics.py:117-129 | Rows that differ only in weeks, teacher and room, with the same parity, get the same identifiers |
| TextEscape.EscapeIsOnePass | app/calendar/ics.py:47-50 | The chain of six replacements equals one character-wise pass, for every text |
| TextEscape.EscapeRoundTrip | app/calendar/ics.py:47-50 | Unescaping by section 3.3.11 of RFC 5545 gives the text with line breaks normalised, and escaped text has no line break |
| TextEscape.NormalBreaksKeeps | app/calendar/ics.py:47-50 | Normalising changes a text exactly when it has a carriage return |
| LineFold.PiecesAreGreedy | app/calendar/ics.py:53-68 | The pieces of a line join to the line, fit their limits, and none could have taken one more character |
| LineFold.Fold | app/calendar/ics.py:53-68 | The loop joins the greedy pieces of 75 octets first and 74 after the leading space |
| LineFold.FoldRoundTrip | app/calendar/ics.py:53-68 | Unfolding by section 3.1 of RFC 5545 gives back the logical lines |
| LineFold.PhysicalLinesFit | app/calendar/ics.py:53-68 | Every physical line has at most 75 octets |
| LineFold.NoCharacterIsSplit | app/calendar/ics.py:53-68 | Cutting the UTF-8 octets at line ends gives the encodings of the physical lines: folding splits no character |
| CalendarPrinter.Render | app/calendar/ics.py:155-202 | The statements of the printer produce the folded lines of the calendar's properties |
| CalendarPrinter.PrintedPropertiesReadBack | app/calendar/ics.py:155-202 | Unfolding and splitting the printed text gives back the properties in order, in lines of at most 75 octets |
| CalendarTime.OrdinalOfCivil | app/calendar/ics.py:71-73 | Counting the days before a date of the Gregorian calendar, leap years included, inverts walking from day to day |
| CalendarTime.StampReadsBack | app/calendar/ics.py:21-21 | Reading the printed text of a moment gives the moment, for every day and minute |
| CalendarPrinter.FieldsReadBack | app/calendar/ics.py:176-200 | Looking up the properties of a printed event, unescaping its texts and reading its times gives its fields, start and end as moments |
| CalendarPrinter.CalendarReadsBack | app/calendar/ics.py:155-202 | Reading the rendered text gives the fields of every event, in order, with line breaks normalised and start and end as moments, and short physical lines |
| CalendarPrinter.ZoneReadsBack | app/calendar/ics.py:161-181 | The rendered text names its zone and puts it eight hours east of UTC all year |
| CalendarFeed.FeedShowsTheTimetable | app/calendar/ics.py:76-202 | With any accepted configuration and any rows, the confirmed events read from the rendered text show a class on a day from one minute to another, by their printed times and rules, if and only if a row is taught there: on its weekday in a week it means, from the earliest start to the latest end of its written periods, or of its block's; they are the built events in order, in lines of at most 75 octets |
| CalendarFeed.FeedShowsTheWrittenPeriod | app/calendar/rules.py:94-109 | A row that names one defined period is shown by the feed on its class days exactly from the start to the end of that period, whatever its time code, when conflicts are left to the course |
| JobStore.DedupeNamesTheLiveJob | app/jobs.py:101-142 | While the invariant holds, a dedupe entry names a job exactly when that job has a payload with the fingerprint; such a job is queued or running, and there is at most one per fingerprint |
| JobStore.LateCompletionIsHarmless | app/jobs.py:203-236 | Completing a job that is no longer live touches only its own status, so the entry of a newer job stays |
| JobStore.EnqueueIs | app/jobs.py:101-142 | A submission is a duplicate exactly when its fingerprint has an entry; otherwise it is stored unless the queue is full |
| JobStore.ReplyIs | app/jobs.py:101-142 | A duplicate is answered with the live job of its fingerprint and its place in line, a full queue with the limit, and a new job with its place counted from one, the last if no waiting job is from later |
| JobStore.EnqueueKeeps | app/jobs.py:101-142 | Submitting keeps the invariant, the queue limit and every finished job |
| JobStore.ClaimKeeps | app/jobs.py:144-165 | Claiming takes the first ready job, fails only on an empty ready set, and keeps the invariant and every finished job |
| JobStore.MarkRunningKeeps | app/jobs.py:167-176 | Marking a job running keeps the invariant and every finished job |
| JobStore.MarkPhaseKeeps | app/jobs.py:178-201 | Reporting a phase keeps the invariant and every finished job |
| JobStore.CompleteKeeps | app/jobs.py:203-236 | Completing keeps the invariant and every finished job, and never lengthens the queue |
| JobStore.ReapKeeps | app/jobs.py:269-282 | Reaping any active jobs keeps the invariant and every finished job |
| JobStore.ReapOneMore | app/jobs.py:273-281 | The reaper's loop may treat the stale jobs in any order |
| JobStore.PerformKeepsPhases | app/jobs.py:178-201 | No phase is listed twice among the completed phases of a job |
| JobStore.RunKeeps | app/jobs.py:101-282 | In every run of calls the invariant holds, the queue limit is kept, and a job that has finished never returns to queued or running |
| JobStore.StatusIsTold | app/jobs.py:101-282 | In every run the stored state and phase of every job are what the calls about it have told: queued, running, the last phase reported, succeeded and done, or failed where it was |
| JobStore.OutcomeIsTheLast | app/jobs.py:203-282 | In every run a job is stored as succeeded if and only if a completion with success was the last call that ended it, and as failed if and only if a failed completion, the reaper, or a claim without a payload was |
| JobStore.CompletedPhases | app/jobs.py:203-236 | Success leads to the last phase and completes the one before, failure changes neither |
| JobStore.ReportedPhases | app/jobs.py:178-201 | A report stores the phase and completes exactly the one that is left |
| JobStore.ActiveSinceClaim | app/jobs.py:144-165 | An active job carries the time of the claim that took it, so the reaper finds it stale exactly by that time |
| JobStore.Jobs.EnqueueJob | app/jobs.py:101-142 | The statements compute the enqueue function on the Redis keys and the reply |
| JobStore.Jobs.ClaimJob | app/jobs.py:144-165 | The statements compute the claim function, with the failure of a job whose payload is gone |
| JobStore.Jobs.MarkJobRunning | app/jobs.py:167-176 | The statements compute the new status and the answer |
| JobStore.Jobs.MarkJobPhase | app/jobs.py:178-201 | The statements compute the new status and the answer |
| JobStore.Jobs.CompleteJob | app/jobs.py:203-236 | The statements compute the completion of a job with or without payload |
| JobStore.Jobs.ReapStale | app/jobs.py:269-282 | The loop fails the live stale jobs and removes the dead ones, as the reap function says for the whole set |
| JobProtocol.StepKeeps | app/jobs.py:101-282 | Every single Redis command of every process keeps the protocol invariant |
| JobProtocol.StartKeeps | app/main.py:640-703 | Starting and abandoning calls, the pipeline's reports, and its end, also by a time-out in the middle of a report, keep the invariant |
| JobProtocol.QueueSafety | app/jobs.py:101-282 | In every interleaving at command granularity, pending is the disjoint union of ready, active, the job popped but not yet active and the jobs between the reaper's two removals; it stays within the limit; and no job is claimed twice |
| QueueRefinement.EnqueueRefines | app/jobs.py:101-142 | The Redis commands of a submission that is not interrupted do what the call does to the store |
| QueueRefinement.ClaimRefines | app/jobs.py:144-165 | Those of a claim do what the call does, and go on with the job it yields, or with none |
| QueueRefinement.CompleteRefines | app/jobs.py:203-236 | Those of a completion do what the call does |
| QueueRefinement.PhaseRefines | app/jobs.py:178-201 | Those of a report, by the worker or the pipeline, do what the call does |
| QueueRefinement.RunningRefines | app/jobs.py:167-176 | Those of marking a job running do what the call does, and the pipeline runs exactly if it succeeds |
| QueueRefinement.ReapRefines | app/jobs.py:273-281 | Those of one pass of the reaper do what one pass does to the store |
| KeyedLocks.LockTable.Register | app/jwxt_state.py:211-216 | The guarded block finds or creates the entry of the key and counts the thread on it |
| KeyedLocks.LockTable.Deregister | app/jwxt_state.py:231-234 | The guarded block uncounts the thread and drops the entry at zero |
| KeyedLocks.DoKeeps | app/jwxt_state.py:209-234 | Every step of every thread, timeouts included, keeps the lock invariant |
| KeyedLocks.MutualExclusionInRuns | app/jwxt_state.py:209-234 | In every interleaving at most one thread is inside a key, and the key has an entry exactly while some thread is registered for it |
| KeyedLocks.NoEntryLeft | app/jwxt_state.py:209-234 | When all threads are outside, no entry is left |
| KeyedLocks.WaitsOnlyForTheKey | app/jwxt_state.py:217-222 | In every interleaving a waiting thread can take the lock exactly if no thread is inside the same key |
| SingleFlight.DoKeeps | app/jwxt_http.py:526-563 | Every step of a request, and an entry dying at any moment, keeps the export books balanced |
| SingleFlight.OneExportPerEntry | app/jwxt_http.py:526-563 | In every interleaving at most one request exports a key at a time and none while its entry lives; exports never exceed one, plus one per failure and per entry that died |
| SingleFlight.RequestsAreServed | app/jwxt_http.py:538-563 | In every interleaving a request is done inside its lock only with a live entry it found or stored, or after a failed export, and it exports only if it found none |
| SingleFlight.NobodyIsStuck | app/jwxt_http.py:526-563 | In every interleaving a request can go on by itself exactly if it does not wait for one inside the lock of the same key |
| OrderedKeys.CountKeys | app/jwxt_state.py:278-290 | The keys of an ordered dictionary are as many as its list |
| RateLimiter.Limiter.TryAllow | app/jwxt_state.py:280-300 | The statements compute the answer and the new table, with refill, recency and eviction |
| RateExactness.AdmissionIsExact | app/jwxt_state.py:280-300 | A call of a key that is not evicted is let through if and only if, for every earlier time, no more calls of the key have passed since then, this one included, than the limit and the refill of that time; with limit zero every call is |
| RateExactness.FirstCallsPass | app/jwxt_state.py:280-300 | As long as fewer calls of a key than the limit have passed, the next one does |
| RateLimiter.Limiter.SweepIdle | app/jwxt_state.py:307-317 | The two passes drop exactly the buckets idle for more than two minutes and return how many |
| RateLimiter.TableIsBounded | app/jwxt_state.py:288-290 | After any calls the table has at most the maximal number of buckets |
| RateLimiter.EvictsTheLeastRecent | app/jwxt_state.py:288-290 | A bucket is evicted only by a new key in a full table, and then it is one used least recently |
| RateLimiter.IdleIsFull | app/jwxt_state.py:307-317 | A bucket idle for more than two minutes is full, so dropping it loses nothing |
| RateLimiter.AnswersForgetNothing | app/jwxt_state.py:280-317 | For a key that is not evicted every answer is that of a limiter without sweeps and without a cap: it refines one that never forgets |
| RateLimiter.FewKeysAreNeverEvicted | app/jwxt_state.py:288-290 | While no more keys have called than there is room for, no key is ever evicted |
| RateLimiter.TokensAreConserved | app/jwxt_state.py:291-300 | Admitted calls plus remaining tokens never exceed the first level plus the refill |
| RateLimiter.AdmissionIsBounded | app/jwxt_state.py:280-300 | Between any two times a key that is not evicted gets at most the limit plus the elapsed seconds times limit / 60 calls through |
| SlidingLog.RateHits.MemoryRateAllow | app/main.py:723-738 | The statements compute the answer and the new table |
| SlidingLog.RefusalIsExact | app/main.py:723-738 | A key that is not evicted is refused exactly when the limit of its requests was let through in the last sixty seconds |
| SlidingLog.EveryWindowIsBounded | app/main.py:723-738 | In every half-open window of sixty seconds, wherever it starts, at most the limit of requests of such a key is let through |
| SlidingLog.StoredIsBounded | app/main.py:732-735 | No stored list is longer than the limit |
| SlidingLog.TableIsBounded | app/main.py:736-737 | The table holds at most the maximal number of keys |
| SessionStore.IndexIsUnique | app/jwxt_state.py:74-76 | The index is determined by the sessions: it is their inverse image by user name without empty sets |
| SessionStore.NewSessionStays | app/jwxt_state.py:107-109 | A new session is not the one evicted unless every other one is newer |
| SessionStore.ReusableIsMine | app/jwxt_state.py:119-128 | The sessions found through the index are all a scan of every session would accept, and sweeping first loses none |
| SessionStore.LoginIsReused | app/jwxt_state.py:112-129 | Someone who logged in finds a session with the same password as long as it lives and is not too old, no older than his own, and never one of another user or password |
| SessionStore.Store.Drop | app/jwxt_state.py:78-89 | Removes the session and keeps the index exact |
| SessionStore.Store.Sweep | app/jwxt_state.py:169-175 | Leaves exactly the unexpired sessions, counts the removed ones, and keeps the index exact |
| SessionStore.Store.Create | app/jwxt_state.py:91-110 | Leaves the unexpired sessions and the new one, without an oldest if they are too many, and keeps index and bound |
| SessionStore.Store.FindReusable | app/jwxt_state.py:112-129 | Returns a newest session that a scan of all sessions would accept, and none exactly when there is none |
| SessionStore.Store.Refresh | app/jwxt_state.py:131-141 | Changes only cookies and portal of the session |
| SessionStore.Store.Touch | app/jwxt_state.py:143-154 | Changes only the expiry of the session |
| SessionStore.Store.Get | app/jwxt_state.py:156-167 | Returns the session unless it has expired, and then drops it |
| SessionStore.Store.Invalidate | app/jwxt_state.py:185-191 | Removes the session and tells whether it was there |
| ProfilePool.Profiles.TryAcquire | app/rtf_pdf.py:44-51 | The guarded block computes the acquire function |
| ProfilePool.Profiles.ReleaseProfile | app/rtf_pdf.py:60-67 | The guarded block computes the release function |
| ProfilePool.Profiles.AbandonCreation | app/rtf_pdf.py:55-57 | The guarded block uncounts a profile that was not made |
| ProfilePool.DoKeepsCounts | app/rtf_pdf.py:44-67 | Every step keeps slots and profiles within the capacity, and the active count never above the profiles in use |
| ProfilePool.PoolSafety | app/rtf_pdf.py:44-99 | With the slot taken first, in every interleaving with failed creations and unhealthy releases, no thread waits for a profile, at most the capacity exist, none is leased twice, and none is both free and leased |
| ProfilePool.ProfilesAreConserved | app/rtf_pdf.py:44-76 | In every run each profile ever made is free, in use, or thrown away after a failed conversion, so besides those at most the capacity are ever made |
| ProfilePool.ActiveIsExact | app/rtf_pdf.py:44-67 | Up to any step of a run the active count is the number of profiles in use if and only if no step took a profile from the free list |
| ProfilePool.ActiveCanBeNegative | app/rtf_pdf.py:54-58 | A run in which the active count falls below zero exists if and only if the capacity is at least two |
| RedisSemaphore.DoKeeps | app/jwxt_redis.py:834-878 | Every watch, read, transaction and retry of every client keeps the counter equal to the holders |
| RedisSemaphore.CounterIsHolders | app/jwxt_redis.py:834-878 | In every interleaving the counter is the number of holders and at most the limit, equals acquisitions minus releases, a release always finds its slot counted, and a transaction is refused only after another went through |
| RedisSemaphore.TurnedAwayWhenFull | app/jwxt_redis.py:834-857 | A client is turned away only if every slot was taken at some time before |
| RedisSemaphore.OneTrySuffices | app/jwxt_redis.py:834-878 | Undisturbed, a client gets a slot in one try exactly if one is left, and gives it back in one try |
| LogReader.SplitConcat | app/querylog.py:169-171 | Splitting a concatenation joins the last part of the first to the first part of the second |
| LogReader.CompleteLines | app/querylog.py:172-176 | The inner loop yields the complete lines of a chunk from last to first, stripped, without blank ones |
| LogReader.FileLines | app/querylog.py:158-179 | For every content and every chunk size the backward reader yields the non-blank lines in reverse order, stripped except the first of the file |
| LogReader.FilesLines | app/querylog.py:158-179 | Several files are read in the order given, empty ones skipped |
| LogReader.RecordsReadBack | app/querylog.py:61-78 | A file of written records reads back as the records, newest first |
| LogFiles.Writer.ShiftUp | app/querylog.py:105-109 | The descending loop moves every backup one number up and overwrites at most the last slot |
| LogFiles.Writer.Rotate | app/querylog.py:98-113 | A full file becomes the newest backup and the oldest goes once all slots are taken; a file below the limit stays |
| LogFiles.Writer.WriteRaw | app/querylog.py:61-78 | Rotates if there is a file and it is full, and appends the record |
| LogFiles.WriteDropsTheOldest | app/querylog.py:98-113 | A write adds its record at the end and discards exactly the oldest backup, only when it rotates with all slots taken |
| LogFiles.LogIsHealthy | app/querylog.py:98-113 | After any writes every file was below the limit until its last record, and every backup is full |
| LogFiles.LogKeepsTheNewest | app/querylog.py:61-113 | After any writes the files hold the newest records in order, and nothing is discarded before all slots are taken |
| LogFiles.NewestFirstWithoutBackups | app/querylog.py:115-136 | Reading the listed files is newest first if and only if there is no backup |
| LogFiles.BackupIsReadBeforeTheLast | app/querylog.py:115-136 | A run of two writes whose records are read oldest first |
| StatusWindow.SortedSorts | app/main.py:279 | The descending sort lists every entry once, in order |
| StatusWindow.FrontOfInsert | app/main.py:274-277 | An entry that fell out of the window can never come back into it |
| StatusWindow.AcceptedAreFirsts | app/main.py:253-270 | A line is accepted exactly when it is a query and no earlier scanned query has its non-empty run id |
| StatusWindow.ShownAreLines | app/main.py:271-287 | What is shown are accepted lines with their times, run ids and results, as many as the limit allows |
| StatusWindow.ShownAreNewest | app/main.py:279-280 | They are listed each once, newest first, and no accepted line that is not shown is newer than one that is |
| StatusWindow.SuccessesAreCounted | app/main.py:271-273 | The successes are the accepted queries that succeeded |
| StatusWindow.ErrorsAreCounted | app/main.py:257-262 | The parse errors are the scanned lines that do not parse |
| StatusWindow.HeapPop | app/main.py:276-277 | Takes out the one least entry |
| StatusWindow.ReadSummary | app/main.py:240-287 | Returns the first entries of the descending sort of all accepted queries, at most the recent limit, and the counts over the same queries, for every recent and scan limit |
| Notices.LargeKeepsLimit | app/notices.py:206-212 | Pruning an archive that is large enough keeps exactly the limit |
| Notices.JoiningAfterPruning | app/notices.py:206-212 | For a notice that is newly archived it makes no difference that the archive was pruned before |
| Notices.LeavingAfterPruning | app/notices.py:206-212 | A notice that leaves a pruned archive changes what is kept exactly when the archive was overfull |
| Notices.ReplacingAfterPruning | app/notices.py:206-212 | A notice archived anew changes what is kept exactly when the archive was overfull and it does not outrank what was pruned |
| Notices.UpdateAfterPruning | app/notices.py:179-185 | Updating and pruning gives the same with and without an earlier pruning exactly when no pruned notice resurfaces |
| NoticeStore.Store.Refresh | app/notices.py:160-185 | Loads the greatest revision of every notice in the file and prunes, whatever was held before |
| NoticeStore.Store.PruneHistory | app/notices.py:206-212 | Sorting and dropping the rest keeps exactly the archived notices with fewer than the limit above them |
| NoticeStore.Store.CompactLocked | app/notices.py:221-228 | The new file has one line per record and nothing else |
| NoticeStore.Store.OperateCreate | app/notices.py:311-328 | Computes the change, or the conflict when too many are online |
| NoticeStore.Store.OperateUpdate | app/notices.py:338-373 | Computes the change, or the first error in the order of the checks |
| NoticeStore.Store.OperateDelete | app/notices.py:381-388 | Deletes drafts only, and asks for compaction |
| NoticeStore.Store.Mutate | app/notices.py:230-248 | A call is one step of the file that does not depend on what the process held, and leaves the process with the operation's records |
| NoticeRuns.MutationIsDurable | app/notices.py:230-248 | What the next process loads is what the operation kept if and only if the file was compacted or no pruned notice resurfaces |
| NoticeRuns.UpdateIsSeen | app/notices.py:357-371 | The next process sees the updated notice with the fields asked for, the others as before, one revision more, and the right publication and archiving times |
| NoticeRuns.RunsAreDurable | app/notices.py:179-248 | In every run by any processes with an advancing clock, replaying and pruning gives exactly the kept records, except for an appended revival with an overfull archive, and then never |
| NoticeRuns.PrunedNoticeResurfaces | app/notices.py:206-212 | A run of five operations from the empty file in which an appended revival brings a pruned notice back |
| NoticeRuns.ActiveIsBounded | app/notices.py:312-313 | In every run at most the allowed number of notices is online |
| NoticeRuns.FileIsBounded | app/notices.py:237-242 | The file always has fewer lines than the compaction limit, or exactly one per record |
| NoticeRuns.PublishedStays | app/notices.py:344-346 | Once published, a notice keeps content and level in every later state, even through pruning and resurfacing |
| NoticeChanges.ChangesAreMade | app/notices.py:338-373 | A change is made and seen by the next process if and only if the notice is loaded, is a draft if its text or level is to change, may take the status, and finds room if it goes online; otherwise the file is not touched and the first that fails is the error. A notice being archived must be archived after the others |
| NoticeChanges.DraftIsPublished | app/notices.py:347-354 | A draft goes online while there is room |
| NoticeChanges.ArchivedIsRevived | app/notices.py:349-354 | A kept archived notice goes back online while there is room |
| NoticeChanges.DraftIsEdited | app/notices.py:344-348 | A draft can always be edited, and stays a draft |
| NoticeChanges.ActiveIsArchived | app/notices.py:347-366 | In every run taking a notice offline succeeds, and the next process finds it in the history |
| NoticeChanges.CreatesAreMade | app/notices.py:311-328 | A new notice is refused only if it would go online and there is no room; otherwise the next process sees it |
| NoticeChanges.DraftsAreDeleted | app/notices.py:381-388 | A notice is deleted if and only if it is a draft, and then it alone is gone |
| WeekParam.Clamp | app/jwxt_core.py:1438-1442 | The result lies in 1 to 30; a week in that range is unchanged, one below gives 1 and one above gives 30 |
| WeekParam.ParseWeeks | app/jwxt_core.py:1445-1485 | The loops with their early exits yield the sorted distinct weeks among the first sixty named in the first forty segments, and none when there are none |
| WeekParam.ParsedIsNormal | app/jwxt_core.py:1445-1485 | Whatever the parameter, the weeks are ascending, in range and not empty |
| WeekParam.PrintParses | app/jwxt_core.py:1445-1485 | Printing the weeks and parsing them again, as text or as a list, is the identity for every parameter, clamped and capped or not |
| WrittenWeeks.RangeReads | app/jwxt_core.py:1466-1478 | A written range yields exactly the weeks from the lesser to the greater of its clamped ends, each once in order |
| WrittenWeeks.ListIsRead | app/jwxt_core.py:1459-1485 | A list of weeks and ranges means the first sixty weeks its first forty parts name, and when they name no more, exactly the weeks some of these parts means |
| WrittenWeeks.OneRangeIsRead | app/jwxt_core.py:1466-1478 | A range alone means exactly the weeks between its clamped ends |
| WrittenWeeks.NumbersAreRead | app/jwxt_core.py:1450-1458 | A JSON list of at most sixty integers means the clamped integers |
| UrlCoding.UnquoteOfQuotePlus | app/jwxt_http.py:1110-1118 | Coding a text for a query and decoding it changes its spaces to pluses and nothing else |
| UrlCoding.QueryReadsBack | app/jwxt_http.py:1085-1088 | Splitting a coded query at ampersands and equals signs gives its fields back, still coded |
| DownloadLink.LinkIsReceived | app/jwxt_http.py:1110-1118 | The request through a link carries the weeks exactly, the semester with pluses for spaces, and the parity still coded |
| DownloadLink.LinkNamesTheWeeks | app/jwxt_core.py:1675-1687 | The download link asks for exactly the weeks of the query and is never refused for them |
| DownloadLink.ParityReadsBack | app/jwxt_core.py:1675-1687 | An accepted parity is accepted through the link if and only if it is a JSON integer or a text of digits and underscores after at most one space, and then it is the same number |
| DownloadLink.TruthIsRefused | app/jwxt_core.py:1675-1687 | The parity `true` is accepted and the link made from it is refused |
| DownloadLink.QuotedParityIsRefused | app/jwxt_core.py:1675-1687 | The parities `"1"` with quotes, `1` with a space after it, and `+1` are accepted and the links made from them are refused |
| DownloadLink.SemesterReadsBack | app/jwxt_core.py:1666-1672 | The key part of a semester survives the link if and only if the semester has no space |
| DownloadLink.LinkFindsThePrewarmedPdf | app/jwxt_core.py:1640-1687 | For every accepted query, the request through its link is accepted if and only if the parity is of that form, and finds the PDF under the prewarmed key if and only if, besides, the semester has no space |

## Left out

- Digits other than ASCII digits, lone surrogates, case folding beyond the letters of the weekday names, and upper limits of Python dates.
- JobStore.DedupeNamesTheLiveJob: leaves out time stamps, results, expiry times and the public view of a status; identifiers and fingerprints are numbers, since they are hexadecimal texts of fixed length. A call is one step here, and keys do not expire; `complete` reads and writes in two transactions, so at command granularity only what QueueSafety says is claimed, and nothing about dedupe entries.
- JobProtocol.QueueSafety: leaves out connection failures, process crashes and lock leases; the two Redis locks are ideal. A worker claims, reports, marks running, runs the pipeline and completes in the order of app/main.py:651-709; inside the pipeline any phases may be reported in any order, any number of times.
- KeyedLocks.MutualExclusionInRuns: leaves out fairness, and the interleaving of threads in Dafny's own heap; entries are values with an identity, threads are steps on values, and the class models the two guarded blocks.
- SingleFlight.OneExportPerEntry: leaves out the look at the cache before the lock, which changes nothing, a cache that is switched off, and what an export returns.
- RateLimiter.AdmissionIsBounded: leaves out rounding of floating point, and clock readings taken before the lock that arrive out of order.
- SessionStore.Store.Create: leaves out the randomness of session identifiers, which are assumed fresh; the warm-up event; and times before the epoch, which `find_reusable` never returns.
- ProfilePool.PoolSafety: leaves out making and removing directories, which is a step that succeeds or fails.
- RedisSemaphore.CounterIsHolders: leaves out leases, waiting times and connection failures; a loop may retry for ever.
- LogReader.FileLines: leaves out the decoding of the yielded bytes, which is done line by line and does not change their order.
- LogFiles.LogKeepsTheNewest: leaves out files left by another setting of the number of backups, several writers, partial writes and deletion from outside.
- NoticeRuns.RunsAreDurable: leaves out reading through the short cache, the Redis copy, and the checks on content text, which are made before an operation; file lines that do not parse are kept in the model but never written.
- NoticeStore.Store.CompactLocked: leaves out the order of the lines, on which nothing depends.
- StatusWindow.ReadSummary: leaves out the parsing of JSON and dates; `heapq` is the set of its entries, from which the least is taken.
- DownloadLink.LinkIsReceived: leaves out the resolution of the short download code; where octets are no UTF-8 `unquote` is left undefined, which no link made here comes to.
- ConfigParser.AcceptsExactlyTheValid: leaves out numbers that are not integers, texts for nested values in `period_source`, and the reading of dates, which is a parameter assumed to read back what it prints.
- CalendarMeaning.UidsAgree: the hashing of event identifiers is a parameter, assumed to keep different keys apart.
- CalendarPrinter.CalendarReadsBack: asks that the stamp and the time zone hold no line break, and the zone no colon, because `render` copies them unescaped; the stamp is a text, and years below 1000, which `strftime` may pad, are printed without padding.
- `TTLCache`, `ConcurrencyLimiter`, `ShortCodeStore` and the metrics: they would add only easy members.
- School portal access, encryption, PDF drawing, the language model, HTTP routing and the web front end.
