# Verified models of a load-test control plane

The repository schedules and runs distributed load tests. This project models the parts of it that
decide something: the calendar search behind "next run", the division of a test configuration among
workers, the substitution of secrets, the CSV writer, the start rendezvous of the workers, the life
cycles of artifacts, runs and schedules with the services around them, the colour parser of the log
view, and the quantities of Kubernetes resources. Code that updates objects is modelled by classes and
loops that are proved against a specification; what the code is for is proved about the specification.

`dafny verify dfyconfig.toml` verifies everything.

## The modules

- `Arithmetic`, `Text`, `Decimal`: division, splitting and joining, decimal numerals.
- `Calendar`: the UTC calendar of ECMA-262 (ECMAScript), section 21.4.1, on whole minutes; day numbers and
  civil dates are in bijection.
- `CronFields`, `CronNextRun`: the cron validator, the candidate parser, and the search for the next run.
  The search jumps by months, days, hours and minutes, and is proved equal to trying every minute of 366
  days. It takes at most 535 rounds when there are candidate hours and minutes.
- `YamlTree`, `PartitionSpec`, `WorkloadPartitioner`: nodes as heap objects, their values, and the
  rewriting of one clone per worker. The workers' numbers add up to the original; nothing else differs.
- `TemplateResolver`: `${secrets.KEY}` placeholders. The algebra of substitution, with the exact condition
  on the values under which it holds.
- `Csv`: the writer, a reader after section 2 of RFC 4180, and when the reader gives the table back.
- `Barrier`, `BarrierLaws`: the start rendezvous; the calls of all workers form one sequence, in any order. Every
  answer and status is read off that sequence.
- `Artifact`, `TestRuns` (in `TestRun.dfy`), `Schedules` (in `Schedule.dfy`): the life cycles.
- `Catalog`, `RunStore`, `RunService`, `ScheduleService`: the services. A repository is a map of values; a service
  loads an object from it, changes the object and saves it back, and each read, save, delete and orchestrator
  call may fail. Whether it does is a parameter of the call.
- `RunWatcher`: the second writer of the runs, which carries over what happens to their jobs.
- `RunEffects`, `RunHistory`, `RunLaws`, `RunJobs`: any sequence of service calls, watched events, and what happens
  by itself in the cluster and the database; what each run keeps in it, what each call and event does in it, and
  which jobs no stored run leads to. `ScheduleLaws` does the same for the calls of the schedule service.
- `Ansi`, `AnsiLaws`: text and style of every character of a log, what counts as an escape sequence, and what the
  codes mean. `K8sResources`: print and parse of quantities.

The specification of a class with guarded transitions is a function `Step` from a state and a call to the
next state and the answer. Each method is proved to do what `Step` says, refused calls included, and the
lemmas speak about sequences of steps. That `Step` is right is not taken for granted: the laws state what a call does
without it, with the fields of the stored record, the texts and the numbers written out.

## Where the code does something else than its documentation

- A step on anything but a star is accepted by the cron validator but not read as a step: `5/15` gives no
  minute at all, so no next run is shown (`CronNextRun.FiveByFifteen`), and `1-5/2` gives all of 1 to 5.
  `CronFields.CandidatesAreDenoted` says for which accepted parts the candidates are the numbers denoted, and
  for which they are not. The cluster gets the expression itself and is not concerned.
- The cron validator also accepts texts that are no cron parts: what follows a second dash or a second slash is
  not looked at, so `1-5-x` passes and is read as 1 to 5. `CronFields.AcceptedTexts` gives exactly the texts that
  pass, `CronFields.DashedRead` how such a range is read.
- A barrier session that is RELEASED or TIMED_OUT counts as terminal, but a worker's abort still makes it
  ABORTED (`Barrier.TerminalUntilAbort`). `Release` itself does not ask for READY (`Barrier.ReleaseNeedsNoReady`,
  `Barrier.ReleasedWithoutWorkers`); `Barrier.BackedRelease` says when enough workers are ready.
- Resolving secrets can create placeholders when a value is part of one. `TemplateResolver.ExtractionLaw` and
  `TemplateResolver.StagedLaw` give the exact conditions for extraction and for resolving in stages. A value
  without `$` and `}` that has some character foreign to placeholders is safe (`TemplateResolver.PlainIsInert`).
- The watcher completes a run when its job succeeds, without summary and metrics. If that comes before the
  runner's report, the report is refused and lost (`RunHistory.SuccessCompletes`, `RunHistory.LateReport`).
- A job can be left that no stored run leads to: by a trigger whose job name is not saved, until the watcher starts
  the run under the job's name; by deleting a run whose job is not aborted, or dropping an old run; and by a
  schedule, until the watcher stores a run for the job. `RunJobs.JobsLeftBehind` proves that in the modelled
  histories there are no others.
- Where the server is set to a runner namespace of its own, a request that names the default namespace gets its job
  created in the one and looked for in the other, though nothing fails (`RunJobs.MisplacedHistory`).
- A schedule and its CronJob drift apart after three kinds of repository failure, which
  `ScheduleService.SetsApart` lists and `ScheduleService.StepInStep` proves to be the only ones.

## Model

| member | source | states |
|---|---|---|
| Calendar.YearLength | web/src/lib/cron-utils.ts:228-235 | the days between two new years are 365, or 366 in a leap year |
| Calendar.YearOfDay | web/src/lib/cron-utils.ts:229-231 | the year whose days include the given day number, for any day, also before 1970 |
| Calendar.NextMonthStart | web/src/lib/cron-utils.ts:229-235 | setting the month one further, past December too, lands one month length later |
| Calendar.DayToCivilToDay | web/src/lib/cron-utils.ts:229-260 | a day number turned into year, month and date and back is the same day, and the date lies within its month |
| Calendar.CivilToDayToCivil | web/src/lib/cron-utils.ts:229-260 | a civil date turned into a day number and back is the same date |
| Calendar.Epoch | web/src/lib/cron-utils.ts:229-239 | day 0 is Thursday, 1 January 1970, and the days of the week follow one another |
| Calendar.MonthLengths | web/src/lib/cron-utils.ts:229-235 | the twelve lengths of the months, with 29 days of February in a leap year |
| Calendar.DaysOfMonth | web/src/lib/cron-utils.ts:229-235 | a month consists of exactly the days from its start up to the start of the next one |
| Calendar.NextMonth | web/src/lib/cron-utils.ts:229-235 | the month jump moves forward to a midnight in the following month and passes only minutes of this month |
| Calendar.NextDay | web/src/lib/cron-utils.ts:255-260 | the day jump lands on the next midnight, across month and year ends |
| Calendar.NextHour | web/src/lib/cron-utils.ts:262-267 | the hour jump lands on the next full hour, across midnight, and passes only minutes of this hour |
| Calendar.MonthIndexMonotone | web/src/lib/cron-utils.ts:228-235 | months never run backwards as time goes on |
| Calendar.Clock | web/src/lib/cron-utils.ts:262-273 | a minute is its day, hour and minute on the clock |
| Calendar.ClockUnique | web/src/lib/cron-utils.ts:262-273 | and no other day, hour and minute |
| Calendar.HourStep | web/src/lib/cron-utils.ts:262-267 | the hour jump on the clock: the next hour at minute 0, of the next day after 23 |
| Calendar.MinuteStep | web/src/lib/cron-utils.ts:269-273 | the minute jump on the clock is one minute later, over hour and day ends |
| CronFields.ValidateCron | web/src/lib/cron-utils.ts:86-111 | an expression is valid exactly when it has five words and each is a valid field under its own rule |
| CronFields.PartAccepted | web/src/lib/cron-utils.ts:49-75 | the recursive validator accepts a well-formed part exactly when its numbers keep the rule's bounds, its range is not reversed and its step is positive and at most the maximum |
| CronFields.BaseAccepted | web/src/lib/cron-utils.ts:63-74 | a text without a slash is accepted exactly when it is a number within the bounds, or two in order with a dash between and perhaps anything after a second dash |
| CronFields.AcceptedTexts | web/src/lib/cron-utils.ts:49-75 | exactly the texts the validator accepts: a star or such a text, perhaps with a slash and a step in bounds and perhaps anything after a second slash |
| CronFields.DashedRead | web/src/lib/cron-utils.ts:201-203 | what follows a second dash is accepted and not read |
| CronFields.FieldAccepted | web/src/lib/cron-utils.ts:77-84 | a comma list is accepted exactly when each part keeps its bounds |
| CronFields.FieldSplits | web/src/lib/cron-utils.ts:77-84 | splitting a comma list gives back its parts |
| CronFields.StepOf | web/src/lib/cron-utils.ts:197-199 | what parseInt makes of the text after the star and slash of an accepted part is its positive step |
| CronFields.AddRange | web/src/lib/cron-utils.ts:196-203 | the counting loop adds exactly the numbers between the bounds that lie on the step |
| CronFields.AddPart | web/src/lib/cron-utils.ts:195-207 | one round of the loop adds the candidates of its part, and a bound that is not a number adds none |
| CronFields.FieldCandidatesSnoc | web/src/lib/cron-utils.ts:192-209 | a further part of a list adds its own candidates and removes none |
| CronFields.SortAscending | web/src/lib/cron-utils.ts:208-209 | the set as a strictly increasing list of the same numbers |
| CronFields.ParseFieldCandidates | web/src/lib/cron-utils.ts:192-209 | a strictly increasing list of exactly the numbers the field's parts contribute |
| CronFields.PartRead | web/src/lib/cron-utils.ts:195-207 | how each form of accepted part is read: a range loses its step, a stepped number contributes nothing |
| CronFields.CandidatesAreDenoted | web/src/lib/cron-utils.ts:49-75 | for an accepted part the candidates are the numbers it denotes if and only if it has no step on anything but a star, or a step that leaves nothing out |
| CronFields.FieldDenotation | web/src/lib/cron-utils.ts:192-209 | an accepted field whose parts are read as written gives candidates that are not empty, lie within the bounds and are exactly the numbers some part denotes |
| CronFields.StartsInBounds | web/src/lib/cron-utils.ts:49-75 | an accepted part that does not start with a star starts with a number within the bounds, however many slashes follow |
| CronFields.FieldReachesBounds | web/src/lib/cron-utils.ts:192-209 | the candidates of any accepted field are empty, or one of them lies within the bounds |
| CronFields.NothingRead | web/src/lib/cron-utils.ts:192-209 | an accepted field of well-formed parts has no candidate exactly when every part is a stepped number |
| CronFields.WordsOfJoin | web/src/lib/cron-utils.ts:86-95 | splitting at white space undoes joining with blanks |
| CronFields.ExpressionAccepted | web/src/lib/cron-utils.ts:86-111 | a whole expression of well-formed parts is valid exactly when each part keeps the bounds of its field |
| CronFields.NumbersAccepted | web/src/lib/cron-utils.ts:41-47 | five numbers are a valid expression exactly within 0-59, 0-23, 1-31, 1-12 and 0-7 |
| Text.SplitJoin | web/src/lib/cron-utils.ts:77-84 | splitting undoes joining for pieces free of the separator |
| CronNextRun.GetNextCronRun | web/src/lib/cron-utils.ts:185-280 | null for an invalid expression, otherwise the next run that NextRunIsLeast, EarlierOfTwo and EveryMinute speak about; the rounds are bounded by months and days crossed, 48 hours and 120 minutes, 535 in all, when the hour and minute candidates are not empty |
| CronNextRun.CandidatesReachable | web/src/lib/cron-utils.ts:211-217 | for a valid expression, hour and minute candidates that are not empty include an hour and a minute of the clock |
| CronNextRun.FirstMatchIsLeast | web/src/lib/cron-utils.ts:228-279 | the reference search returns the least matching minute of its window, and nothing exactly when none matches |
| CronNextRun.AdmitsMatches | web/src/lib/cron-utils.ts:228-276 | a minute matches exactly when minute, hour and month are among the numbers read from their fields and the day fits: a day field that is a star restricts nothing, of two restricted ones it is enough that one fits, and 7 is Sunday |
| CronNextRun.NextRunIsLeast | web/src/lib/cron-utils.ts:219-279 | the next run is the least whole minute after the given time, and at most 366 days after it, that the expression admits; there is none exactly when it admits no such minute |
| CronNextRun.EarlierOfTwo | web/src/lib/cron-utils.ts:237-253 | with both day fields restricted, the next run is the earlier of the next runs of the two expressions that have a star for one of them |
| CronNextRun.EveryMinute | web/src/lib/cron-utils.ts:219-276 | five stars run at the next whole minute |
| CronNextRun.FirstMatchFrom | web/src/lib/cron-utils.ts:228-279 | skipping minutes that do not match leaves the result of the reference search unchanged |
| CronNextRun.MonthJump | web/src/lib/cron-utils.ts:229-235 | when the month is no candidate, the month jump moves forward and passes no matching minute |
| CronNextRun.DayJump | web/src/lib/cron-utils.ts:237-260 | when the day does not match, the day jump moves forward and passes no matching minute |
| CronNextRun.HourJump | web/src/lib/cron-utils.ts:262-267 | when the hour is no candidate, the hour jump moves forward and passes no matching minute |
| CronNextRun.WalkedToMidnight | web/src/lib/cron-utils.ts:229-260 | a jump off a day that does not match keeps the account of rounds: one per month or day crossed |
| CronNextRun.WalkedHour | web/src/lib/cron-utils.ts:262-267 | an hour jump on a matching day keeps the account: later days are walked from midnight to a candidate hour |
| CronNextRun.WalkedMinute | web/src/lib/cron-utils.ts:269-273 | a minute step in a matching hour keeps the account: later hours are walked from minute 0 to a candidate minute |
| CronNextRun.WalkedWithin | web/src/lib/cron-utils.ts:228-277 | while the search stands inside the window, one more jump of any kind stays within the limits on its kind |
| CronNextRun.Start | web/src/lib/cron-utils.ts:219-226 | the search starts on the first whole minute after the given time, with no minute passed, and its window spans at most 366 days |
| CronNextRun.MonthRound | web/src/lib/cron-utils.ts:229-235 | a month round keeps the loop's invariant and moves strictly forward |
| CronNextRun.DayRound | web/src/lib/cron-utils.ts:237-260 | a day round keeps the loop's invariant and moves strictly forward |
| CronNextRun.HourRound | web/src/lib/cron-utils.ts:262-267 | an hour round keeps the loop's invariant and moves strictly forward |
| CronNextRun.MinuteRound | web/src/lib/cron-utils.ts:269-273 | a minute round keeps the loop's invariant and moves strictly forward |
| CronNextRun.Stopped | web/src/lib/cron-utils.ts:228-279 | where the loop stops, the reference search stops: at the match, or past the window with none |
| CronNextRun.AcceptedWithoutNextRun | web/src/lib/cron-utils.ts:192-209 | every expression whose parts keep their bounds and whose minute field consists of stepped numbers is valid and has no next run in any window |
| CronNextRun.FiveByFifteen | web/src/lib/cron-utils.ts:192-209 | `5/15 * * * *` is valid and has no next run in any window |
| YamlTree.SetValueAt | internal/domain/service/workload_partitioner.go:79-202 | rewriting one scalar changes its value and no other node, label or path |
| YamlTree.Node.LeadsTo | internal/domain/service/workload_partitioner.go:223-251 | the node a path leads to on the heap is the subtree at that path of the value |
| YamlTree.Node.LeadsStep | internal/domain/service/workload_partitioner.go:241-251 | a path extends to the children of the node it leads to |
| YamlTree.Node.ViewAfterWrite | internal/domain/service/workload_partitioner.go:114-172 | assigning to the value of one node object changes the tree at that node's path only, since the tree shares no node |
| PartitionSpec.AtoiOfItoa | internal/domain/service/workload_partitioner.go:114-122 | a number written into the tree is read back from it, within the range of a 64-bit int |
| PartitionSpec.AtoiForms | internal/domain/service/workload_partitioner.go:114-122 | a sign may precede the digits, and numbers out of range are cut to the ends of it |
| PartitionSpec.AtoiOther | internal/domain/service/workload_partitioner.go:114-122 | every other text is read as 0 |
| PartitionSpec.SharesAddUp | internal/domain/service/workload_partitioner.go:204-214 | the shares of all workers add up to the total, and to 0 for a negative one |
| PartitionSpec.SharesAreFair | internal/domain/service/workload_partitioner.go:204-214 | shares never increase with the index, differ by at most 1, and are at least 1 exactly for indices below the total |
| PartitionSpec.KeyIndex | internal/domain/service/workload_partitioner.go:241-251 | the place right after the first even-numbered child that holds the key; none exactly when no such child of a mapping does |
| PartitionSpec.KeyFrom | internal/domain/service/workload_partitioner.go:241-251 | the first such place: no earlier key is equal |
| PartitionSpec.FindPathIsFirst | internal/domain/service/workload_partitioner.go:223-239 | the path found is the first in document order that leads through document nodes to a mapping with the key; none is found exactly when there is no such path |
| PartitionSpec.FoundApart | internal/domain/service/workload_partitioner.go:174-185 | nodes found under two different keys do not lie below one another, so the settings are not rewritten twice |
| PartitionSpec.ScenariosTargetsUnder | internal/domain/service/workload_partitioner.go:96-172 | everything rewritten lies below the scenarios mapping and is a value, never a key |
| PartitionSpec.TargetsExactly | internal/domain/service/workload_partitioner.go:91-185 | exactly these scalars are divided: the concurrency of the settings, and in scenarios, by type, vus; target_tps, max_vus and a positive burst_buffer; the target of each stage |
| PartitionSpec.DividedUnique | internal/domain/service/workload_partitioner.go:79-202 | there is one tree with the worker's shares at the divided scalars and everything else as in the input |
| PartitionSpec.Conservation | internal/domain/service/workload_partitioner.go:79-214 | over the trees of all workers each divided place, settings.concurrency among them, read back, sums to the original (0 for a negative one), never increases with the index, differs by at most 1, and is positive exactly for workers below the original; every other node is the original in every tree |
| PartitionSpec.SummaryEntry | internal/domain/service/workload_partitioner.go:96-172 | with distinct scenario names, each scenario's entry survives the loop |
| PartitionSpec.EnvEntry | internal/domain/service/workload_partitioner.go:114-152 | a variable that one divided quantity alone generates survives the loop with its share, whatever letters upper-casing changes |
| PartitionSpec.SummaryMatchesTree | internal/domain/service/workload_partitioner.go:86-175 | with distinct scenario names, a scenario's entry gives the very numbers in the worker's tree, stage by stage for ramping scenarios |
| PartitionSpec.EnvMatchesTree | internal/domain/service/workload_partitioner.go:86-152 | a variable that one divided quantity alone generates holds the very text written for it into the worker's tree |
| PartitionSpec.EnvKeys | internal/domain/service/workload_partitioner.go:86-152 | the environment holds the four fixed variables and the generated ones, and no other |
| PartitionSpec.FixedVariablesKept | internal/domain/service/workload_partitioner.go:86-92 | no scenario name makes a variable that overwrites a fixed one: they keep the worker's index and count |
| PartitionSpec.FixedVariables | internal/domain/service/workload_partitioner.go:86-92 | VUHIVE_WORKER_INDEX and VUHIVE_POD_INDEX hold the index, VUHIVE_WORKER_COUNT and VUHIVE_POD_COUNT the number of workers, whatever the scenarios are called |
| PartitionSpec.VariableNames | internal/domain/service/workload_partitioner.go:114-152 | the names of the four variables a scenario can generate |
| PartitionSpec.NormalizedName | internal/domain/service/workload_partitioner.go:216-221 | normalized names have an underscore exactly for a dash, a blank, a dot or an underscore, the other characters in upper case; normalizing twice is doing it once |
| PartitionSpec.EnvironmentMatchesTree | internal/domain/service/workload_partitioner.go:86-152 | with pairwise distinct generated variables, the environment consists of the fixed variables with their values and of each generated variable with the text in the worker's tree |
| WorkloadPartitioner.CloneYamlNode | internal/domain/service/workload_partitioner.go:253-277 | a structurally equal tree of new nodes only; the input is not changed |
| WorkloadPartitioner.FindNodeInMapping | internal/domain/service/workload_partitioner.go:241-251 | the node object right after the first equal key, or null when there is none |
| WorkloadPartitioner.FindNodeByKey | internal/domain/service/workload_partitioner.go:223-239 | the node object at the path of the first mapping with the key, through document nodes, or null |
| WorkloadPartitioner.DividedStep | internal/domain/service/workload_partitioner.go:114-122 | writing the share of an original scalar that has not been rewritten extends the divided scalars by that one |
| WorkloadPartitioner.FieldPlace | internal/domain/service/workload_partitioner.go:114-152 | in the partly rewritten clone, keys are found where the input has them, and a field not yet rewritten still holds the original number |
| WorkloadPartitioner.PartitionField | internal/domain/service/workload_partitioner.go:114-152 | the field's scalar, if divided, is set to the worker's share of the original, once, and nothing else changes |
| WorkloadPartitioner.PartitionStage | internal/domain/service/workload_partitioner.go:154-171 | one stage's target is divided; a stage without one counts as 0 |
| WorkloadPartitioner.PartitionStages | internal/domain/service/workload_partitioner.go:154-171 | the targets of all stages are divided and listed in order, nothing else changes |
| WorkloadPartitioner.ScenarioType | internal/domain/service/workload_partitioner.go:102-106 | the type of the original scenario, constant_vus by default, read from the partly rewritten clone |
| WorkloadPartitioner.PartitionArrivalRate | internal/domain/service/workload_partitioner.go:124-152 | rate, worker limit and positive burst buffer are divided in the tree, the summary and the environment |
| WorkloadPartitioner.PartitionRamping | internal/domain/service/workload_partitioner.go:154-171 | the stage targets are divided in the tree and the summary |
| WorkloadPartitioner.PartitionScenario | internal/domain/service/workload_partitioner.go:96-175 | one scenario's scalars are divided by its type; entries of other scenarios and other nodes stay |
| WorkloadPartitioner.PartitionEntry | internal/domain/service/workload_partitioner.go:96-175 | a round of the loop over name and body; a body that is no mapping is skipped |
| WorkloadPartitioner.PartitionScenarios | internal/domain/service/workload_partitioner.go:91-175 | after the loop, tree, summary and environment are those of all scenarios |
| WorkloadPartitioner.SettingsApart | internal/domain/service/workload_partitioner.go:177-185 | nothing the scenario loop rewrote lies below the settings |
| WorkloadPartitioner.PartitionSettings | internal/domain/service/workload_partitioner.go:177-185 | the concurrency setting is divided as well, and then all divided scalars are done |
| WorkloadPartitioner.LocateScenarios | internal/domain/service/workload_partitioner.go:81-84 | the scenarios node if there is one and it is a mapping |
| WorkloadPartitioner.ScenariosDefined | internal/domain/service/workload_partitioner.go:35-38 | true exactly when there is a scenarios mapping that is not empty |
| WorkloadPartitioner.ScenariosMean | internal/domain/service/workload_partitioner.go:35-38 | scenarios are defined exactly when the first mapping with that key has a mapping there that is not empty |
| WorkloadPartitioner.PartitionForIndex | internal/domain/service/workload_partitioner.go:79-202 | an error without a scenarios mapping, otherwise a partition of new nodes whose tree is the input with all and only the divided scalars replaced by the worker's shares |
| WorkloadPartitioner.PartitionForWorker | internal/domain/service/workload_partitioner.go:54-77 | the errors in the code's order, otherwise the partition of that worker; the input tree is not changed |
| WorkloadPartitioner.AllPartitions | internal/domain/service/workload_partitioner.go:40-51 | one partition per worker from one unchanged input, no two sharing a node |
| WorkloadPartitioner.PartitionWorkload | internal/domain/service/workload_partitioner.go:22-51 | the errors in the code's order, otherwise for each index what the single-worker entry point specifies, in trees that share no node and that conserve the input at each of its places |
| WorkloadPartitioner.WorkloadConserved | internal/domain/service/workload_partitioner.go:40-51 | the trees of any list of partitions, one per worker, conserve the input at each of its places |
| WorkloadPartitioner.PartitionsAgree | internal/domain/service/workload_partitioner.go:22-77 | what a partition must be leaves no choice: the two entry points give equal trees, environments and summaries |
| TemplateResolver.KeyAt | internal/domain/service/template_resolver.go:14 | a match starts with a whole placeholder with a well-formed key |
| TemplateResolver.KeyAtPlaceholder | internal/domain/service/template_resolver.go:14 | a whole placeholder at the start is a match, with its key |
| TemplateResolver.EveryOccurrence | internal/domain/service/template_resolver.go:19-37 | a key is extracted exactly when its placeholder occurs anywhere in the text |
| TemplateResolver.CutBeforeDollar | internal/domain/service/template_resolver.go:19-54 | a text can be cut before any dollar sign: both parts are extracted and resolved as if each stood alone |
| TemplateResolver.ResolveAround | internal/domain/service/template_resolver.go:19-54 | wherever a placeholder with a well-formed key stands, its key is extracted there and it is replaced by the value of the key, if there is one; what stands around it is dealt with as if it stood alone |
| TemplateResolver.ResolveIdle | internal/domain/service/template_resolver.go:42-54 | a text none of whose keys has a value stays as it is |
| TemplateResolver.InertEverywhere | internal/domain/service/template_resolver.go:42-54 | eleven runs and one look at the start of a value decide whether it can be put after any partial placeholder without completing one of a key that is not allowed or leaving one open |
| TemplateResolver.PlainIsInert | internal/domain/service/template_resolver.go:42-54 | a value without dollar sign and closing brace that has a character foreign to placeholders is inert |
| TemplateResolver.NoNewMatch | internal/domain/service/template_resolver.go:42-54 | substituting inert values never completes a placeholder that began before them |
| TemplateResolver.QuietValue | internal/domain/service/template_resolver.go:42-54 | an inert value contributes no key and hides none that follows |
| TemplateResolver.ResolvedKeys | internal/domain/service/template_resolver.go:19-54 | after resolving with inert values the keys left are, in order, the original ones that had no value |
| TemplateResolver.StagedResolution | internal/domain/service/template_resolver.go:42-54 | resolving with one map and then with another of different keys equals resolving once with both, when the first map's values are inert but for placeholders of its own keys |
| TemplateResolver.StagedLaw | internal/domain/service/template_resolver.go:42-54 | for every template and all further values, resolving in stages equals resolving once, if and only if the values of the first stage are inert but for placeholders of its own keys |
| TemplateResolver.GrownTemplate | internal/domain/service/template_resolver.go:42-54 | for every value that is not inert there is a template whose only key has a value and whose resolution has a placeholder of a key that is not allowed |
| TemplateResolver.ExtractionLaw | internal/domain/service/template_resolver.go:19-54 | for every template, keys after resolving are the original ones without those that have values, if and only if the values are inert |
| TemplateResolver.ResolvedCompletely | internal/domain/service/template_resolver.go:42-54 | with inert values, resolving leaves no placeholder exactly when every key has a value |
| TemplateResolver.SortStrings | internal/domain/service/template_resolver.go:34-36 | distinct keys in strictly increasing byte order |
| TemplateResolver.SortedUnique | internal/domain/service/template_resolver.go:34-36 | a strictly sorted list is determined by what it contains |
| TemplateResolver.ExtractPlaceholderKeys | internal/domain/service/template_resolver.go:19-37 | each key of the text once, in strictly sorted order, and nothing else |
| TemplateResolver.ValidatePlaceholders | internal/domain/service/template_resolver.go:59-76 | the sorted keys that are not available, and an error exactly when there is one |
| Csv.ReadEscaped | web/src/lib/export-utils.ts:14-39 | a field of any text, with commas, quotes and line breaks, is read back, whatever field or record follows |
| Csv.ReadLine | web/src/lib/export-utils.ts:45-58 | a row of escaped cells is read back as one record |
| Csv.ReadLines | web/src/lib/export-utils.ts:44-61 | records of at least one field are read back; a reader that takes a final CRLF for a terminator loses a last record that is one empty text, and nothing else |
| Csv.Written | web/src/lib/export-utils.ts:44-61 | the writer's text is that of the header and the stringified cells |
| Csv.QuotedWhenNeeded | web/src/lib/export-utils.ts:14-39 | a text is quoted exactly when it has a comma, a quote or a line break; numbers, booleans and missing values never are |
| Csv.TwoByTwo | web/src/lib/export-utils.ts:44-61 | cells are separated by commas and lines by CRLF |
| Csv.RoundTrip | web/src/lib/export-utils.ts:44-61 | reading the writer's output gives the header and the cells' texts exactly when the table has a column |
| Csv.RoundTripTerminated | web/src/lib/export-utils.ts:44-61 | the same for a reader that allows a final line break, except exactly for a single column that ends in an empty cell |
| Barrier.NewBarrierSession | internal/domain/model/barrier.go:58-88 | the errors for a blank run and a worker count out of range, otherwise a new pending session with the defaults for times that are not positive |
| Barrier.BarrierSession.constructor | internal/domain/model/barrier.go:73-87 | a pending session without participants or target |
| Barrier.BarrierSession.ReadyCount | internal/domain/model/barrier.go:146-154 | the counting loop returns the number of participants that are ready |
| Barrier.BarrierSession.RegisterWorker | internal/domain/model/barrier.go:166-193 | the whole new state and the answer, refused calls included |
| Barrier.BarrierSession.MarkWorkerReady | internal/domain/model/barrier.go:196-223 | the whole new state and whether all are ready; a refused call changes nothing |
| Barrier.BarrierSession.MarkWorkerAborted | internal/domain/model/barrier.go:226-241 | the participant and the session become ABORTED whatever the status was |
| Barrier.BarrierSession.Release | internal/domain/model/barrier.go:244-259 | an open session gets its target, the time of the call plus the delay, and RELEASED; a closed one refuses with the error for its status |
| Barrier.BarrierSession.TimeoutSession | internal/domain/model/barrier.go:267-273 | a session that is not terminal becomes TIMED_OUT; a terminal one refuses |
| Barrier.StepConsistent | internal/domain/model/barrier.go:166-273 | every call keeps: PENDING means fewer ready workers than required, READY means enough, an aborted participant means an aborted session, keys are worker ids, RELEASED has a target, only RELEASED or ABORTED sessions have one |
| Barrier.RunConsistent | internal/domain/model/barrier.go:58-273 | the same in every run of calls from a new session |
| Barrier.StepFollows | internal/domain/model/barrier.go:166-273 | a call never lowers the status rank, moves between RELEASED and TIMED_OUT, changes a target that is set, or drops a participant |
| Barrier.RunFollows | internal/domain/model/barrier.go:196-273 | the same between any two states of a run |
| Barrier.OneRelease | internal/domain/model/barrier.go:244-259 | at most one Release of a run succeeds |
| Barrier.OneTarget | internal/domain/model/barrier.go:116-118 | every state after a successful Release shows the target it answered, so all workers read the same instant |
| Barrier.ReleaseAfterAllReady | internal/domain/model/barrier.go:196-259 | a Release that succeeds after some call answered that all are ready happens in READY with at least the required number of distinct ready workers |
| Barrier.ReadyWasAnswered | internal/domain/model/barrier.go:196-223 | a session that was pending is ready only after some call answered that all are ready |
| Barrier.BackedRelease | internal/domain/model/barrier.go:196-259 | a Release that succeeds has at least the required number of ready workers if and only if some call before it answered that all are ready |
| Barrier.ReleaseNeedsNoReady | internal/domain/model/barrier.go:244-259 | in every run of a new session a call is a Release that succeeds exactly when it is a Release and no release, abort or time-out came before it, however many workers are ready |
| Barrier.ReleasedWithoutWorkers | internal/domain/model/barrier.go:244-259 | the run of a new session that consists of one Release: it succeeds with no ready worker |
| Barrier.TerminalUntilAbort | internal/domain/model/barrier.go:226-273 | over any stretch of a run that starts terminal the status stays exactly when there is no abort in it or the session was aborted already; without an abort nothing changes |
| Barrier.OpenUntilClosed | internal/domain/model/barrier.go:131-133 | over any stretch of a run that starts open the session is open exactly until the first release, abort or time-out |
| BarrierLaws.NewSession | internal/domain/model/barrier.go:58-88 | the errors and every field of a new session: at most 10000 workers, 60 s time-out and 300 ms delay by default |
| BarrierLaws.OpenLaw | internal/domain/model/barrier.go:166-223 | as long as nothing closes a new session, its participants are the workers that were registered, the ready ones those that said so after that, and it is READY exactly when they are enough |
| BarrierLaws.StatusLaw | internal/domain/model/barrier.go:196-273 | in every run: ABORTED exactly when there was an abort, else what the first release or time-out made it, else READY or PENDING by the number of workers that said they are ready |
| BarrierLaws.AnswerLaw | internal/domain/model/barrier.go:166-273 | in every run, every answer, from the sequence of calls alone: one registration per worker, readiness only of registered ones and whether that makes enough, one release with its own time plus the delay of the session, refusals by status |
| BarrierLaws.ReasonLaw | internal/domain/model/barrier.go:226-241 | the reason on record is that of the last abort, or the standard one |
| BarrierLaws.WorkerFields | internal/domain/model/barrier.go:166-241 | a call changes only the worker it names, and what it writes for it |
| BarrierLaws.JoinedLaw | internal/domain/model/barrier.go:166-193 | a worker that registered stays, with the time of its registration |
| Artifact.IsValidSHA256 | internal/domain/model/artifact.go:265-279 | true exactly for 64 hexadecimal digits |
| Artifact.NewArtifact | internal/domain/model/artifact.go:73-95 | the errors for a blank suite and an unknown platform, otherwise a new PENDING artifact |
| Artifact.Artifact.constructor | internal/domain/model/artifact.go:86-95 | PENDING, with no key, checksum, log or error text |
| Artifact.Artifact.SetDescription | internal/domain/model/artifact.go:158-160 | changes the description only |
| Artifact.Artifact.MarkBuilding | internal/domain/model/artifact.go:193-202 | only from PENDING; ended artifacts and others are refused with different errors |
| Artifact.Artifact.MarkReady | internal/domain/model/artifact.go:205-225 | only from BUILDING, with a key that is not blank and a valid checksum; the errors in the code's order |
| Artifact.Artifact.MarkFailed | internal/domain/model/artifact.go:228-236 | the whole new state, or a refusal that changes nothing |
| Artifact.Artifact.Cancel | internal/domain/model/artifact.go:239-250 | the whole new state with the reason or its default, or a refusal |
| Artifact.Artifact.RetryBuild | internal/domain/model/artifact.go:255-263 | only FAILED and CANCELLED go back to PENDING, with error text and log key cleared |
| Artifact.Accepted | internal/domain/model/artifact.go:192-263 | exactly which calls succeed, and with which error the others are refused without any change |
| Artifact.Fields | internal/domain/model/artifact.go:158-263 | what a call that succeeds makes of each field |
| Artifact.RunConsistent | internal/domain/model/artifact.go:192-279 | every sequence of calls keeps: binary key and checksum are there exactly when READY, the checksum is valid, a log key means FAILED, no error text before failing; once READY, status, key and checksum never change |
| Artifact.NewRunConsistent | internal/domain/model/artifact.go:73-95 | the same for every sequence of calls on a new artifact |
| Artifact.RefusedChangesNothing | internal/domain/model/artifact.go:192-263 | a refused transition changes nothing, READY refuses every transition, and only a retry leaves FAILED or CANCELLED |
| TestRuns.TestRun.constructor | internal/domain/model/run.go:163-183 | the object made of checked fields holds exactly those |
| TestRuns.NewTestRun | internal/domain/model/run.go:91-135 | refused without suite, artifact or profile, otherwise a new QUEUED run with trimmed fields and the default namespace for a blank one |
| TestRuns.Restored | internal/domain/model/run.go:138-184 | stored fields make a run exactly when the status is one of the six texts; it has exactly those fields, with the default namespace for a blank one |
| TestRuns.NewTestRunWithID | internal/domain/model/run.go:138-184 | refused for an unknown status, otherwise the stored fields with the default namespace for a blank one |
| TestRuns.RestoredSame | internal/domain/model/run.go:91-184 | restoring what was stored of a run, after any sequence of calls on a new one, gives the same run |
| TestRuns.TestRun.Stored | internal/adapters/outbound/postgres/run_repository.go:26-108 | the value a repository keeps is the whole state of the object |
| TestRuns.TestRun.SetK8sJobName | internal/domain/model/run.go:305-307 | changes the job name in any status, nothing else |
| TestRuns.TestRun.SetK8sNamespace | internal/domain/model/run.go:311-317 | changes the namespace in any status, with the default for a blank one |
| TestRuns.TestRun.Start | internal/domain/model/run.go:320-335 | the whole new state, or a refusal that changes nothing |
| TestRuns.TestRun.Complete | internal/domain/model/run.go:338-362 | the whole new state, with or without a summary, or a refusal that changes nothing |
| TestRuns.TestRun.SetExitCode | internal/domain/model/run.go:365-367 | changes the exit code in any status, nothing else |
| TestRuns.TestRun.Fail | internal/domain/model/run.go:370-382 | the whole new state, or a refusal that changes nothing |
| TestRuns.TestRun.FailWithMetrics | internal/domain/model/run.go:385-406 | the whole new state, with or without a summary, or a refusal that changes nothing |
| TestRuns.TestRun.Abort | internal/domain/model/run.go:409-418 | the whole new state, or a refusal that changes nothing |
| TestRuns.TestRun.Archive | internal/domain/model/run.go:421-432 | the whole new state, or a refusal that changes nothing |
| TestRuns.TestRun.ClearS3LogsKey | internal/domain/model/run.go:435-437 | clears the log key only |
| TestRuns.TestRun.ClearS3ReportKey | internal/domain/model/run.go:440-442 | clears the report key only |
| TestRuns.Accepted | internal/domain/model/run.go:305-442 | exactly in which statuses each call succeeds, and with which error the others are refused without any change |
| TestRuns.Fields | internal/domain/model/run.go:305-442 | what a call that succeeds makes of each field |
| TestRuns.KeysAndNames | internal/domain/model/run.go:305-442 | and of the keys of report and log and the names of job and namespace |
| TestRuns.NewRunFields | internal/domain/model/run.go:91-135 | every field of a new run |
| TestRuns.StepConsistent | internal/domain/model/run.go:305-442 | every call keeps: a finish time exactly when ended, a start time when RUNNING or COMPLETED, exit code and SLA result when COMPLETED or FAILED, no metrics or summary before the end, no summary when ABORTED or ARCHIVED, names without space around them, a namespace; an ended run stays ended with the same outcome |
| TestRuns.CallsConsistent | internal/domain/model/run.go:305-442 | the same in every state of a sequence of calls |
| TestRuns.NewRunConsistent | internal/domain/model/run.go:91-135 | the same for every sequence of calls on a new run |
| TestRuns.EndedStays | internal/domain/model/run.go:320-442 | once ended, finish time, start time, metrics, SLA result and abort reason never change; the status can only become ARCHIVED, which drops the summary |
| TestRuns.OneEnd | internal/domain/model/run.go:338-418 | at most one call of a sequence ends the run |
| TestRuns.OnlyEndsWrite | internal/domain/model/run.go:338-432 | only a call that ends the run writes metrics or the finish time, so each is written at most once |
| Catalog.LookupsSucceed | internal/application/service/run_service.go:91-149 | the lookups find nothing wrong exactly when all ids are given, suite, artifact, configuration and profile are there, active, ready and of one suite, and the tables that say so can be read |
| Catalog.LookupErrorMeans | internal/application/service/run_service.go:97-149 | each error of the lookups is due to something of its kind: a table that cannot be read, something missing, not active or not ready, or of another suite |
| RunStore.Store.SaveRun | internal/adapters/outbound/postgres/run_repository.go:26-108 | a save stores the object's whole state under its id, a failed one stores nothing |
| RunStore.Store.DispatchJob | internal/adapters/outbound/k8s/runner_orchestrator.go:34-76 | a job in the namespace the generator chooses for the run, labelled with the run, or an error without effect |
| RunStore.Store.AbortJob | internal/adapters/outbound/k8s/runner_orchestrator.go:79-114 | the job with the name of the run, in the namespace of the run, is gone, or an error without effect |
| RunService.RunService.TriggerRun | internal/application/service/run_service.go:78-199 | runs, jobs and answer for every way the lookups, the two saves and the dispatch can go; a failed dispatch leaves a FAILED run, a failed second save a job without a name on record |
| RunService.RunService.AbortRun | internal/application/service/run_service.go:443-506 | runs, jobs and answer, with failed reads, unknown ids, ended runs, refused job aborts and failed saves |
| RunService.RunService.CompleteRun | internal/application/service/run_service.go:510-650 | runs and answer, for a run named by id or by job name, with failed reads and saves; jobs are not touched |
| RunService.RunService.EndRun | internal/application/service/run_service.go:545-625 | the state completion makes of an active run: started first if QUEUED, keys by precedence, summary from the command or the storage |
| RunService.RunService.Conclude | internal/application/service/run_service.go:588-625 | failed without a report, complete with one, the command's exit code on top |
| RunService.RunService.CleanupRun | internal/application/service/run_service.go:654-708 | the job is aborted in any status; an active run is aborted by the system and saved, an ended one is answered unchanged |
| RunService.RunService.DeleteRun | internal/application/service/run_service.go:712-769 | the run is gone exactly when it was there, had ended and the delete worked; its job is aborted before |
| RunWatcher.RunnerJobWatcher.SyncJob | internal/adapters/outbound/k8s/runner_watcher.go:120-340 | runs and error for every event: the run found by label or name, one created for a schedule's job, failed reads and saves, ended runs left alone |
| RunWatcher.RunnerJobWatcher.NewScheduledRun | internal/adapters/outbound/k8s/runner_watcher.go:173-186 | a new run of the schedule with the name and namespace of the job, or an error for blank ids |
| RunWatcher.RunnerJobWatcher.Advance | internal/adapters/outbound/k8s/runner_watcher.go:212-337 | the transitions by what the job shows, in the order of the checks: deleted, succeeded, failed, active |
| RunWatcher.RunnerJobWatcher.HandleJobDeletion | internal/adapters/outbound/k8s/runner_watcher.go:343-391 | an active run labelled on a job that is gone is aborted and saved |
| RunEffects.EndedFields | internal/application/service/run_service.go:545-625 | every field of an active run after its completion, with a report that parses and without: status, times, exit code, SLA result, metrics, summary, and the keys of report and log by precedence |
| RunEffects.AdvancedFields | internal/adapters/outbound/k8s/runner_watcher.go:212-337 | every field of an active run after an event that shows its job deleted, succeeded, failed or active |
| RunEffects.CreatedFields | internal/adapters/outbound/k8s/runner_watcher.go:173-186 | every field of the run that is created for the job of a schedule |
| RunEffects.TriggeredFields | internal/application/service/run_service.go:151-161 | every field of the run that a trigger creates, in the namespace asked for, else that of the service |
| RunHistory.EndedConsistent | internal/application/service/run_service.go:523-650 | completing an active run meets no transition error, and ends it COMPLETED exactly when a summary that is not blank parses, with that report's metrics and text and the command's exit code, FAILED otherwise |
| RunHistory.AdvancedConsistent | internal/adapters/outbound/k8s/runner_watcher.go:212-337 | an event's transitions on an active run succeed and end it ABORTED, COMPLETED without summary and metrics, or FAILED, or start it |
| RunHistory.CallWell | internal/application/service/run_service.go:78-769 | a service call keeps every stored run consistent under its id, adds at most the run it triggers, and changes no run that has ended |
| RunHistory.SyncWell | internal/adapters/outbound/k8s/runner_watcher.go:120-340 | the same for an event the watcher handles, which adds at most the run of a schedule's job |
| RunHistory.StepWell | internal/application/service/run_service.go:78-769 | the same for every step, the cluster's and the database's own included |
| RunHistory.HistoryWell | internal/application/service/run_service.go:78-769 | in every history of calls, events and own steps every stored run is consistent |
| RunHistory.WasCreated | internal/adapters/outbound/k8s/runner_watcher.go:161-200 | every stored run was created by an earlier trigger or by the event of a job with a schedule |
| RunHistory.EndedRunStays | internal/application/service/run_service.go:462-769 | in every history the record of an ended run stays exactly the same until it is deleted or dropped, and no other run takes its id |
| RunHistory.LeavesOnce | internal/application/service/run_service.go:462-691 | in every history, service and watcher together, each run leaves QUEUED and RUNNING at most once |
| RunHistory.CompletionEnds | internal/application/service/run_service.go:523-650 | in every history, completing an active run with a working repository ends it and answers the run that is stored, COMPLETED exactly when a summary that is not blank parses |
| RunHistory.SuccessCompletes | internal/adapters/outbound/k8s/runner_watcher.go:239-277 | in every history, the event of a succeeded job with a working repository completes its active run without summary and metrics |
| RunHistory.FailureFails | internal/adapters/outbound/k8s/runner_watcher.go:279-307 | in every history, the event of a failed job with a working repository fails its active run, queued or running, with exit code 1 and the SLA not met |
| RunHistory.LateReport | internal/application/service/run_service.go:539-543 | a report that comes after a run has left its active statuses is refused and changes nothing |
| RunLaws.TriggerLaw | internal/application/service/run_service.go:78-199 | in every history: a trigger answers a run exactly when what is asked for can be run, both saves work and a job is dispatched; which record is stored and which job is there, for every way it can fail |
| RunLaws.AbortLaw | internal/application/service/run_service.go:443-506 | in every history: an abort answers exactly the run it stores, ABORTED at the time of the call with the given or the standard reason, and exactly when it names an active run that can be read and the save works; otherwise no run changes; the job is gone once the run was reached and its abort works |
| RunLaws.CompletionLaw | internal/application/service/run_service.go:510-650 | in every history: a completion answers exactly the run it stores, field by field, and exactly when it names an active run that can be read and the save works; otherwise nothing changes |
| RunLaws.NotCompleted | internal/application/service/run_service.go:513-537 | a completion that names no run changes nothing |
| RunLaws.CleanupLaw | internal/application/service/run_service.go:654-708 | in every history: a clean-up stores an active run ABORTED with its reason and answers it, answers an ended run as it is, and takes the job away in any status |
| RunLaws.DeleteLaw | internal/application/service/run_service.go:712-769 | in every history: a delete removes exactly the run it names, exactly when that can be read, has ended and the repository works; the job is gone before, if that works |
| RunLaws.NotReached | internal/application/service/run_service.go:443-732 | the error for a blank, unread, unknown or ended run, and that nothing changes then |
| RunLaws.SyncLaw | internal/adapters/outbound/k8s/runner_watcher.go:120-340 | in every history: an event of a stored run's job changes anything if and only if the run can be read, is active, the save works and the event shows the job deleted, succeeded, failed, or active with the run queued; then the stored run is the moved one, field by field |
| RunLaws.ScheduledLaw | internal/adapters/outbound/k8s/runner_watcher.go:161-200 | in every history: an event of a job that no stored run has stores a run exactly when the job is that of a known schedule with its ids, and the save works |
| RunLaws.Unlabelled | internal/adapters/outbound/k8s/runner_watcher.go:128-130 | a job without labels changes nothing |
| RunLaws.GoneLaw | internal/adapters/outbound/k8s/runner_watcher.go:343-391 | in every history: when a job is gone, the active run on its label is stored ABORTED; nothing else changes |
| RunJobs.ClaimedRemoved | internal/application/service/run_service.go:474-480 | aborting the job of a stored run leaves the jobs no run leads to as they are |
| RunJobs.RunDropped | internal/adapters/outbound/postgres/run_repository.go:655-673 | dropping a stored run leaves exactly its job behind, if that is still there |
| RunJobs.RunStored | internal/application/service/run_service.go:163-190 | storing a new run, or one that gets its job name, takes exactly the job it leads to from those no run leads to |
| RunJobs.JobAdded | internal/adapters/outbound/k8s/runner_job_generator.go:141-148 | a new job is one no run leads to until a name is stored |
| RunJobs.TriggerUnclaimed | internal/application/service/run_service.go:163-190 | a trigger leaves its job behind exactly when the job name is not saved or the job is created where it is not looked for |
| RunJobs.DeleteUnclaimed | internal/application/service/run_service.go:725-761 | a delete leaves a job behind exactly when the run is gone and its job was there and not aborted |
| RunJobs.EventFits | internal/adapters/outbound/k8s/runner_watcher.go:143-159 | a run found for an event either has the name of the event's job or has none yet and is the one on the job's label |
| RunJobs.SyncUnclaimed | internal/adapters/outbound/k8s/runner_watcher.go:120-340 | an event leaves no job behind, and takes one up exactly when it starts a stored run without a job name or stores a run for a schedule's job |
| RunJobs.StepUnclaimed | internal/application/service/run_service.go:78-769 | a step adds to the jobs no stored run leads to exactly what it leaves behind, and removes exactly what it takes up |
| RunJobs.JobsLeftBehind | internal/application/service/run_service.go:78-769 | in every history of calls, events, new jobs of schedules, removed jobs and dropped runs, whatever fails, the jobs no stored run leads to are exactly those steps left behind and none has taken up since |
| RunJobs.MisplacedJob | internal/adapters/outbound/k8s/runner_job_generator.go:49-57 | the job of a run is looked for where it was created exactly when the orchestrator has no namespace of its own or the run is not in the default one |
| RunJobs.MisplacedHistory | internal/adapters/outbound/k8s/runner_job_generator.go:49-57 | the history of one trigger that names the default namespace, in which nothing fails and the job is left behind with its name on record |
| RunJobs.MisplacedRequest | internal/application/service/run_service.go:152-157 | there is such a request, to a server that sets service and orchestrator to the same namespace |
| Schedules.Schedule.constructor | internal/domain/model/schedule.go:108-120 | the object made of checked fields holds exactly those |
| Schedules.NewSchedule | internal/domain/model/schedule.go:45-88 | the errors for ids, name and expression in the code's order, otherwise a new active schedule with trimmed fields |
| Schedules.NewScheduleWithID | internal/domain/model/schedule.go:91-121 | the same errors for stored fields, otherwise exactly these fields |
| Schedules.NewRestorable | internal/domain/model/schedule.go:45-121 | what is stored of a new schedule passes the checks made when it is restored |
| Schedules.ChangesRestorable | internal/domain/model/schedule.go:91-216 | and still does after every change |
| Schedules.Schedule.Stored | internal/adapters/outbound/postgres/schedule_repository.go:24-67 | the value a repository keeps is the whole state of the object |
| Schedules.Schedule.Activate | internal/domain/model/schedule.go:189-196 | active with a new time stamp, or refused when already active |
| Schedules.Schedule.Deactivate | internal/domain/model/schedule.go:199-206 | inactive with a new time stamp, or refused when already inactive |
| Schedules.Schedule.UpdateCronExpression | internal/domain/model/schedule.go:209-216 | the trimmed expression and a new time stamp, or refused when it is not valid |
| ScheduleService.ScheduleService.SaveSchedule | internal/application/service/schedule_service.go:152-156 | a save stores the object's whole state under its id, a failed one stores nothing |
| ScheduleService.ScheduleService.CreateCronJob | internal/adapters/outbound/k8s/schedule_orchestrator.go:34-76 | a new job with the schedule's expression and flag, or an error without effect, also for a name in use |
| ScheduleService.ScheduleService.UpdateCronJob | internal/adapters/outbound/k8s/schedule_orchestrator.go:79-120 | the job gets the schedule's expression and flag, or an error without effect, also for a missing job |
| ScheduleService.ScheduleService.CreateSchedule | internal/application/service/schedule_service.go:47-178 | repository, cluster and answer for every failure of save, job creation and roll-back |
| ScheduleService.ScheduleService.Change | internal/application/service/schedule_service.go:251-273 | what an update makes of the loaded object, the expression first and the flag only when it differs |
| ScheduleService.ScheduleService.UpdateSchedule | internal/application/service/schedule_service.go:231-294 | repository, cluster and answer: the cluster first, then the repository |
| ScheduleService.ScheduleService.DeleteSchedule | internal/application/service/schedule_service.go:297-332 | repository, cluster and answer: the repository delete is tried even when the cluster refuses |
| ScheduleLaws.ChangedFields | internal/application/service/schedule_service.go:251-273 | an update of a loaded schedule is refused exactly for a given expression that is not valid; otherwise expression and flag are the given ones, or stay |
| ScheduleLaws.UpdateLaw | internal/application/service/schedule_service.go:231-294 | in every history: an update answers a schedule exactly when cluster and repository take it; that is the stored record, with the new expression and flag where they are given, and the CronJob has both; the error and the state for every refusal |
| ScheduleLaws.CreateLaw | internal/application/service/schedule_service.go:47-178 | in every history: a creation answers exactly the active record it stores, whose CronJob is there, and exactly when the request can be run on a valid expression and repository and cluster take it; after a refusal of the cluster the record is gone if the roll-back works |
| ScheduleLaws.CreateErrors | internal/application/service/schedule_service.go:75-133 | which requests are refused before anything is stored |
| ScheduleLaws.DeleteLaw | internal/application/service/schedule_service.go:297-332 | in every history: a delete removes exactly the schedule it names, exactly when that can be read and the repository works; the job is gone if the cluster works, whatever the repository does |
| ScheduleLaws.StoredUnderId | internal/application/service/schedule_service.go:152-288 | in every history every schedule is stored under its id |
| ScheduleService.StepInStep | internal/application/service/schedule_service.go:152-325 | a call from a state in which every stored schedule has a CronJob with its expression and flag leads to such a state if and only if it is none of three named repository failures |
| ScheduleService.HistoryInStep | internal/application/service/schedule_service.go:152-325 | in every history without those failures the two are in step throughout |
| ScheduleService.ReliableRepository | internal/application/service/schedule_service.go:152-325 | with a repository that does not fail, the orchestrator may fail any call and the two stay in step |
| ScheduleService.StepUnclaimed | internal/application/service/schedule_service.go:152-325 | a call leaves a CronJob without a schedule only when it deletes a schedule whose job the cluster refuses to delete, and never adopts one |
| ScheduleService.OnlyRefusedDeletesLeak | internal/application/service/schedule_service.go:310-325 | with a repository that does not fail, in every history the CronJobs without a schedule are exactly those of schedules deleted while the cluster refused |
| ScheduleService.StoredRestorable | internal/application/service/schedule_service.go:47-294 | in every history, whatever fails, every stored schedule passes the checks made when it is restored |
| Ansi.NextSgr | web/src/lib/ansi.ts:189 | the next place at which an SGR sequence starts, with none in between |
| Ansi.ApplyInTwo | web/src/lib/ansi.ts:202-258 | parameters given in one sequence or in two do the same, as long as the first does not stop inside a colour |
| Ansi.ApplyParams | web/src/lib/ansi.ts:202-258 | the index loop does what taking the items from the left does, where 38 and 48 take exactly their arguments with them |
| Ansi.TextConserved | web/src/lib/ansi.ts:180-268 | the styled characters spell out the cleaned text without its SGR sequences, in order, with nothing lost |
| Ansi.StyleIsFold | web/src/lib/ansi.ts:184-268 | the style of each character is the left fold of the parameters of all the sequences before it |
| Ansi.PlainRun | web/src/lib/ansi.ts:190-194 | characters up to the next sequence share one style |
| Ansi.PieceRun | web/src/lib/ansi.ts:189-194 | up to the next sequence there is one text between sequences |
| Ansi.Emit | web/src/lib/ansi.ts:190-194 | text up to the next sequence becomes one segment in the current style, unless it is empty |
| Ansi.ParseAnsi | web/src/lib/ansi.ts:167-269 | the segments' texts are exactly the texts between successive SGR sequences of the cleaned input that are not empty, and with their styles they spell out its styled characters |
| AnsiLaws.CodeMeaning | web/src/lib/ansi.ts:205-234 | what each code without arguments does to each part of the style |
| AnsiLaws.ColourMeaning | web/src/lib/ansi.ts:235-256 | 38 sets the text colour and 48 the background, from the palette or by three parts |
| AnsiLaws.PaletteMeaning | web/src/lib/ansi.ts:100-121 | the palette: sixteen named colours, a cube with six steps of 51 per part, a ramp of 24 greys, white beyond |
| AnsiLaws.CssMeaning | web/src/lib/ansi.ts:132-162 | text has a style exactly when something is set, and then exactly the properties that are set |
| AnsiLaws.SgrAt | web/src/lib/ansi.ts:15 | escape, bracket, numbers and semicolons, and an m are one sequence, whatever follows |
| AnsiLaws.ControlAt | web/src/lib/ansi.ts:17 | with any other letter at the end but M, a control sequence, which is taken out |
| AnsiLaws.CommandAt | web/src/lib/ansi.ts:181-182 | escape, bracket and text up to a bell, or to escape and backslash, are one command, which is taken out |
| AnsiLaws.ParamsWritten | web/src/lib/ansi.ts:199-200 | the parameters of a sequence are the numbers written in it, and 0 when there is none |
| AnsiLaws.PlainTextStays | web/src/lib/ansi.ts:167-194 | a text without an escape character comes through as it is, in one style |
| AnsiLaws.CommandRemoved | web/src/lib/ansi.ts:180-183 | a command between plain texts is taken out, and nothing else |
| AnsiLaws.ControlRemoved | web/src/lib/ansi.ts:180-183 | so is a control sequence that sets no style |
| AnsiLaws.StyledText | web/src/lib/ansi.ts:180-268 | of two plain texts with a sequence of numbers between them, the first is unstyled and the second has the style that the numbers give |
| Decimal.NatOfShowNat | web/src/lib/k8s-resources.ts:23-33 | the digits printed for a number spell that number |
| Decimal.ParseIntOf | web/src/lib/cron-utils.ts:197-203 | parseInt reads a numeral up to the first character that is no digit |
| K8sResources.ParseTenths | web/src/lib/k8s-resources.ts:4-17 | parseFloat reads back a printed number with at most one decimal |
| K8sResources.ParseUnit | web/src/lib/k8s-resources.ts:38-50 | a printed quantity splits into its number and its unit |
| K8sResources.CpuRoundTrip | web/src/lib/k8s-resources.ts:4-33 | for every number of millicores and both printing modes, parsing the print gives the number back, 0 for one that is not positive |
| K8sResources.MemoryRoundTrip | web/src/lib/k8s-resources.ts:38-79 | for every number of MiB, in the Mi form and the half-step Gi form, parsing the print gives the number back, 0 for one that is not positive |
| K8sResources.CpuText | web/src/lib/k8s-resources.ts:23-33 | cores with at most one decimal where they are asked for and exact, else millicores |
| K8sResources.MemoryText | web/src/lib/k8s-resources.ts:72-79 | GiB from one up where they are whole or end in a half, else MiB |
| K8sResources.WholeMemory | web/src/lib/k8s-resources.ts:38-67 | a whole number of Ki, Mi, M, Gi, G, Ti, T or bytes in MiB, halves rounded up |

## Left out

- CronFields.FieldDenotation: parts with several slashes or dashes, such as `1/5/2` and `1-5-x`, which the validator accepts, are not among the parts that are given a denotation; the search covers them.
- The description of cron expressions in words, the presets, and the texts of validation errors.
- Dates beyond the range of a JavaScript Date.
- PartitionSpec.EnvMatchesTree: upper-casing is any function from character to character, as Go's is; which letters it changes is left open.
- WorkloadPartitioner.PartitionForIndex: the result holds the rewritten tree, where the code encodes it as YAML text.
- YAML parsing: the input is a parsed tree without aliases whose mappings list keys and values in turn, which the parser guarantees.
- Templates are sequences of characters; the wording of the error for missing secrets is not part of the model.
- Csv.RoundTrip: cells are given after the column's formatter has run and after other objects have been turned into text; how they are is not part of the model. Downloads are left out.
- The in-memory coordinator of barrier sessions, its locks, and the check of the clock before a time-out: calls are interleaved steps and take the time as a parameter.
- RunService.RunService.TriggerRun: deadlines and images of jobs are left out.
- RunService.RunService.CompleteRun: the summary parser is an opaque function from text to an optional report.
- RunService.RunService.AbortRun: the event published after an abort, here and in the clean-up, is left out.
- RunService.RunService.DeleteRun: the deletion of reports and logs from storage, whose failure the code only logs, is left out.
- RunJobs.JobsLeftBehind: ids of new runs and names of new jobs are assumed not to have been used before; pods and secrets of jobs are left out. Of housekeeping only the dropping of old runs is a step.
- RunHistory.EndedRunStays: housekeeping also archives ended runs and clears their storage keys; these steps, which change an ended record but not its outcome, are not part of the histories.
- Steps of service and watcher happen one after another; a call that another one overtakes between its load and its save is left out.
- Lists, reports, logs and their addresses, which only read.
- Ids of new runs and schedules are parameters, assumed to be distinct; a schedule's job name is assumed not to be in use.
- ScheduleService.ScheduleService.CreateSchedule: the cron parser is an opaque predicate; image, profile and namespace of a CronJob are left out.
- The build service, whose work runs in goroutines, and the restoring of artifacts from storage.
- Ansi.ParseAnsi: SGR parameters are natural numbers; JavaScript numbers beyond 2^53 are left out, and so are class names and the function that strips all sequences.
- K8sResources.CpuRoundTrip: numbers are exact decimals, where JavaScript rounds to binary ones; infinity and the validation of limits against requests are left out.
- REST handlers, the adapters for Kubernetes, object storage, the database and sign-in, the command line and the user interface.
