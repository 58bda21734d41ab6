# Market monitor: verified model

This Dafny project models the protection-first core of the market monitor and proves what it
promises over whole runs.

* **Metrics** (`HeadShare`, `OrderStatistics`, `MetricFormulas`, `MetricProducer`,
  `PresentationOrder`, `MarketMetrics`): order statistics, top shares, PPM formulas with rounding at
  every stage, and the quality gate that decides which values are reported. `SectorFacts`,
  `MetricMeaning` and `MetricDirections` say what is reported, from the members to each value.
* **Guardian and Scout** (`Guardian`, `Scout`): threshold rules combined into one protective effect,
  and the count of objective opportunities it may suppress.
* **The Analysis Commit** (`Lifecycles`, `CommitTables`, `AnalysisCommit`, with `EventHistory`,
  `Notifications`, `CommitHistory`, `Protection`, `CommitReplay`, `CommitMeaning`): one all-or-nothing transaction that
  moves a subject's lifecycle, records Guardian and Scout, advances two event histories and writes
  notification intents. A class holds the tables; its methods are proved against one function per
  step; the tables of a run are the fold of those functions over the accepted commits, and the
  theorems are about every such run.
* **Idempotent writes** (`Idempotency`, `LeaseProtocol`, `LeaseOutcomes`, `LeaseRecovery`,
  `WriteService`, `NotificationSettings`): reservations with leases that expire and are taken over, as interleaved
  steps of any number of clients with crashes; every call of the service class is a run of steps.
* **The two routes built on it** (`BackupProtocol`, `BackupRecovery`, `BackupRoute`; `QueryRecords`,
  `QueryService`, `QueryProtocol`, `QueryLimit`, `QueryRecovery`, `QueryRoute`): online backups
  published inside the completing transaction, and analysis queries with a pinned source, one record
  per query and a sliding limit. The protocol modules cover every interleaving, and the recovery
  modules show that no interleaving leaves a request stuck; the route classes show one request
  composing the services.
* **Pagination** (`JsonText`, `JsonGrammar`, `Base64Url`, `CursorCodec`, `KeysetPages`,
  `ShownResources`, `CursorPages`): cursors as text, pages of a table that grows meanwhile, and the client that
  accumulates them, with the run of its events.
* **Loops around it** (`Counters`, `Calibration`, `CalibrationMeaning`, `ProductionWorker`): the
  calibration verdict and the worker that runs one cycle per market minute.
* `Wrappers`, `Sorting`, `Sequences`, `Text`, `Domain` hold the shared vocabulary.

Decimals are reals and rounding is half to even; identifiers are drawn from a growing counter, as
the time-ordered identifiers of the program are; canonical hashes are injective and stand for what
they hash; times are whole microseconds; enumerated texts are datatypes. `dafny verify dfyconfig.toml`
checks the whole project.

## Results that are not simply "yes"

* `robust_return` ignores any single member beyond the range of the others exactly for three members
  or more other than twenty: at twenty the interpolated 5% point still leans on the extreme
  (`OrderStatistics.ResistanceExactly`, `OrderStatistics.TwentyLean`).
* Concurrent callers of `tick` can run one market minute twice, because the duplicate check precedes
  the lock. With checks that come in the order of their minutes, no minute is run twice if and only if
  no caller ever got the lock for a minute that another had taken it for while it waited, nor for one
  that had been run before its check but was hidden behind an earlier last key
  (`ProductionWorker.OnceExactly`). The second cannot happen unless some caller got the lock after a
  later minute was run while it waited (`ProductionWorker.OnceUnlessPassed`). The minutes run go strictly forward if and only if no caller
  got the lock after its minute or a later one was run while it waited
  (`ProductionWorker.ForwardExactly`). The three ways it fails are `ProductionWorker.SameKeyTwice`,
  `ProductionWorker.KeysGoBack` and `ProductionWorker.HiddenMinute`; the last shows that looking at
  same-minute callers alone is not enough. The one polling thread never repeats a minute
  (`ProductionWorker.ContinuousProductionWorker.RunForever`).
* The client shows pages of two resources together if and only if a page of one was merged, the
  resource changed while the connection was down, the flag came back, and more was asked for and
  merged while another resource than the page's was chosen, with nothing starting over since that
  page (`CursorPages.ResourcesMixExactly`, `ShownResources.MixedExactly`). Changing to another resource
  and back while offline does not mix. At a merge it can be told from the page before
  (`CursorPages.CursorPages.Receive`); `CursorPages.ResourcesMix` is a concrete run.

## Model

| member | source | states |
|---|---|---|
| HeadShare.HeadIsMaximum | packages/analysis/src/market_monitor_analysis/market_metrics.py:718-736 | the total of the head is the largest total of any choice of as many members, so ties do not matter |
| HeadShare.ShareBounds | packages/analysis/src/market_monitor_analysis/market_metrics.py:718-736 | the share of the head of k among n members lies between k/n and 1 |
| HeadShare.TransferRaisesShare | packages/analysis/src/market_monitor_analysis/market_metrics.py:718-736 | moving an amount from a member outside the head to one inside never lowers the share |
| HeadShare.HeadCountExactly | packages/analysis/src/market_monitor_analysis/market_metrics.py:718-736 | the head is the fewest members that make up a tenth, at least one and at most five |
| HeadShare.ShareExactly | packages/analysis/src/market_monitor_analysis/market_metrics.py:718-736 | the share is known exactly if anything was traded, and times the total it is the total of the head |
| OrderStatistics.RobustReturnPermutation | packages/analysis/src/market_monitor_analysis/market_metrics.py:334-343 | the robust return and the median do not depend on the order of the members |
| OrderStatistics.RobustReturnMonotone | packages/analysis/src/market_monitor_analysis/market_metrics.py:334-343 | raising any members never lowers the robust return, in the median and in the winsorised regime |
| OrderStatistics.ResistanceExactly | packages/analysis/src/market_monitor_analysis/market_metrics.py:334-343 | for n members the result always stays within the range of the others, whichever member is left out, if and only if n >= 3 and n is not 20 |
| OrderStatistics.TwentyLean | packages/analysis/src/market_monitor_analysis/market_metrics.py:1094-1098 | twenty concrete members on which one of them pulls the result outside the range of the others |
| OrderStatistics.MedianExactly | packages/analysis/src/market_monitor_analysis/market_metrics.py:1084-1091 | for any ascending arrangement of the sample: its middle value, or halfway between its two middle ones |
| OrderStatistics.RobustReturnExactly | packages/analysis/src/market_monitor_analysis/market_metrics.py:334-343 | the median below twenty members; from twenty on the mean of the sample capped a twentieth of the way from either end |
| MetricFormulas.PpmError | packages/analysis/src/market_monitor_analysis/market_metrics.py:1076-1081 | a score between 0 and 1 is reported to within half a PPM |
| MetricFormulas.RampMixesInUnit | packages/analysis/src/market_monitor_analysis/market_metrics.py:782-797 | the scores built from ramps alone, turnover confirmation and style support included, already lie between 0 and 1, so the final clamp never acts |
| MetricFormulas.PpmMixesInUnit | packages/analysis/src/market_monitor_analysis/market_metrics.py:828-837 | the same for the scores that read rounded metrics |
| MetricFormulas.DampedMixesInUnit | packages/analysis/src/market_monitor_analysis/market_metrics.py:940-962 | the same for early activity and healthy breadth, which multiply by a damping factor |
| MetricFormulas.ContinuityMixInUnit | packages/analysis/src/market_monitor_analysis/market_metrics.py:455-525 | the same for the continuity mix of three components, whatever the observations |
| MetricFormulas.NestedRoundingDrift | packages/analysis/src/market_monitor_analysis/market_metrics.py:901-914 | chasing risk computed through rounded rise, head and crowding differs from the unrounded formula by at most 0.98125 PPM |
| MetricFormulas.ChainMonotone | packages/analysis/src/market_monitor_analysis/market_metrics.py:828-837 | no rounded stage of the chasing chain falls when its inputs rise |
| MarketMetrics.ProducerDrift | packages/analysis/src/market_monitor_analysis/market_metrics.py:901-914 | the producer's own chasing metric is that chain, with the same bound |
| PresentationOrder.WindowsAnyOrder | packages/analysis/src/market_monitor_analysis/market_metrics.py:693-715 | the historical baselines do not depend on the order of windows or of amounts inside them |
| PresentationOrder.EvaluationAnyOrder | packages/analysis/src/market_monitor_analysis/market_metrics.py:275-332 | permuting members, sector identifiers, windows, amounts or observations leaves values, quality and evidence unchanged |
| MarketMetrics.Baselines | packages/analysis/src/market_monitor_analysis/market_metrics.py:693-715 | the loop over windows in date order computes the medians of the covered figures, none under three |
| MarketMetrics.Assess | packages/analysis/src/market_monitor_analysis/market_metrics.py:561-622 | UNFIT, FIT and limited exactly: FIT needs an evaluable phase, 17 of 20 and at least five members quoted, history of 0.80 and a fit provider and context; UNFIT lacks the phase, 7 of 10 or three members, history of 0.70 or the provider; the reasons are exactly those that apply at that level, each once, in alphabetical order |
| MarketMetrics.QualityMonotone | packages/analysis/src/market_monitor_analysis/market_metrics.py:561-622 | more quotes, more history and fitter sources never lower the level |
| MarketMetrics.MarketMetricProducer.Gated | packages/analysis/src/market_monitor_analysis/market_metrics.py:292-297 | filling and then removing values in place gives the gated values of every code |
| MarketMetrics.MarketMetricProducer.Evaluate | packages/analysis/src/market_monitor_analysis/market_metrics.py:275-332 | the producer's steps compute the evaluation that the order theorem is about |
| MarketMetrics.GateGuarantees | packages/analysis/src/market_monitor_analysis/market_metrics.py:275-332 | every code is reported, an UNFIT input has no value, and a Scout value means FIT |
| SectorFacts.CountedExactly | packages/analysis/src/market_monitor_analysis/market_metrics.py:1032-1044 | the members that the metrics count are exactly the listed ones that are not suspended and have a positive price and previous close, whatever the order of the lists |
| SectorFacts.SectorMoves | packages/analysis/src/market_monitor_analysis/market_metrics.py:655-667 | each return and breadth of the sector is the robust return and the rising share of its counted members over the two prices that the kind names |
| SectorFacts.MarketMoves | packages/analysis/src/market_monitor_analysis/market_metrics.py:655-667 | the same of the market, over every member that can be traded |
| SectorFacts.SectorAmounts | packages/analysis/src/market_monitor_analysis/market_metrics.py:669-690 | the amounts of the sector are the sums over its counted members, and the idle share counts those that traded nothing |
| SectorFacts.HeadShareExactly | packages/analysis/src/market_monitor_analysis/market_metrics.py:718-736 | the head share is that of the amounts of the counted members |
| SectorFacts.WindowExactly | packages/analysis/src/market_monitor_analysis/market_metrics.py:693-715 | a window that covers every member counts, if anything was traded, with its total and the share of its head |
| SectorFacts.BaselinesExactly | packages/analysis/src/market_monitor_analysis/market_metrics.py:693-715 | the baselines are the medians over the windows that count, if there are three |
| SectorFacts.CoreMeans | packages/analysis/src/market_monitor_analysis/market_metrics.py:739-780 | the core is the eligible members with the largest amounts over twenty days, the rest everyone else; its return, breadth and the return of the rest are over five minutes, and known exactly if all of the rest moved |
| SectorFacts.DivergenceMeans | packages/analysis/src/market_monitor_analysis/market_metrics.py:800-825 | divergence weighs the median distance from the middle member and the share moving against the sector |
| SectorFacts.SectorGraded | packages/analysis/src/market_monitor_analysis/market_metrics.py:561-622 | the level, its reasons and the coverage follow from the members that could be quoted and those that were |
| SectorFacts.EvidenceExactly | packages/analysis/src/market_monitor_analysis/market_metrics.py:275-332 | the evidence holds the quality, the values and the facts that they were computed from |
| MetricMeaning.RiseMeans | packages/analysis/src/market_monitor_analysis/market_metrics.py:782-788 | the reported value, from the facts, with its weights and the ends of each ramp; the other rows of this module likewise: for both ramps at 0 or at 1 it gives the ends |
| MetricMeaning.HeadMeans | packages/analysis/src/market_monitor_analysis/market_metrics.py:791-797 | from the head share and how far it is over its baseline |
| MetricMeaning.CrowdMeans | packages/analysis/src/market_monitor_analysis/market_metrics.py:828-837 | from rise and head as reported, and the turnover |
| MetricMeaning.LiquidityMeans | packages/analysis/src/market_monitor_analysis/market_metrics.py:840-856 | from the part of the amount that is gone, and the idle share |
| MetricMeaning.CoreMeans | packages/analysis/src/market_monitor_analysis/market_metrics.py:859-875 | from how far the core lags behind the rest, and how few of it rise |
| MetricMeaning.BreadthMeans | packages/analysis/src/market_monitor_analysis/market_metrics.py:878-884 | from how far breadth fell and how low it is |
| MetricMeaning.BreadthEnds | packages/analysis/src/market_monitor_analysis/market_metrics.py:878-884 | 1000000 for a fall of 0.40 to at most 0.20, 0 for a fall of at most 0.15 with at least 0.45 left |
| MetricMeaning.StampedeMeans | packages/analysis/src/market_monitor_analysis/market_metrics.py:887-898 | from the fall of the sector, the turnover, and the breadth collapse as reported |
| MetricMeaning.ChaseMeans | packages/analysis/src/market_monitor_analysis/market_metrics.py:901-914 | from the return of the day, and rise, crowding and head as reported |
| MetricMeaning.EarlyFailureMeans | packages/analysis/src/market_monitor_analysis/market_metrics.py:917-937 | not applicable exactly without applicable early evidence; otherwise from what was lost of its return, breadth and turnover |
| MetricMeaning.EarlyMeans | packages/analysis/src/market_monitor_analysis/market_metrics.py:940-953 | from a start that is not overheated, breadth and turnover |
| MetricMeaning.WideMeans | packages/analysis/src/market_monitor_analysis/market_metrics.py:956-962 | from breadth, damped by the head as reported |
| MetricMeaning.AheadMeans | packages/analysis/src/market_monitor_analysis/market_metrics.py:965-980 | from the returns over the market over five and fifteen minutes |
| MetricMeaning.TurnoverMeans | packages/analysis/src/market_monitor_analysis/market_metrics.py:983-986 | from the turnover |
| MetricMeaning.EtfMeans | packages/analysis/src/market_monitor_analysis/market_metrics.py:989-1009 | not applicable exactly without a mapped fund; otherwise from its return, by itself and over the market |
| MetricMeaning.StyleMeans | packages/analysis/src/market_monitor_analysis/market_metrics.py:989-1013 | not applicable exactly without a mapped style; otherwise from its return over the market |
| MetricMeaning.LowCrowdingMeans | packages/analysis/src/market_monitor_analysis/market_metrics.py:420-421 | what crowding as reported leaves of 1000000 |
| MetricMeaning.ContinuityMeans | packages/analysis/src/market_monitor_analysis/market_metrics.py:455-523 | of rule version 2, from how steadily return, breadth and turnover rose over three FIT observations ten minutes apart |
| MetricDirections.RiseDirection | packages/analysis/src/market_monitor_analysis/market_metrics.py:782-788 | between any two evaluations the reported value does not fall with a higher return and a larger gain on the one before |
| MetricDirections.HeadDirection | packages/analysis/src/market_monitor_analysis/market_metrics.py:791-797 | nor with a higher head share over the same or a lower baseline |
| MetricDirections.CrowdingDirection | packages/analysis/src/market_monitor_analysis/market_metrics.py:828-837 | nor with a higher rise, turnover and head |
| MetricDirections.LiquidityDirection | packages/analysis/src/market_monitor_analysis/market_metrics.py:840-856 | nor with a lower amount against a higher one before and a higher idle share |
| MetricDirections.CoreDirection | packages/analysis/src/market_monitor_analysis/market_metrics.py:859-875 | nor with a lower core return and breadth and a higher return of the rest |
| MetricDirections.BreadthDirection | packages/analysis/src/market_monitor_analysis/market_metrics.py:878-884 | breadth collapse does not fall when the breadth before is higher or the breadth now is lower |
| MetricDirections.StampedeDirection | packages/analysis/src/market_monitor_analysis/market_metrics.py:887-898 | nor stampede risk with a lower sector return, a higher turnover and a worse breadth |
| MetricDirections.ChasingDirection | packages/analysis/src/market_monitor_analysis/market_metrics.py:901-914 | nor chasing risk with higher returns, turnover and head |
| MetricDirections.EarlyFailureDirection | packages/analysis/src/market_monitor_analysis/market_metrics.py:917-937 | nor early failure with a lower return, breadth and turnover of the day against the same evidence |
| MetricDirections.EarlyDirection | packages/analysis/src/market_monitor_analysis/market_metrics.py:940-953 | early activity does not fall with breadth and turnover at the same return |
| MetricDirections.WideDirection | packages/analysis/src/market_monitor_analysis/market_metrics.py:956-962 | healthy breadth does not fall with a higher breadth and a lower head |
| MetricDirections.AheadDirection | packages/analysis/src/market_monitor_analysis/market_metrics.py:965-980 | relative strength does not fall with the sector and rises against a lower market |
| MetricDirections.TurnoverDirection | packages/analysis/src/market_monitor_analysis/market_metrics.py:983-986 | turnover confirmation does not fall with the turnover |
| Guardian.GuardianDecision | packages/analysis/src/market_monitor_analysis/guardian.py:93-157 | the loop over the rules computes the common decision |
| Guardian.EvaluateInTwoPhases | packages/analysis/src/market_monitor_analysis/guardian.py:194-216 | deciding first without thresholds and again with them gives the same decision |
| Guardian.UnavailablePauses | packages/analysis/src/market_monitor_analysis/guardian.py:104-130 | an unavailable situation pauses with critical severity |
| Guardian.BlockingExactly | packages/analysis/src/market_monitor_analysis/guardian.py:93-157 | exactly when the Guardian pauses, blocks and allows |
| Guardian.DecisionMonotone | packages/analysis/src/market_monitor_analysis/guardian.py:93-157 | raising or losing a metric, lowering a threshold or worsening quality never lowers effect or severity |
| Guardian.EffectExactly | packages/analysis/src/market_monitor_analysis/guardian.py:31-70 | which of the five effects, from the metrics that reach their thresholds and the quality alone: three metrics suppress, liquidity warns, the others downgrade |
| Guardian.SeverityExactly | packages/analysis/src/market_monitor_analysis/guardian.py:31-70 | which severity, likewise |
| Guardian.FindingsExactly | packages/analysis/src/market_monitor_analysis/guardian.py:93-157 | exactly which findings: one on the quality unless it is good, and one per metric that reaches its threshold, with its tag, severity and fact |
| Scout.EvaluateScout | packages/analysis/src/market_monitor_analysis/scout.py:92-108 | the loop over the rules computes findings, status, strength and suppression |
| Scout.StatusExactly | packages/analysis/src/market_monitor_analysis/scout.py:106-108 | status and strength count the different Scout metrics that reach their thresholds |
| Scout.OpportunitiesExactly | packages/analysis/src/market_monitor_analysis/scout.py:92-108 | the opportunities are exactly the Scout metrics that reach their thresholds, each with its fact |
| Lifecycles.MovesOn | packages/analysis/src/market_monitor_analysis/analysis_commit.py:609-685 | an accepted move extends the legal path, the projection and the collapsed history together |
| Lifecycles.StaysTheSame | packages/analysis/src/market_monitor_analysis/analysis_commit.py:609-685 | a commit without a move, with or without a lifecycle, keeps them matching |
| CommitHistory.LifecycleOfRun | packages/analysis/src/market_monitor_analysis/analysis_commit.py:606-700 | a subject's transitions are its available lifecycles without repeats, one legal path across gaps; the projection holds the last one and counts the commits |
| CommitHistory.VersionIsCommitCount | packages/analysis/src/market_monitor_analysis/analysis_commit.py:614-619 | a commit is accepted only with the number of earlier commits of its subject as expected version |
| EventHistory.VersionCount | packages/analysis/src/market_monitor_analysis/analysis_commit.py:1025-1061 | the reference history has one version per desire and one per end of a streak |
| EventHistory.ExpectedIsChained | packages/analysis/src/market_monitor_analysis/analysis_commit.py:1025-1061 | versions of an event run from 1 without gaps, RESOLVED only ends an event, and the next starts only then |
| EventHistory.OneEventAtATime | packages/analysis/src/market_monitor_analysis/analysis_commit.py:1025-1061 | the versions of one event stand together and all but the last are live |
| EventHistory.EventStepHistory | packages/analysis/src/market_monitor_analysis/analysis_commit.py:1025-1109 | one commit extends the rows of its own key by one desire and leaves every other key alone |
| EventHistory.EventTablesOfRun | packages/analysis/src/market_monitor_analysis/analysis_commit.py:1025-1109 | in every run the rows of a key are, row by row, the reference history of its desires, and the projection is the last version |
| EventHistory.EventCountsOfRun | packages/analysis/src/market_monitor_analysis/analysis_commit.py:1025-1109 | one event per rise, one version per desire and per fall, live exactly when last desired |
| EventHistory.RowsOfRun | packages/analysis/src/market_monitor_analysis/analysis_commit.py:1025-1109 | directly of the version rows of a key in every run: versions run 1, 2, ... within an event, only its last is RESOLVED, the next event begins only then, and at most one is live |
| Notifications.NotificationsOfRun | packages/analysis/src/market_monitor_analysis/analysis_commit.py:1110-1147 | every version has exactly one pending intent per channel of its commit, of the right kind and expiring after five minutes, and no intent is without a version |
| Notifications.AttentionOfRun | packages/analysis/src/market_monitor_analysis/analysis_commit.py:1025-1050 | every ATTENTION intent ever stored froze a non-blocking effect and at least three tags |
| Notifications.NoticesTellTheTables | packages/analysis/src/market_monitor_analysis/analysis_commit.py:868-942 | what any notice froze about effect, risks, Scout result and event is what the Guardian, Scout and version rows say |
| Protection.UnreliableExactly | packages/analysis/src/market_monitor_analysis/analysis_commit.py:712-719 | the Guardian is unavailable exactly for a commit without availability, quality or one of the ten facts |
| Protection.LastCommitDecides | packages/analysis/src/market_monitor_analysis/analysis_commit.py:1025-1061 | which events of a subject are live is decided by its last commit alone |
| Protection.ProtectionOfRun | packages/analysis/src/market_monitor_analysis/analysis_commit.py:712-762 | after a subject's unreliable commit its GUARDIAN_RISK is live and its SCOUT_WATCH is not, until its next commit |
| Protection.WatchNeedsFitInput | packages/analysis/src/market_monitor_analysis/market_metrics.py:292-295 | with facts from the producer, a live SCOUT_WATCH means the input was FIT |
| Protection.LiveExactlyOfRun | packages/analysis/src/market_monitor_analysis/analysis_commit.py:1025-1061 | after every run GUARDIAN_RISK is live exactly if the last commit of the subject has bad or limited data or a fact that reaches its threshold, SCOUT_WATCH exactly if three different Scout facts do, the data is reliable, and none of the three suppressing facts does |
| Protection.EventsFollowFacts | packages/analysis/src/market_monitor_analysis/analysis_commit.py:1025-1109 | the rows of every key are the reference history of when facts and data called for the event |
| CommitMeaning.RecordsOfRun | packages/analysis/src/market_monitor_analysis/analysis_commit.py:609-865 | in every run each commit left one evaluation, Guardian, Scout, commit and audit row under the identifiers it returned; effect, severity, findings, status, strength and opportunities are those of its facts and thresholds |
| CommitMeaning.VersionsOfRun | packages/analysis/src/market_monitor_analysis/analysis_commit.py:1062-1109 | every version was written by a commit of its subject, is LIVE exactly if that commit called for it, and its evidence is exactly the facts that reached their thresholds |
| CommitMeaning.IntentsOfRun | packages/analysis/src/market_monitor_analysis/analysis_commit.py:1110-1147 | every intent is among those that a commit returned, in the generation of that commit |
| CommitMeaning.ProjectionOfRun | packages/analysis/src/market_monitor_analysis/analysis_commit.py:660-700 | the projection of a subject shows its last commit and the last one with a lifecycle, with its time; it warms up again exactly if that commit was WARMING_UP |
| CommitMeaning.AnswerOfRun | packages/analysis/src/market_monitor_analysis/analysis_commit.py:91-252 | after every run which requests are refused and with which error, which are answered from a stored commit, and which are new: expected version against the commits counted, lifecycle against the last one by the 17 legal moves, facts against metrics |
| CommitMeaning.LegalExactly | packages/analysis/src/market_monitor_analysis/state.py:21-28 | the legal moves of a lifecycle are these 17 |
| CommitMeaning.ChannelsExactly | packages/analysis/src/market_monitor_analysis/analysis_commit.py:92 | the channels of a commit are those asked for, each once, in order |
| CommitMeaning.FingerprintExactly | packages/analysis/src/market_monitor_analysis/analysis_commit.py:114-128 | two requests have the same hash exactly if they ask for the same, however their channels are listed |
| CommitMeaning.BacksExactly | packages/analysis/src/market_monitor_analysis/analysis_commit.py:522-575 | an execution yields the metrics of a request exactly if each has one usable row and no other row is there |
| CommitReplay.ReadsBack | packages/analysis/src/market_monitor_analysis/analysis_commit.py:274-307 | at any later time a commit reads back as the request hash and the result it returned, versions and intents in their order |
| CommitReplay.NothingElseReadsBack | packages/analysis/src/market_monitor_analysis/analysis_commit.py:274-283 | a snapshot that no commit used reads back as nothing |
| AnalysisCommit.CollectFacts | packages/analysis/src/market_monitor_analysis/analysis_commit.py:557-575 | the loop accepts exactly the rows with one fact per allowed code, each a value of scale 0 in PPM between 0 and 1000000, and returns the facts and their values |
| AnalysisCommit.WeighRisks | packages/analysis/src/market_monitor_analysis/analysis_commit.py:711-749 | the transaction's own Guardian loop agrees with the common decision |
| AnalysisCommit.AnalysisCommitService.InsertState | packages/analysis/src/market_monitor_analysis/analysis_commit.py:588-700 | refuses without writing, or writes evaluation, transition and projection of the state step |
| AnalysisCommit.AnalysisCommitService.InsertGuardian | packages/analysis/src/market_monitor_analysis/analysis_commit.py:703-798 | writes the row of the common decision |
| AnalysisCommit.AnalysisCommitService.InsertScout | packages/analysis/src/market_monitor_analysis/analysis_commit.py:801-865 | appends the row of the Scout run under the Guardian's effect: status and strength count the different Scout metrics that meet their thresholds, and only SUPPRESS and PAUSE suppress it |
| AnalysisCommit.AnalysisCommitService.AdvanceEvent | packages/analysis/src/market_monitor_analysis/analysis_commit.py:1031-1147 | one kind of event: the new event, version, projection and intents are those of the event step, and the answered identifiers are those added |
| AnalysisCommit.AnalysisCommitService.DecideEvents | packages/analysis/src/market_monitor_analysis/analysis_commit.py:1007-1147 | the loop over both kinds advances Guardian's and then Scout's event |
| AnalysisCommit.AnalysisCommitService.FindExisting | packages/analysis/src/market_monitor_analysis/analysis_commit.py:274-307 | reads the stored commit of a snapshot |
| AnalysisCommit.AnalysisCommitService.WriteCommit | packages/analysis/src/market_monitor_analysis/analysis_commit.py:135-252 | the transaction writes all of the commit or nothing |
| AnalysisCommit.AnalysisCommitService.Commit | packages/analysis/src/market_monitor_analysis/analysis_commit.py:91-254 | answers as specified, keeps the tables those of a run, and changes them only for a new commit |
| AnalysisCommit.RetryAnswersTheSame | packages/analysis/src/market_monitor_analysis/analysis_commit.py:129-133 | repeating an accepted request, however much later, is answered with its first result |
| AnalysisCommit.OneCommitPerSnapshot | packages/analysis/src/market_monitor_analysis/analysis_commit.py:129-133 | a second commit of a snapshot with other content is refused |
| Idempotency.ClaimIsLegal | migrations/versions/0007_api_security.py:149-179 | whatever a claim writes satisfies the CHECK and is a transition the trigger admits |
| Idempotency.ClaimExactly | apps/api/src/market_monitor_api/writes.py:148-226 | a claim in the fields of the row: a new one and an expired lease are granted until five minutes from now, the attempts counted; a running lease and another request are refused; a completed row is read back |
| Idempotency.CompletionIsLegal | migrations/versions/0007_api_security.py:149-179 | a completion is admitted exactly when its clock is not behind the row's and its status is a success |
| LeaseProtocol.InvOfRun | apps/api/src/market_monitor_api/writes.py:126-290 | in every interleaving: legal rows, distinct leases and operations, attempts that count grants, claims that match their rows |
| LeaseOutcomes.CompletedForever | apps/api/src/market_monitor_api/writes.py:249-285 | no step changes a COMPLETED row |
| LeaseOutcomes.HolderIsNeverRefused | apps/api/src/market_monitor_api/writes.py:258-277 | with a clock that does not run back, the holder's completion commits unless publishing raises or the process dies |
| LeaseOutcomes.PromisesOfRun | apps/api/src/market_monitor_api/writes.py:126-333 | in every run with expiries, publications that raise and crashes: at most one committed publication per key, and exactly one once completed; every answered caller has the stored response |
| LeaseOutcomes.AttemptsAreLeases | apps/api/src/market_monitor_api/writes.py:205-233 | the attempts of a row are its granted leases, all different, the last being the row's |
| LeaseOutcomes.AnswersAgree | apps/api/src/market_monitor_api/writes.py:188-202 | two answered callers of one key got the same response |
| LeaseOutcomes.SupersededIsPowerless | apps/api/src/market_monitor_api/writes.py:249-262 | once a key was granted again, the earlier attempt can neither publish nor complete |
| LeaseOutcomes.LateReleaseIsHarmless | apps/api/src/market_monitor_api/writes.py:394-397 | a late release leaves another client's reservation in place |
| LeaseRecovery.NeverStuck | apps/api/src/market_monitor_api/writes.py:126-235 | after any run with any crashes, once the process was restarted and five minutes have passed, a new client is granted the key with its old operation, or answered from its completed row |
| WriteService.WriteService.Reserve | apps/api/src/market_monitor_api/writes.py:139-146 | reserving in memory is the protocol's first step and refuses a key already reserved |
| WriteService.WriteService.RunClaim | apps/api/src/market_monitor_api/writes.py:148-226 | the claiming command is the protocol's claim step, and answers and writes as the claim promise spells out |
| WriteService.WriteService.MakeClaim | apps/api/src/market_monitor_api/writes.py:126-235 | a whole claim: a reserved key is refused; otherwise a new row or an expired lease is granted until five minutes from now with the next attempt, a running one is refused and nothing changes; the key stays reserved exactly when it was granted |
| WriteService.WriteService.RunComplete | apps/api/src/market_monitor_api/writes.py:249-285 | the completing command is the protocol's completion step; it audits exactly when it stores, and a publish callback that raises leaves row and audit as they were |
| WriteService.WriteService.CompleteClaim | apps/api/src/market_monitor_api/writes.py:237-290 | a whole completion publishes exactly when the row is in progress under the claim's lease, is answered from the stored row otherwise, stores and audits nothing if publishing raises, and gives the reservation back |
| WriteService.WriteService.ReleaseActive | apps/api/src/market_monitor_api/writes.py:394-397 | removes the reservation only of the same lease |
| WriteService.WriteService.Fail | apps/api/src/market_monitor_api/writes.py:292-325 | audits one failure per attempt and error, for a reservation of the same identity |
| NotificationSettings.NotificationSettings.Update | apps/api/src/market_monitor_api/writes.py:61-124 | replays; refuses a used key, a missing endpoint, or another tag than the current one, each with its error; or makes the one update that the tag admits and audits it; versions count the updates |
| NotificationSettings.ETagInjective | apps/api/src/market_monitor_api/writes.py:85-86 | an entity tag names one version |
| NotificationSettings.ETagSpells | apps/api/src/market_monitor_api/writes.py:85-86 | the tag spells the version in decimal digits |
| NotificationSettings.OneUpdatePerTag | apps/api/src/market_monitor_api/writes.py:85-94 | two updates never went through on the same tag |
| BackupProtocol.BackupsOfRun | apps/api/src/market_monitor_api/app.py:447-497 | in every run with publishing that raises before or after the move and crashes before the commit: each destination is written at most once and the response of a completed backup describes its file |
| BackupProtocol.OnlyTheHolderWrites | apps/api/src/market_monitor_api/app.py:447-497 | a destination changes only by the completing transaction of the client with the latest lease, and only if it did not exist |
| BackupRecovery.BackupRecovers | apps/api/src/market_monitor_api/app.py:441-497 | after any run the backup of a key is completed by one more attempt after a restart: the file that is there, or else the new one, is at its place and described by the answer, and no other file changed |
| BackupRoute.BackupRoute.RunClaimed | apps/api/src/market_monitor_api/app.py:452-497 | the work under the current lease: with no file and a backup that can be made and moved, the answer describes exactly that file and it is there; with a verifying file the answer describes it; otherwise no answer, and the file is there exactly if publishing raised after the move; the outcome is audited, nothing stays staged or reserved |
| BackupRoute.BackupRoute.CreateBackup | apps/api/src/market_monitor_api/app.py:441-497 | one request with a fresh key, or with a lease that ended, is answered and leaves its file and audit as just said; a completed one is answered again; reserved, running or of another request, it is not answered and nothing changes |
| QueryRecords.UpdatesAreLegal | migrations/versions/0007_api_security.py:180-199 | restart, completion and failure satisfy the CHECK and the trigger when the clock does not run back |
| QueryService.AdmissionKeepsLimit | apps/api/src/market_monitor_api/queries.py:188-199 | admitting a query after the check of the last minute keeps every closed minute within the limit |
| QueryService.QueryService.Prepare | apps/api/src/market_monitor_api/queries.py:283-341 | finds, restarts or admits a query, keeping the limit of every minute and the pinned sources |
| QueryService.QueryService.Complete | apps/api/src/market_monitor_api/queries.py:343-402 | completes and audits a running query once; a completed one is answered from its record |
| QueryService.QueryService.Fail | apps/api/src/market_monitor_api/queries.py:404-440 | fails a running query and never a completed one, and audits each failure once |
| QueryService.QueryService.Analyze | apps/api/src/market_monitor_api/queries.py:46-144 | one analysis at a time; a query that is its owner's, or that may be created, is answered exactly if its source could be evaluated, from the source pinned before or the official one; its record and audit are completed or failed; a completed query answers again the same |
| QueryProtocol.QueriesOfRun | apps/api/src/market_monitor_api/app.py:381-398 | in every run with retries, failures and crashes: a completed claim holds its record's response, each completed query was audited exactly once |
| QueryProtocol.RecordForever | apps/api/src/market_monitor_api/queries.py:283-308 | a record keeps its source for ever, and a completed one everything |
| QueryProtocol.CallersGetTheRecord | apps/api/src/market_monitor_api/app.py:381-398 | every answered caller got the response of the query record, drawn from its pinned source |
| QueryRecovery.QueryRecovers | apps/api/src/market_monitor_api/app.py:373-398 | after any run the query of a key is answered by one more attempt after a restart, from the source pinned before if there was one, and its record and claim hold that answer |
| QueryLimit.LimitOfRun | apps/api/src/market_monitor_api/queries.py:188-199 | in every run with any waiting, failures and crashes, no owner has more queries created within a minute than the limit: the lock keeps the count true until the record is written |
| QueryRoute.QueryRoute.AnalysisQuery | apps/api/src/market_monitor_api/app.py:373-398 | a request with a fresh key or a lease that ended is answered exactly if its query is, and that answer is stored and audited once; a completed claim is answered again; reserved, running or of another request, it is not answered and nothing changes |
| JsonText.CharRoundTrip | packages/contracts/src/market_monitor_contracts/models.py:173-184 | every character is read back from its escape, surrogate pairs included (section 7 of RFC 8259) |
| JsonText.StringsRoundTrip | packages/contracts/src/market_monitor_contracts/models.py:173-184 | an array of strings reads back |
| JsonGrammar.ArraysExactly | packages/contracts/src/market_monitor_contracts/models.py:182-188 | exactly the text that the grammar derives for an array of strings is read as one, and as the strings it spells |
| Base64Url.RoundTrip | packages/contracts/src/market_monitor_contracts/models.py:176-181 | bytes read back after padding is stripped and rebuilt from the length (section 5 of RFC 4648) |
| CursorCodec.CursorRoundTrip | packages/contracts/src/market_monitor_contracts/models.py:173-195 | decoding an encoded cursor gives its sort value and identifier |
| CursorCodec.CursorInjective | packages/contracts/src/market_monitor_contracts/models.py:173-195 | different positions have different cursors |
| CursorCodec.CursorExactly | packages/contracts/src/market_monitor_contracts/models.py:179-195 | of all strings written as a cursor, exactly a position with its own checksum is read as a position |
| CursorCodec.DecodesExactly | packages/contracts/src/market_monitor_contracts/models.py:179-195 | any text is read as a position exactly if its bytes spell the position and its checksum in JSON |
| KeysetPages.PageCovers | apps/api/src/market_monitor_api/repository.py:720-732 | a page lists the rows beyond its start in order and misses none up to where it goes on |
| KeysetPages.PageFills | apps/api/src/market_monitor_api/repository.py:720-732 | a page goes on exactly if a row lies beyond it, and then it is full |
| KeysetPages.ListingRefused | apps/api/src/market_monitor_api/repository.py:465-488 | a listing is refused exactly for a cursor that is no position with its checksum |
| KeysetPages.ListingOfPage | apps/api/src/market_monitor_api/repository.py:465-488 | a listing is the page of the position that its cursor stands for, and its next cursor stands for the page's end |
| KeysetPages.WalkEnumerates | apps/api/src/market_monitor_api/repository.py:633-650 | walking the cursors of a growing table shows rows in key order, none twice, and none missing that was there throughout |
| KeysetPages.NoRowTwice | apps/api/src/market_monitor_api/repository.py:633-650 | no key is shown twice |
| KeysetPages.WalkEnds | apps/api/src/market_monitor_api/repository.py:633-650 | over a table that stopped growing the walk ends |
| CursorPages.CursorPages.Request | apps/web/src/hooks/useCursorPages.ts:64-82 | numbers the request and, when starting over online, empties what was shown |
| CursorPages.CursorPages.Receive | apps/web/src/hooks/useCursorPages.ts:84-139 | merges a page only for the latest request and an unseen valid cursor; a failure of the latest request keeps what is shown and marks it, one of an older request changes nothing; the items stay the chain of merged pages, and a merged page mixes resources exactly if it was asked for without starting over while the page before is of another resource |
| CursorPages.CursorPages.ChangeResource | apps/web/src/hooks/useCursorPages.ts:143-149 | a new resource supersedes every request and starts over unless the connection is down |
| CursorPages.CursorPages.WentOffline | apps/web/src/hooks/useCursorPages.ts:152-161 | going offline supersedes every request and keeps the items |
| CursorPages.CursorPages.LoadMore | apps/web/src/hooks/useCursorPages.ts:176-180 | asks for the page after the last one, not while one is loading |
| CursorPages.CursorPages.Refresh | apps/web/src/hooks/useCursorPages.ts:157-183 | starts over with a new request when online, and keeps everything but the status otherwise |
| CursorPages.MergesExactly | apps/web/src/hooks/useCursorPages.ts:85-104 | a response counts exactly if it is the latest request's; its cursor is valid exactly if flagged truthfully and new to the chain |
| CursorPages.CursorPages.ReceiveFromService | apps/web/src/hooks/useCursorPages.ts:84-119 | a current response of the service is always merged |
| CursorPages.ServiceNeverLoops | apps/web/src/hooks/useCursorPages.ts:94-104 | against the service the guard for repeated cursors never fires |
| CursorPages.ShownRows | apps/web/src/hooks/useCursorPages.ts:108-114 | what the client shows of a growing table is the enumeration that walking gives |
| ShownResources.MixedExactly | apps/web/src/hooks/useCursorPages.ts:64-182 | over every sequence of events: pages of two resources are shown together if and only if the resource changed offline, the flag came back and more was merged before anything started over |
| CursorPages.ResourcesMixExactly | apps/web/src/hooks/useCursorPages.ts:64-182 | the same of the client itself, whose events are those of its methods |
| CursorPages.OtherResource | apps/web/src/hooks/useCursorPages.ts:143-149 | a page shown is of another resource than the chosen one only if that changed while offline since |
| CursorPages.ResourcesMix | apps/web/src/hooks/useCursorPages.ts:64-73 | a concrete run in which pages of two resources are shown together |
| Calibration.CountRuns | packages/analysis/src/market_monitor_analysis/calibration.py:117-170 | the loop adds up the counters of the runs |
| Calibration.Evaluate | packages/analysis/src/market_monitor_analysis/calibration.py:82-216 | counting the runs in the order of their evidence gives the report of the runs as given, with what never triggered |
| Calibration.CountsAddUp | packages/analysis/src/market_monitor_analysis/calibration.py:126-131 | quality, phase and effect counts each sum to the number of runs |
| Calibration.PausesInBetween | packages/analysis/src/market_monitor_analysis/calibration.py:128-144 | pauses lie between unfit runs and data limitations |
| Calibration.PassedExactly | packages/analysis/src/market_monitor_analysis/calibration.py:159-204 | PASS is exactly: fit runs exist, every run is sound, the 80 and 60 percent caps are met, every sampled code matched |
| Calibration.ReportPermutation | packages/analysis/src/market_monitor_analysis/calibration.py:114-216 | the report does not depend on the order of the runs |
| Calibration.VerdictRepetition | packages/analysis/src/market_monitor_analysis/calibration.py:172-204 | repeating all runs k times changes neither failures nor what never triggered nor the verdict |
| Calibration.GuardianCountsRuns | packages/analysis/src/market_monitor_analysis/calibration.py:145-148 | a Guardian count is the number of runs on which the rule counted |
| Calibration.NeverTriggered | packages/analysis/src/market_monitor_analysis/calibration.py:173-174 | a Guardian rule is listed as never triggered exactly if it counted on no run |
| CalibrationMeaning.SeenExactly | packages/analysis/src/market_monitor_analysis/calibration.py:118-170 | what is seen of a run: which rules count, which values reach their thresholds, the effect, and whether it is limited, from its values and fitness alone |
| CalibrationMeaning.CountsExactly | packages/analysis/src/market_monitor_analysis/calibration.py:117-170 | every counter of the report is the number of runs with a plain property; a snapshot conflicts as often as a Scout metric speaks for it while the Guardian speaks against it |
| CalibrationMeaning.FailuresExactly | packages/analysis/src/market_monitor_analysis/calibration.py:159-204 | exactly which failures are reported, each in terms of the runs |
| CalibrationMeaning.NeverExactly | packages/analysis/src/market_monitor_analysis/calibration.py:173-192 | exactly which Guardian and Scout rules are listed as never triggered, and which as never on the samples made for them |
| Calibration.MetricValues | packages/analysis/src/market_monitor_analysis/calibration.py:401-429 | accepts exactly one readable entry per expected code, each with a whole PPM, missing or not applicable, and returns the values present |
| ProductionWorker.KeyNamesMinute | packages/analysis/src/market_monitor_analysis/production_worker.py:143-144 | keys tell market minutes apart and order them |
| ProductionWorker.TargetExactly | packages/analysis/src/market_monitor_analysis/production_worker.py:224-252 | there is a target exactly if both exchanges give that minute: in session the one last completed, otherwise the right edge of the session if it is the current minute and within the grace; each reason has its exact case |
| ProductionWorker.ContinuousProductionWorker.Tick | packages/analysis/src/market_monitor_analysis/production_worker.py:126-216 | what a tick answers and calls; the lock is as before after every exit; one thread calls the runner once per change of key |
| ProductionWorker.ContinuousProductionWorker.RunForever | packages/analysis/src/market_monitor_analysis/production_worker.py:109-124 | polling with targets that do not go back calls the runner with strictly increasing keys, once for each market minute that was a target, whatever cycles raise |
| ProductionWorker.MutualExclusion | packages/analysis/src/market_monitor_analysis/production_worker.py:148-216 | concurrent cycles exclude each other |
| ProductionWorker.OnceExactly | packages/analysis/src/market_monitor_analysis/production_worker.py:145-162 | over every run of concurrent callers whose checks come in the order of their minutes: no key is called twice if and only if no caller got the lock for a key taken while it waited or run before its check behind an earlier last key |
| ProductionWorker.OnceUnlessPassed | packages/analysis/src/market_monitor_analysis/production_worker.py:145-162 | while no caller got the lock after a later minute was run in its wait: the keys called do not go back, and one is called twice exactly if another caller took it between its caller's check and lock |
| ProductionWorker.ForwardExactly | packages/analysis/src/market_monitor_analysis/production_worker.py:145-162 | the keys called strictly increase if and only if no caller got the lock after its key or a later one was called while it waited |
| ProductionWorker.SameKeyTwice | packages/analysis/src/market_monitor_analysis/production_worker.py:145-162 | two concurrent callers run the same key one after the other |
| ProductionWorker.KeysGoBack | packages/analysis/src/market_monitor_analysis/production_worker.py:145-162 | a key is run again after a later one, so the keys go back |
| ProductionWorker.HiddenMinute | packages/analysis/src/market_monitor_analysis/production_worker.py:145-162 | a key is run again although no caller took it while its caller waited |

## Left out

- Decimal precision: the 28 significant digits of the program's decimals, the text rendering of
  decimals in evidence, and the binary value of `n * 0.10` before its ceiling; the model is exact.
- Evidence lineage: the comparison of persisted metric evidence with its snapshot, manifest,
  thresholds and producer; commits, calibration and queries take verified facts as input.
- Notifications.NoticesTellTheTables: an intent freezes effect, risks, Scout result and event, not the
  rendered evidence items, confidence and limitations beside them.
- Unknown texts: codes, statuses and phases outside the known enumerations, which the program
  refuses, are outside the datatypes.
- AnalysisCommit.AnalysisCommitService.Commit: whether the evidence lineage holds is given;
  identifiers drawn by a refused transaction are not consumed; the check that a snapshot was
  committed concurrently is the same lookup as before.
- AnalysisCommit.AnalysisCommitService.WriteCommit: uniqueness of content hashes among tables is not
  modelled, since the hashed content holds fresh identifiers or the snapshot's own hash.
- Notifications.NotificationsOfRun: deliveries are as the commit writes them; the delivery worker is
  not part of this model.
- WriteService.WriteService.Fail: the row's clock and identifiers of the audit are drawn from the
  same counter of audits.
- LeaseProtocol.InvOfRun: a crash forgets reservations in memory but lets clients go on, as a second
  process would; the program has one process, so this allows more runs than it has.
- BackupProtocol.BackupsOfRun: files are changed by this protocol only, staged files verify, and the
  source database they copy is not modelled; a client that finds a destination which does not verify
  gives up, as the route does.
- BackupRoute.BackupRoute.CreateBackup: the clock is read once and no other request interleaves; both
  are covered by BackupProtocol. What the route raises is answered with nothing.
- QueryRoute.QueryRoute.AnalysisQuery: likewise one clock reading and one request at a time.
- QueryProtocol.QueriesOfRun: after the lock is taken and the clock read for the rate, looking up and
  writing the record is one step; the evaluation up to completing is an arbitrary content.
- QueryService.QueryService.Analyze: the length check of the query identifier and the text of errors.
- CursorCodec.DecodeCursor: payload bytes outside ASCII are refused, while the program also reads
  UTF-8, UTF-16 and UTF-32 payloads that it never writes.
- KeysetPages.WalkEnumerates: a row whose sort value and identifier are both empty is never listed;
  identifiers are never empty. Columns besides the key are one opaque content.
- CursorPages.CursorPages.Receive: state updates are atomic; rendering and the scheduling of state
  setters are not modelled.
- Calibration.Evaluate: the stored document, registration of the artifact and recording of the
  validation.
- ProductionWorker.ContinuousProductionWorker.Tick: emitted log events, the polling thread and the
  refusal of observations without a time zone.
- ProductionWorker.OnceExactly: the calls of the runner stand for the keys claimed, also by a worker
  that is disabled.
- Login, sessions, CSRF, request parsing, providers, gateways, the snapshot builder, the trading
  clock, threshold registration, reporting and the pages of the user interface.
