# Verified model of the cooperative evidence service

This Dafny project models how the service takes in runs, withdraws and challenges them, forms cohorts,
computes and releases cooperative answers, and runs its job queue, together with the runner's preview and
submit, and proves what these promise over every input, every interleaving and every run.

Four parts build on each other:

- **The evidence store.** `Evidence` holds the tables that intake and withdrawal change and each transaction
  as one atomic step. `Dedupe`, `Ledgers`, `Revisions` and `Steadiness` prove what every transaction keeps;
  `EvidenceLaws` states it for every reachable state, and `Storage` what intake and withdrawal leave column by
  column. `Database` runs the same transactions statement by statement over mutable fields and is proved equal
  to the steps. `Backfill` is the dedupe pass of the job.
- **The query.** `Queries` splits a cooperative query into its separate reads and its locked commit and lets
  any other step come between any two. `Freshness` proves the invariant of that machine for any decision
  procedure that meets a small contract, and `Answers` instantiates it with the service's own (`Outcomes`)
  and states the results: usable cache rows are fresh, releases stay apart, receipts that are not stale rest
  on unchanged evidence. `Basis` says over the columns which rows they rest on, `Pins` when a pinned answer
  says it cannot be reproduced, with `PinnedReceipt` a run to one, and `Commits` what a query is refused for,
  what its commit leaves and what an eviction deletes. `Evictions` shows that the two eager evictions cannot
  be observed.
- **The calculation.** `Contributors` (union-find against connectivity), `Sources` (the same over the rows),
  `Concentrations`, `Cohorts`, `Statistics`, `Readings` (the numbers of one run), `Calculation`, `Computing`
  (the loops), `OrderFree`, `Policy`, `Sections`, `Outcomes`, and `AttemptAccounting` for the runner's side of
  the totals. `Bands` and `ThinSpreads` say what the bands of a
  released answer tell, `Disclosure` carries that to every receipt the service can reach, and `ThinReceipt` is
  a run of the service to one.
- **Stateful pieces and encodings.** `Jobs` and `JobHistory` (one worker's methods, all workers' runs),
  `RateLimit`, `Challenges` with `ChallengeLaws`, `FilingLimit` and `ChallengeLedger`, `Predictions`,
  `Submitting` with `Resubmission` and `RunnerVault`; canonical JSON (`Text`, `Numbers`, `Strings`, `Json`,
  `Canonical`, `CanonicalLaws`, `CanonicalForm`, `Serialize`), `Signing`, `Projection`, JSON pointers
  (`Pointer`) and the sanitizer's walk (`Sanitize`).

Code that changes things step by step is a method proved against a function of its inputs or of the old
state; the laws are then lemmas about that function. `dafny verify dfyconfig.toml` checks everything.

Where the code and its comments disagree the model follows the code. Seven promises do not hold as stated. For
each there is an input and the exact condition under which it does hold:

- the wait a `FailureWindow` returns unblocks (`RateLimit.UnblocksIff`, `RateLimit.BurstStaysBlocked`);
- done and failed jobs stay so (`JobHistory.FinishedLeftIff`, `JobHistory.LateSettleReopens`);
- a job's attempts stay within the limit (`JobHistory.LimitHoldsUnlessPutBack`, `JobHistory.BoundIsMet`) and a
  crash loop lands in failed (`JobHistory.EverFailedIff`, `JobHistory.CrashLoopNeverFails`);
- a re-upload after a withdrawal is a fresh contribution (`EvidenceLaws.FreshIff`,
  `EvidenceLaws.ReuploadNotFresh`);
- an unchanged draft keeps its `signed_at` (`Submitting.OneDigestIff`, `Submitting.TornPreviewSignsAgain`);
- no spread of a released answer shows `<5` runs (`ThinSpreads.NoThinSpreadIff`,
  `ThinReceipt.ThinSpreadReleased`; for the other bands `Bands.MissingnessTold` and `Bands.FindingTold`);
- no organization files more than 5 challenges in a rolling 24 hours (`FilingLimit.LimitKeptIff`,
  `FilingLimit.LateLockExceedsLimit`).

## Model

| member | source | states |
|---|---|---|
| `Answers.CachedIsFresh` | packages/service/src/modules/aggregate/index.ts:390-517 | In every state any interleaving can reach, a cache row the read accepts equals the outcome a fresh evaluation gives now, although the release log has grown since it was written |
| `Answers.UnstaleIsCurrent` | packages/service/src/modules/intake/index.ts:230-240 | A query receipt that does not read stale was computed from exactly the candidate rows (flags included) its protocol, filters and revision select now, none of them withdrawn, and its outcome is what a fresh evaluation gives now; `Basis.AllShareable` says over the columns which rows those are |
| `Basis.OnlyShareable` | packages/service/src/modules/matching/index.ts:81-92 | Every receipt of every reachable state, stale or not, and every cache row rests only on cooperative, non-fixture, original rows of its protocol, from a registered harness, succeeded or failed, that carry every filter key with that value, live when read, no later than its revision, no run twice |
| `Basis.AllShareable` | packages/service/src/modules/matching/index.ts:81-92 | A receipt that is not stale rests on every such row that is live now, and on no other |
| `Basis.CandidatesAre` | packages/service/src/modules/matching/index.ts:81-92 | Over any table, the candidates of a query are exactly the live such rows up to its revision |
| `Basis.NextSourced` | packages/service/src/modules/aggregate/index.ts:390-517 | Every step of the query machine keeps that all rows it holds for a query are such rows of that query |
| `Answers.ReleasesApart` | packages/service/src/modules/aggregate/policy.ts:57-67 | Any two recorded releases of a protocol have equal member sets or differ by at least 3 organizations, whatever queries ran concurrently |
| `Answers.ReleasedIsLogged` | packages/service/src/modules/aggregate/index.ts:437-516 | Every released receipt, one served from the cache included, has the organizations of the rows it was computed from, all of them and no others, in the release log |
| `Answers.ReceiptsApart` | packages/service/src/modules/aggregate/index.ts:437-455 | Two released receipts of a protocol rest on the same organizations or on cohorts at least 3 organizations apart |
| `Answers.ReleasedShowsEnough` | packages/service/src/modules/aggregate/calc.ts:463-580 | No released receipt, fresh or stale, cached or not, shows for its cohort or for a released finding fewer than 3 organizations or fewer than 5 runs, or a majority contributor of the cohort, or an exact attempt total below 11 |
| `Disclosure.ReceiptsTell` | packages/service/src/modules/aggregate/calc.ts:416-580 | For every released receipt any interleaving can reach: each metric and statistic shown has the band of the eligible runs that supply it, `<5` exactly when fewer than 5 do; each finding the bands of its eligible runs and contributors; the unknown-context, known-key, below-minimum and cohort bands, days and attempt totals are those of its rows; a contradiction is listed exactly where two organizations disagree; and no spread shows `<5` if and only if 5 eligible runs supply every metric and statistic shown |
| `Disclosure.ReceiptTotalsReconcile` | packages/contracts/src/validate.ts:97-105 | While every accepted run reconciles, the attempt totals behind every released receipt of every run of the service reconcile, and exactly those totals of 11 or more are shown |
| `Disclosure.NextTold` | packages/service/src/modules/aggregate/index.ts:400-517 | Every step of the query machine keeps that each outcome it holds is the verdict on the rows it remembers, counted no fewer, up to the pin limitation and the differencing suppression |
| `Answers.StaleStays` | packages/service/src/modules/intake/index.ts:215-240 | Over any continuation of a run receipts and releases are kept, what is stale stays stale, and at a fixed revision candidate sets only shrink |
| `Answers.SoloRunAnswersFresh` | packages/service/src/modules/aggregate/index.ts:303-388 | The fresh answer the other results refer to is the machine's own: a query that runs alone past the cache commits exactly it and leaves the rest of the state as that commit does |
| `Answers.ServiceProper` | packages/service/src/modules/aggregate/index.ts:303-388 | The decision procedure gives the query machine what its proofs assume: a member set exactly when released, the members and count of the rows it was given, and nothing unfit to show |
| `Answers.AcceptedIsFresh` | packages/service/src/modules/aggregate/releases.ts:35-52 | What the read phase takes from the cache is at that moment the answer a fresh evaluation gives; a row it refuses is gone and the query computes its answer |
| `Answers.CachedWereFormed` | packages/service/src/modules/aggregate/index.ts:511-516 | Only answers of decrypted cohorts are ever cached, each under its own query, protocol and revision |
| `Answers.CacheRowsStand` | packages/service/src/modules/aggregate/releases.ts:54-68 | A cache row is never rewritten: a later writer of the same key leaves it alone |
| `Evictions.EvictionUnobservable` | packages/service/src/modules/jobs/handlers.ts:111-118 | In every reachable state each cache row a withdrawal job or a resolution evicts is one the read would refuse and delete itself |
| `Freshness.NextSound` | packages/service/src/modules/aggregate/index.ts:390-517 | Every step of the query machine (each read, the commit, an abort, any evidence transaction in between) keeps the invariant the results rest on |
| `Freshness.TransactSound` | packages/service/src/modules/intake/index.ts:262-398 | An intake, withdrawal, repair or resolution that commits between two reads of a query leaves every cache row, receipt, release and half-finished query either as true as before or stale |
| `Freshness.CommitSound` | packages/service/src/modules/aggregate/index.ts:437-516 | The locked commit keeps releases apart, logs the member set it releases, and caches only what it issued |
| `Freshness.NewReleaseApart` | packages/service/src/modules/aggregate/index.ts:440-455 | Checking every prior release and recording the new one under one lock keeps all releases of the protocol pairwise compatible |
| `Freshness.PinReproduced` | packages/service/src/modules/aggregate/releases.ts:87-107 | Where the evidence has not moved since the pinned revision, a pinned release always reproduces, so the limitation is not added; `Pins.PinLimitedIff` says when it is |
| `Freshness.PriorsClash` | packages/service/src/modules/aggregate/releases.ts:70-79 | The prior sets the check reads are the member sets of the protocol's log rows, all of them and no others |
| `Pins.PinLimitedIff` | packages/service/src/modules/aggregate/releases.ts:87-107 | In every reachable state the verdict of a query says that its pin is not reproducible if and only if it is a release, the query is pinned, and the earliest log row of its protocol, filters and revision, by release time, then id, has other organizations or another number of runs |
| `Pins.FirstIsEarliest` | packages/service/src/modules/aggregate/releases.ts:95-102 | The ordered lookup finds that earliest row, and nothing exactly when the log has none |
| `PinnedReceipt.WithdrawnPinTold` | packages/service/src/modules/aggregate/index.ts:368-382 | For every n from 5 on below the cap a run of the service reaches two released receipts of one revision, protocol and filters on the same organizations: one on n + 1 runs, and, one of them withdrawn, a pinned one on the n others, which alone carries the limitation |
| `Commits.CommitTold` | packages/service/src/modules/aggregate/index.ts:437-516 | The commit appends one receipt, suppressed for differencing exactly when a recorded release of the protocol is one or two organizations away, then with its bands but no sections; it records a release exactly when it shows one, and caches a computed answer of a decrypted cohort unless the key is taken |
| `Commits.RefusalTold` | packages/service/src/modules/aggregate/index.ts:392-405 | A query starts exactly when its protocol is registered, every filter key is one the protocol requires, and a pinned revision exists; else it is told the first of these that fails |
| `Commits.ReadTold` | packages/service/src/modules/aggregate/releases.ts:35-52 | In every reachable state a query that looks takes the cache row of its query and revision, whenever there is one |
| `Commits.EvictTold` | packages/service/src/modules/jobs/handlers.ts:86-124 | A cache row is evicted exactly by a resolution of its protocol after its revision, or by the job of a recorded withdrawal after its revision that touched its protocol |
| `Answers.LimitNeverCuts` | packages/service/src/modules/matching/index.ts:128-153 | A cohort counted within the cap is loaded whole: between the two reads its candidates only leave, so the LIMIT never cuts |
| `Database.Store.CommitAnswer` | packages/service/src/modules/aggregate/index.ts:437-516 | The commit statement by statement leaves the tables in the state of the atomic commit step: differencing check, receipt, release row, cache row only if absent |
| `Database.Store.ReadCachedOutcome` | packages/service/src/modules/aggregate/releases.ts:35-52 | Returns the row exactly when its protocol matches and no later revision touched it; an overtaken row is deleted, every other row stays |
| `Database.Store.StoreRun` | packages/service/src/modules/intake/index.ts:254-399 | Replies and leaves the tables as the intake step says: revoked node, replay of the same content, conflict, or a stored run with its flags, revision, log entry, receipt and ledger count |
| `Database.Store.MarkShared` | packages/service/src/modules/intake/index.ts:287-312 | The duplicate is the organization's earliest live original of the measurement, else its earliest live row, and none exactly when it has no live row; a live row of another organization flags every row of the measurement |
| `Dedupe.OriginalIsEarliest` | packages/service/src/modules/intake/index.ts:289-303 | What the ordered lookup names is the earliest live original by receipt time and id, else the earliest live row, of all the organization's live rows |
| `Database.Store.WithdrawRuns` | packages/service/src/modules/withdrawal/index.ts:111-206 | Replies and leaves the tables as the withdrawal step says: bad size, revoked node, any id not owned, the same set again, or marks, per-protocol ledger moves and one log entry per protocol |
| `Database.CountPerProtocol` | packages/service/src/modules/withdrawal/index.ts:176-184 | The per-protocol counter counts exactly the countable rows the request marked |
| `Database.MoveCounts` | packages/service/src/modules/withdrawal/index.ts:185-192 | The update loop moves the counted rows from accepted to withdrawn in the organization's existing ledger rows and touches nothing else |
| `Database.Store.ApplyWithdrawal` | packages/service/src/modules/jobs/handlers.ts:86-124 | Re-asserts the marks of the recorded set and evicts exactly the overtaken cache rows of the protocols it touched |
| `Database.Store.RepairContributions` | packages/service/src/modules/cohort/contributions.ts:48-74 | The upsert followed by the zeroing leaves the recount of every group and zero elsewhere |
| `EvidenceLaws.SharedAlwaysFlagged` | packages/service/src/modules/intake/index.ts:304-312 | With deduplication on throughout, once live rows of one protocol and digest come from two organizations, every row of that measurement is flagged |
| `EvidenceLaws.OneLiveOriginal` | packages/service/src/modules/intake/index.ts:300-303 | An organization never has two live originals of one protocol and digest |
| `EvidenceLaws.FreshIff` | packages/service/src/modules/intake/index.ts:285-330 | A submission is a fresh contribution, at a new revision, exactly when its organization has no live row of the measurement |
| `Storage.StoredTold` | packages/service/src/modules/intake/index.ts:285-399 | Intake of a new run id appends one row: the columns of the submission, a fixture forced private, flagged exactly when another organization has a live row of the measurement, a duplicate exactly when its own has one, with the receipt, revision, log entry and ledger count that go with it |
| `Storage.HeldTold` | packages/service/src/modules/intake/index.ts:264-283 | In every reached state a held run id is replayed to the organization that holds it with that content, conflicts for anything else, and changes no table |
| `Storage.WithdrawnTold` | packages/service/src/modules/withdrawal/index.ts:111-206 | In every reached state: which of the replies a withdrawal gets; a new one of 1 to 100 own runs marks exactly the live ones among them, logs each of their protocols once and is recorded; anything else changes nothing |
| `EvidenceLaws.ReuploadNotFresh` | packages/service/src/modules/intake/index.ts:285-303 | The input against a re-upload after a withdrawal being fresh: two uploads, the original withdrawn, a third upload; it is a duplicate of the second, and no query counts the measurement any more |
| `EvidenceLaws.DuplicateIsInvisible` | packages/service/src/modules/intake/index.ts:315-330 | A duplicate intake appends its own row and changes no revision, log entry, ledger count, flag of another row, or candidate set of any query |
| `Dedupe.DuplicateLeadsToOriginal` | packages/service/src/modules/intake/index.ts:300-303 | Following duplicate_of goes strictly back and ends at an original of the same organization, protocol and measurement |
| `Dedupe.AppendedFits` | packages/service/src/modules/intake/index.ts:289-312 | What the lookup decides about a new row is what the invariants need: duplicate of a live own row, no live own row if original, flagged if shared |
| `EvidenceLaws.LedgerAlwaysExact` | packages/service/src/modules/cohort/contributions.ts:29-74 | After any sequence of intakes, duplicates, fixture runs and overlapping withdrawals the ledger equals a recount, the greatest(..., 0) clamp never bites, and a repair changes no count |
| `EvidenceLaws.ReplayHasReceipt` | packages/service/src/modules/intake/index.ts:276-283 | The branch that throws because a stored run has no receipt is never reached |
| `EvidenceLaws.RowsStand` | packages/service/src/modules/withdrawal/index.ts:164-175 | Over any run rows are only appended; a stored row changes in nothing but its flag, only raised, and its withdrawal mark, set once |
| `EvidenceLaws.WithdrawalIsIdempotent` | packages/service/src/modules/withdrawal/index.ts:135-150 | Once a set was withdrawn, asking for it again, after whatever else happened, returns the original id and revision and changes nothing |
| `Ledgers.MarkMovesCounts` | packages/service/src/modules/withdrawal/index.ts:164-192 | Marking moves exactly the countable live rows it hits from one count to the other, and there are enough of them |
| `Ledgers.RepairRestores` | packages/service/src/modules/cohort/contributions.ts:48-74 | From any ledger, however corrupted, a repair restores the recount for every protocol and organization |
| `Backfill.PassEstablishesDedupe` | packages/service/src/modules/jobs/handlers.ts:276-306 | One dedupe pass over any table, whatever was accepted while the flag was off, leaves shared measurements flagged and one live original per organization and measurement |
| `Backfill.MarkedLeadsToOriginal` | packages/service/src/modules/jobs/handlers.ts:277-294 | A row the pass marks names a strictly earlier row of the same organization and measurement that stays a live original |
| `Revisions.ApplySound` | packages/service/src/modules/intake/index.ts:262-398 | Every transaction keeps the invariants of the evidence tables: unique ids, dated rows, honoured withdrawals, receipts, exact ledger, deduplication |
| `Revisions.OwnedIsAll` | packages/service/src/modules/withdrawal/index.ts:128-133 | As many owned rows as ids means every id is one of the organization's runs |
| `Revisions.ReassertChangesNothing` | packages/service/src/modules/jobs/handlers.ts:103-110 | The marks the job re-asserts are always there already |
| `Steadiness.ApplyEvolves` | packages/service/src/modules/intake/index.ts:315-330 | Any transaction either logs a newer revision for a protocol or leaves all of its candidate sets and flags alone; at a fixed revision candidates only leave |
| `Steadiness.WithdrawalLogged` | packages/service/src/modules/withdrawal/index.ts:193-198 | Every protocol with a row the withdrawal marks is logged at the new revision |
| `Steadiness.RunSound` | packages/service/src/modules/withdrawal/index.ts:121-206 | Any sequence of transactions keeps every invariant and evolves candidate sets as one transaction does |
| `Outcomes.ResolveOutcome` | packages/service/src/modules/aggregate/index.ts:303-388 | The branches over the grouped or loaded rows give the decision of the specification |
| `Outcomes.ToSamples` | packages/service/src/modules/aggregate/index.ts:278-294 | One sample per row, and the contributor units of the rows |
| `Outcomes.DecideOrderFree` | packages/service/src/modules/aggregate/index.ts:303-388 | The whole answer is a function of the multiset of candidate rows |
| `Outcomes.CohortOrderFree` | packages/service/src/modules/aggregate/calc.ts:360-406 | Row order, and so ranking and storage order, changes nothing the calculation reports, although it may change which organization stands for a merged group |
| `Outcomes.CapBandAgrees` | packages/service/src/modules/aggregate/index.ts:324-338 | The organization and run bands of a cohort_too_large answer, from rows grouped in any order, are the bands the decrypting path gives on the same candidates |
| `Outcomes.GateExact` | packages/service/src/modules/aggregate/calc.ts:463-506 | Released exactly when the cohort passes all three thresholds, a finding exactly when its eligible runs do, and eligible plus below-minimum runs are the cohort |
| `Outcomes.VerdictTold` | packages/service/src/modules/aggregate/index.ts:303-388 | On the candidates it counted a query is answered no evidence when there are none, a cohort too large beyond the cap, else released exactly with 3 contributors, 5 runs and no majority, each missed threshold named, always with the bands of all rows |
| `Outcomes.ReleaseShowsEnough` | packages/service/src/modules/aggregate/calc.ts:463-580 | For its cohort and for each released finding a released answer shows at least 3 organizations and 5 runs, for the cohort no majority contributor, and no exact total below 11; the other bands are in Bands |
| `Bands.MetricTold` | packages/service/src/modules/aggregate/calc.ts:318-345 | The bands of a metric and of each of its statistics count the eligible runs that supply it, not the runs the gate counted, with no spread exactly when none does; each percentile is the least supplied number that covers its share, minimum and maximum bound them all, and the unit is the protocol's |
| `Bands.EntryTold` | packages/service/src/modules/aggregate/calc.ts:471-486 | Each entry of the distributions belongs to the last released claim of its name and the last metric of that name, and its bands are those of that metric |
| `Bands.AllMetricsShown` | packages/service/src/modules/aggregate/calc.ts:485-486 | A released claim shows exactly the metrics it lists |
| `Bands.FindingTold` | packages/service/src/modules/aggregate/calc.ts:471-500 | A finding shows the bands of the runs and contributors eligible for its claim and the metrics of the claim, and is released exactly when they pass all three thresholds, else withheld with each threshold it misses |
| `Bands.MissingnessTold` | packages/service/src/modules/aggregate/calc.ts:508-557 | The unknown-context, known-key and below-minimum bands are those of the runs whose columns miss or know a required key that no filter fixes, or miss the claim's minimums, for exactly those keys and claims; a key listed twice counts its runs twice; each attempt total is the sum over the rows, exact from 11 on |
| `Bands.CohortTold` | packages/service/src/modules/aggregate/calc.ts:502-580 | The cohort bands count its runs and contributors; the filters, the unfiltered keys, tail support from 20 runs on, the days of the oldest and newest run, and the fixed limitations are those of its rows |
| `Bands.ContradictionTold` | packages/service/src/modules/aggregate/calc.ts:289-310 | A contradiction is listed exactly for a metric of a released claim on whose p50 two organizations with two numbers each have quartile ranges that share no point |
| `ThinSpreads.NoThinSpreadIff` | packages/service/src/modules/aggregate/calc.ts:416-438 | No spread of a released answer shows `<5` if and only if each metric of each released claim is supplied by at least 5 of its eligible runs and each statistic by none or at least 5 |
| `ThinReceipt.ThinSpreadReleased` | packages/service/src/modules/aggregate/calc.ts:318-345 | The input: with the flag on or off, for every cohort size from 5 and every number, the service reaches by intakes and one query a released receipt whose metric shows `<5` and the exact number of the one run that carries it |
| `ThinSpreads.SoleCarrierExposed` | packages/service/src/modules/aggregate/calc.ts:162-176 | A spread over one run shows that run's own number as every percentile and both extremes |
| `ThinSpreads.FewBehindIff` | packages/service/src/modules/aggregate/calc.ts:318-345 | Fewer than 3 contributors are behind a shown statistic exactly when of any three eligible runs that supply it two come from one organization or from organizations linked by a chain of flagged shared measurements |
| `ThinSpreads.CarriedByAll` | packages/service/src/modules/aggregate/calc.ts:318-345 | A statistic every eligible run has rests on exactly the runs and contributors the gate looked at |
| `ThinSpreads.MajorityIff` | packages/service/src/modules/aggregate/calc.ts:252-260 | The largest share is over a half exactly when one contributor supplies more than half of the runs |
| `Policy.ThresholdReasons` | packages/service/src/modules/aggregate/policy.ts:38-44 | Lists exactly the thresholds missed; empty exactly when the cohort qualifies |
| `Policy.SymmetricDifference` | packages/service/src/modules/aggregate/policy.ts:46-51 | Counts the organizations in exactly one of the two sets |
| `Policy.DifferencingConflict` | packages/service/src/modules/aggregate/policy.ts:57-67 | True exactly when some prior set is neither the current one nor at least 3 organizations away |
| `Sections.ReleaseSections` | packages/service/src/modules/aggregate/calc.ts:463-580 | The loop over the claims and the fixed templates give the specified sections |
| `Sections.SpreadsOfReleasedClaims` | packages/service/src/modules/aggregate/calc.ts:471-496 | Spreads are shown for exactly the claims with a released finding |
| `Sections.ContradictionsOfReleasedClaims` | packages/service/src/modules/aggregate/calc.ts:497-506 | Contradictions are listed for released claims only, and then all of them |
| `Computing.ComputeLoop` | packages/service/src/modules/aggregate/calc.ts:360-406 | The accumulating loops give the specified totals, unknown and known counts, freshness, concentration and claims |
| `Computing.KnowKeys` | packages/service/src/modules/aggregate/calc.ts:384-389 | The inner loop counts each known key once per listing and notices any unknown one |
| `Computing.ClaimLoop` | packages/service/src/modules/aggregate/calc.ts:312-357 | The metric loop gives every metric its entry and every disagreement its contradiction |
| `Readings.StatIsNumber` | packages/service/src/modules/aggregate/calc.ts:275-280 | The number of a statistic is the one stored under "p50", "p90", "p95" or "p99" in the object at the metric's path |
| `Readings.RateIsFraction` | packages/service/src/modules/aggregate/calc.ts:282-287 | A rate is the number at the path, else failed by attempted of the run's own accounting, else nothing |
| `Readings.NumberValues` | packages/service/src/modules/aggregate/calc.ts:275-287 | The value of a printed number: its digits as an integer when the point is behind them, ten times as much per place, negated by the sign |
| `OrderFree.ComputeOrderFree` | packages/service/src/modules/aggregate/calc.ts:360-406 | The computation depends only on the multiset of samples and on which organizations are merged |
| `Concentrations.Concentrate` | packages/service/src/modules/aggregate/calc.ts:252-260 | The per-contributor map gives the number of contributors and the share of the largest |
| `Concentrations.ConcentrationRelabelled` | packages/service/src/modules/aggregate/calc.ts:252-260 | Which organization stands for a merged group does not show in the concentration |
| `Cohorts.CohortPreview` | packages/service/src/modules/cohort/index.ts:104-142 | Counting over rows grouped by organization, digest and flag gives the preview of one row per run |
| `Cohorts.GroupedUnits` | packages/service/src/modules/aggregate/index.ts:324-334 | The distinct units of the grouped rows are the contributors of the single runs |
| `Concentrations.WeightIsCount` | packages/service/src/modules/matching/index.ts:113-125 | Summing group counts under any condition on the grouping key counts the rows that meet it |
| `Contributors.ContributorOf` | packages/service/src/modules/cohort/index.ts:72-102 | The union-find loops terminate on every input and give each organization its specified unit |
| `Contributors.UnitsAreChains` | packages/service/src/modules/cohort/index.ts:72-102 | Two organizations get one unit exactly when a chain of flagged shared digests connects them, and every unit is a member of its own group |
| `Sources.LabelsTold` | packages/service/src/modules/cohort/index.ts:72-101 | Two runs of a cohort have one contributor exactly when a chain of flagged rows with one measurement digest leads from the organization of one to that of the other |
| `Contributors.PartitionIgnoresOrder` | packages/service/src/modules/cohort/index.ts:72-102 | Row order, repetition and grouping never change the partition |
| `Contributors.Find` | packages/service/src/modules/cohort/index.ts:74-85 | Following parents terminates at the root of the group |
| `Statistics.NearestRankIsLeast` | packages/service/src/modules/aggregate/calc.ts:143-149 | The nearest rank is the least observed value with at least p percent of the values at or below it |
| `Statistics.SpreadOrdered` | packages/service/src/modules/aggregate/calc.ts:162-174 | min <= p50 <= p90 <= p95 <= p99 <= max for every non-empty list; which ranks they are is `Statistics.SpreadRanks` |
| `Statistics.SpreadObserved` | packages/service/src/modules/aggregate/calc.ts:162-174 | Every statistic of a spread is an observed value, and min and max bound all of them; which one is `Statistics.SpreadRanks` |
| `Statistics.SpreadRanks` | packages/service/src/modules/aggregate/calc.ts:143-174 | p50, p90, p95 and p99 of any values in any order are each the least of them with at least 50, 90, 95 or 99 percent of them at or below it |
| `Statistics.QuartileRanks` | packages/service/src/modules/aggregate/calc.ts:176-191 | The quartiles are the least values with at least 25 and 75 percent at or below |
| `Statistics.ContradictionsFor` | packages/service/src/modules/aggregate/calc.ts:289-310 | Reported exactly when two organizations with at least two values each have disjoint quartile ranges |
| `Statistics.DisjointSharesNoPoint` | packages/service/src/modules/aggregate/calc.ts:189-191 | The disjointness test holds exactly when no point lies in both ranges |
| `Matching.RankingPermutes` | packages/service/src/modules/matching/index.ts:203-215 | Ranking returns the same runs, best known context first and oldest first among equals |
| `Matching.RankScore` | packages/service/src/modules/matching/index.ts:186-197 | The loop sums the origin tiers of the unfiltered required keys |
| `Matching.ScoreTold` | packages/service/src/modules/matching/index.ts:155-197 | The score is two for every unfiltered required key measured or reported by an operator, one for a provider's |
| `Matching.LoadKeepsOldest` | packages/service/src/modules/matching/index.ts:144-149 | What is loaded are the oldest candidates, ties by id, as many as the limit allows |
| `Matching.ByReceiptPermutes` | packages/service/src/modules/matching/index.ts:145-149 | The order rows are stored in does not show in the order they are loaded |
| `AttemptAccounting.DeriveAccounting` | packages/runner/src/run.ts:131-157 | The accounting always reconciles, also when more attempts were reported than planned, and the missing attempts go where they belong |
| `AttemptAccounting.FinishSucceeded` | packages/runner/src/run.ts:476-503 | A run keeps `succeeded` exactly when every planned attempt and no other was reported and nothing is wrong; then its accounting holds no unreported attempt |
| `AttemptAccounting.TotalsReconcile` | packages/contracts/src/validate.ts:97-105 | Sums of reconciling runs reconcile |
| `ChallengeLaws.DisputedIffResolvedAgainst` | packages/service/src/modules/challenge/index.ts:490-496 | A measured claim is disputed exactly when some resolved challenge bearing on it was upheld or superseded, and its status is that of the latest such resolution by revision |
| `ChallengeLaws.ResolutionRecorded` | packages/service/src/modules/challenge/index.ts:505-621 | Each resolution is at its own revision, adds one counter-claim and exactly one relationship per claim it bears on, all at that revision: upheld contradicts and disputes them, rejected narrows and leaves them, superseded supersedes and rejects them |
| `ChallengeLaws.ResolutionStands` | packages/service/src/modules/challenge/index.ts:519-519 | A resolved challenge keeps its resolution and revision, and relationships are never removed, whatever follows |
| `ChallengeLaws.EnsureKept` | packages/service/src/modules/challenge/claims.ts:85-139 | Creating the claims of a receipt late keeps every law, because no resolved challenge bears on a claim that does not exist yet |
| `ChallengeLaws.ClaimsCreated` | packages/service/src/modules/challenge/claims.ts:76-140 | Creating a receipt's claims adds one supported, unreplicated claim per finding it released that has none, and none for a receipt that released nothing |
| `ChallengeLaws.AcknowledgeTold` | packages/service/src/modules/challenge/index.ts:623-640 | Acknowledging changes the status of an open challenge and nothing else |
| `FilingLimit.LimitKeptIff` | packages/service/src/modules/challenge/index.ts:366-420 | Over every run: no organization has more than 5 filings in a rolling 24 hours if and only if each stored filing had room in every window its stamp falls into |
| `FilingLimit.InOrderLimitIff` | packages/service/src/modules/challenge/index.ts:371-388 | While stamps do not run backwards, that is: if and only if each stored filing found fewer than 5 in the window that ends at its own stamp |
| `FilingLimit.FilingKeepsLimitIff` | packages/service/src/modules/challenge/index.ts:376-388 | The same for one filing: it keeps the limit exactly when every window it falls into had room |
| `FilingLimit.StoredIff` | packages/service/src/modules/challenge/index.ts:366-395 | A new filing against a challengeable target is stored exactly when the organization's own filings of the last 24 hours are fewer than 5 |
| `FilingLimit.WaitIsLeast` | packages/service/src/modules/challenge/index.ts:359-364 | The seconds answered to a refused filing are the fewest, but at least one, after which the oldest filing of the window has left it |
| `FilingLimit.FilingsStaySpaced` | packages/service/src/modules/challenge/index.ts:371-388 | The limit holds over every run in which no filing waits so long for the lock that its count overlooks one inside the window ending at its stamp, whatever order the stamps are in |
| `FilingLimit.LateLockExceedsLimit` | packages/service/migrations/1757700000000_challenge.sql:54-54 | The input: five filings at 0, a sixth stamped when its transaction begins a millisecond before they leave the window and counted two later: six in one window |
| `FilingLimit.WaitingMakesRoom` | packages/service/src/modules/challenge/index.ts:359-364 | From a window of at most 5, waiting the returned seconds makes room when nothing else was filed |
| `ChallengeLedger.Ledger.ResolveChallenge` | packages/service/src/modules/challenge/index.ts:505-621 | Replies and leaves the tables as the resolution step says: unknown, already resolved, or revision, lazy claims, counter-claim, relationships, claim updates; the log entry and the cache eviction are those of the query machine's resolution step |
| `ChallengeLedger.Ledger.RelateTargets` | packages/service/src/modules/challenge/index.ts:577-603 | The loop adds one relationship per target and updates exactly the targets |
| `ChallengeLedger.Ledger.EnsureClaimsForReceipt` | packages/service/src/modules/challenge/claims.ts:85-139 | One claim per released finding; claims that exist are kept as they are |
| `ChallengeLedger.Ledger.FileChallenge` | packages/service/src/modules/challenge/index.ts:366-420 | Each of the five replies exactly when: revoked, then rate limited with the seconds until the oldest filing leaves the window, not found for a target the filer does not hold or a replication run it does not own, not released for a suppressed receipt, else the one row is stored |
| `Predictions.OutcomeLedger.RecordOutcome` | packages/service/src/modules/challenge/index.ts:1051-1110 | Recorded exactly once per prediction; target_mismatch exactly when the restated target differs beyond member order or the receipt differs |
| `JobHistory.AttemptsBounded` | packages/service/src/modules/jobs/index.ts:161-230 | For any number of workers, crashes and recoveries attempts equal claims and never exceed maxAttempts (at least one) plus the stale recoveries |
| `JobHistory.BoundIsMet` | packages/service/src/modules/jobs/index.ts:161-171 | The bound is tight for every policy and every number of stale recoveries |
| `JobHistory.AtLimitIff` | packages/service/src/modules/jobs/index.ts:161-230 | A job comes to wait for a claim with its attempts used up exactly when a step recovers its stale lock, or is a late settle that still asks for a retry |
| `JobHistory.LimitHoldsUnlessPutBack` | packages/service/src/modules/jobs/index.ts:161-230 | Over every run: a used-up job waits again exactly when some step put it back, is past the limit exactly when it was claimed at it, and when handlers settle in time every such step is a recovery |
| `JobHistory.FailsIff` | packages/service/src/modules/jobs/index.ts:161-230 | A job becomes failed exactly when a settle of it finds the attempts of its own claim used up or its error not retryable; no crash, recovery or claim fails one |
| `JobHistory.EverFailedIff` | packages/service/src/modules/jobs/index.ts:200-230 | Over every run a job is failed at some moment if and only if some step of the run settles it out that way |
| `JobHistory.CrashesNeverFail` | packages/service/src/modules/jobs/index.ts:5-11 | Over every run in which no claim of the job settles it never lands in failed, however often it is claimed |
| `JobHistory.CrashLoopNeverFails` | packages/service/src/modules/jobs/index.ts:5-11 | The input: for every policy and every n a run of n claims, crashes and recoveries leaves the job runnable with n attempts |
| `JobHistory.TimelyRunExclusive` | packages/service/src/modules/jobs/index.ts:179-230 | If every surviving handler settles within staleLockMs of its claim, no two live workers hold one job and done or failed rows never change |
| `JobHistory.FinishedLeftIff` | packages/service/src/modules/jobs/index.ts:209-230 | Without that assumption a finished row is left exactly by a late settle that asks for a retry |
| `JobHistory.LateSettleReopens` | packages/service/src/modules/jobs/index.ts:200-230 | A run in which that happens: recover, claim, done, then the first worker's failure |
| `Jobs.JobRunner.Drain` | packages/service/src/modules/jobs/index.ts:256-263 | With the clock standing still drain ends, whatever the backoff, with nothing runnable; with a positive backoff each job it ran was runnable and ran exactly once, and every other row is as it was |
| `Jobs.JobRunner.RunOne` | packages/service/src/modules/jobs/index.ts:232-253 | Runs exactly when something is runnable and strictly reduces the work left at this instant |
| `Jobs.JobRunner.Claim` | packages/service/src/modules/jobs/index.ts:179-198 | Claims the runnable row with the earliest run time, ties by creation and then by id, or none when nothing is runnable |
| `Jobs.JobRunner.SettleFailure` | packages/service/src/modules/jobs/index.ts:209-230 | Fails the job exactly when attempts are used up or the error is not retryable, else requeues it for now plus a delay that is the backoff after the first attempt, twice the one before after each later one, never above the cap |
| `Jobs.JobRunner.RecoverStale` | packages/service/src/modules/jobs/index.ts:161-171 | Requeues exactly the running rows whose lock is older than the timeout, whatever their attempts |
| `Jobs.JobRunner.Enqueue` | packages/service/src/modules/jobs/index.ts:42-67 | Creates a row exactly when the idempotency key is new, else returns the existing one |
| `Jobs.RetryDelayPositive` | packages/service/src/modules/jobs/index.ts:128-131 | The delay is positive exactly when backoff and cap are; its size is `Jobs.RetryDelayDoubles` |
| `Jobs.RetryDelayDoubles` | packages/service/src/modules/jobs/index.ts:127-131 | The first delay is the smaller of backoff and cap, and each later one the smaller of the cap and twice the one before |
| `CanonicalLaws.CanonicalFaithful` | packages/contracts/src/canonical.ts:22-51 | Two JSON values have the same canonical text exactly when they are equal up to member order |
| `CanonicalLaws.ParseCanonical` | packages/contracts/src/canonical.ts:36-51 | Parsing the canonical text gives the value back with the members of every object in canonical order; which order that is, in code units, is `CanonicalForm.CanonicalInOrder` |
| `CanonicalForm.CanonicalInOrder` | packages/contracts/src/canonical.ts:43-43 | In every object at any depth of what the canonical text parses to, each key comes before the next: equal up to some place and then a smaller code unit, or ended |
| `CanonicalForm.NumberForm` | packages/contracts/src/canonical.ts:36-39 | A positive number prints its digits, padded with zeros up to 21 places, with the point inside them, after up to five zeros behind `0.`, or in scientific form |
| `CanonicalForm.EscapeForms` | packages/contracts/src/canonical.ts:36-39 | The seven short escapes, lower-case hexadecimal for other control units and lone surrogates, everything else verbatim |
| `CanonicalForm.ObjectForm` | packages/contracts/src/canonical.ts:42-51 | An object prints as its members between braces, joined by commas |
| `CanonicalLaws.CanonicalStable` | packages/contracts/src/canonical.ts:22-30 | Canonicalizing what canonical text denotes changes nothing |
| `Serialize.Serialize` | packages/contracts/src/canonical.ts:36-51 | The recursive serializer with its sorted keys and joined parts prints the canonical text, whose form `CanonicalForm` states |
| `Numbers.NumberRoundTrip` | packages/contracts/src/canonical.ts:36-39 | A printed number, followed by anything that ends a number, reads back as itself (RFC 8785 section 3.2.2.3) |
| `Strings.ContentRoundTrip` | packages/contracts/src/canonical.ts:36-39 | An escaped string reads back unit for unit, lone surrogates included (RFC 8785 section 3.2.2.2) |
| `Pointer.UnescapeEscape` | packages/service/src/modules/intake/sanitize.ts:58-60 | The two-pass unescape undoes the two-pass escape for every key |
| `Pointer.PathResolves` | packages/service/src/modules/aggregate/calc.ts:124-134 | The path the walk builds for a node resolves to that node (RFC 6901 section 4) |
| `Pointer.PathsDistinct` | packages/service/src/modules/intake/sanitize.ts:81-98 | Distinct nodes get distinct paths |
| `Pointer.PathForm` | packages/service/src/modules/intake/sanitize.ts:63-98 | A path is a slash and a segment per step: the index in decimal, or the key with tilde and slash as `~0` and `~1` |
| `Pointer.ResolveMore` | packages/service/src/modules/aggregate/calc.ts:124-134 | Every path is read segment by segment: an array element at a decimal index, the member of the unescaped name, and nothing when a segment leads nowhere |
| `Sanitize.SanitizeValue` | packages/service/src/modules/intake/sanitize.ts:63-110 | The walk reports the specified issues in walking order and counts the strings it checked |
| `Sanitize.IssuesExact` | packages/service/src/modules/intake/sanitize.ts:68-98 | A path is reported for a rule exactly when it resolves to a node that is, or is named by, a string that trips the rule |
| `Signing.PayloadFaithful` | packages/runner/src/signing.ts:9-16 | Two runs have one payload exactly when they agree up to member order in everything but organization and signature |
| `Signing.StrippedTold` | packages/runner/src/signing.ts:9-16 | The payload covers every member of the run but `org_ref`, and of `submission` every member but `signature`, as they are |
| `Signing.SignatureUnobserved` | packages/runner/src/signing.ts:9-16 | Signing a run leaves its payload, and so its content digest, as previewed |
| `Signing.MeasurementsCollideIff` | packages/service/src/modules/intake/projection.ts:40-47 | Two measurements collide exactly when protocol, target, result and accounting agree up to member order |
| `Projection.ProjectIndexContext` | packages/service/src/modules/intake/projection.ts:67-88 | One entry per required key and nothing else, the first field of a key, or null and unknown; the issues are exactly the rejected keys |
| `Projection.ProjectedTold` | packages/service/src/modules/intake/projection.ts:67-88 | Under a required key stands the first entry of that key, or null with origin unknown when there is none; no other key is projected |
| `Projection.RedactProjection` | packages/service/src/modules/intake/projection.ts:91-98 | Replaces exactly the offending values, after which none is rejected |
| `RateLimit.FailureWindow.RetryAfterSeconds` | packages/service/src/modules/identity/ratelimit.ts:44-50 | Answers as if every failure since the last clear were kept: deleting and pruning are unobservable |
| `RateLimit.FailureWindow.RecordFailure` | packages/service/src/modules/identity/ratelimit.ts:52-58 | Adds one failure to the full history, pruning or not |
| `RateLimit.KeysApart` | packages/service/src/modules/identity/ratelimit.ts:31-34 | Two logins share a window exactly when user and address are both the same |
| `RateLimit.FailureWindow.Login` | packages/service/src/modules/challenge/operator.ts:162-181 | Refused exactly when the history says so at the time of the check; otherwise a match clears and a mismatch records at the time of the record, with nothing in between |
| `RateLimit.LoginsBounded` | packages/service/src/modules/challenge/operator.ts:162-181 | Such a caller never records more than maxFailures in any window between clears |
| `RateLimit.SpacedUnblocks` | packages/service/src/modules/identity/ratelimit.ts:44-50 | For such a caller waiting the returned seconds always unblocks |
| `RateLimit.UnblocksIff` | packages/service/src/modules/identity/ratelimit.ts:44-50 | For any caller the wait ends when the oldest live failure has left the window, and unblocks exactly when the maxFailures-th newest live one has left it by then |
| `RateLimit.BurstStaysBlocked` | packages/service/src/modules/console/index.ts:179-197 | Logins that yield between check and record reach, for every limit and every window over a second, a state in which the returned seconds pass and the caller is still refused |
| `RateLimit.BurstReached` | packages/service/src/modules/console/index.ts:179-197 | Such logins overrun the limit within one window by any number |
| `Resubmission.ResubmissionIsIdempotent` | packages/runner/src/submit.ts:152-177 | After the first acceptance of an unchanged draft, key and policy, through any previews, torn previews, submits and other transactions, a submit changes no evidence, never conflicts, and unless expired or revoked returns the original receipt; expired previews may be reaped at any time |
| `Resubmission.ConflictIffChanged` | packages/service/src/modules/intake/index.ts:276-283 | A submission of a stored run conflicts exactly when its content differs |
| `Resubmission.HeldStays` | packages/service/src/modules/intake/index.ts:276-283 | No transaction takes an accepted run, its content or its receipt away |
| `Submitting.PreviewsYieldOneDigest` | packages/runner/src/submit.ts:68-106 | Once a preview of the unchanged draft completed, every later preview, torn or not, yields its content digest |
| `Submitting.OneDigestIff` | packages/runner/src/submit.ts:68-106 | All previews of an unchanged draft, key and policy, whatever comes between them, yield the digest of the first exactly when that one completed, or preview.json was absent, or held this digest, or every preview until one completes falls on the same clock value |
| `Submitting.DigestKeptIff` | packages/runner/src/submit.ts:87-99 | The same for two previews in a row |
| `Submitting.AnsweredTold` | packages/service/src/modules/intake/index.ts:446-467 | Intake sees a posted run exactly when its organization holds an unexpired preview of this very content and the signature verifies; otherwise no table changes |
| `Submitting.SubmitTold` | packages/runner/src/submit.ts:169-176 | A submit stores the receipt, created now or replayed, and changes nothing else of the vault |
| `Submitting.FirstDraftHasOneDigest` | packages/runner/src/submit.ts:68-106 | A draft never previewed before keeps one digest through any run, however many previews are torn |
| `Submitting.TornPreviewSignsAgain` | packages/runner/src/submit.ts:139-140 | The input: preview a draft, edit it, and die between the two writes of the next preview; the one after it signs the same draft afresh |
| `RunnerVault.Files.WireRun` | packages/runner/src/submit.ts:68-106 | Overwriting signed_at when the candidate reproduces the reference gives the specified content |
| `RunnerVault.Files.StorePreview` | packages/runner/src/submit.ts:108-150 | Writes run.json and then preview.json, only the first when the runner dies between them, or nothing when the digests differ |
| `RunnerVault.Files.Preview` | packages/runner/src/submit.ts:108-150 | Against a service that computes the same digest, leaves vault and service in the state of the preview step, torn or not |
| `RunnerVault.Files.PrepareSubmit` | packages/runner/src/submit.ts:152-173 | For every node and service the reply to a submit is the local refusal it gives, or the service's answer to the request it builds |
| `RunnerVault.Files.Submit` | packages/runner/src/submit.ts:152-176 | Replies and leaves vault and service in the state of the submit step, the receipt stored exactly when one was answered |

## Left out

- HTTP routing, request parsing, sessions, the console pages, the CLI and the tool adapter.
- PostgreSQL: tables are maps and sequences, a transaction is one atomic step, and row locks, advisory locks and SKIP LOCKED are their serialising effect.
- Hashing, HMAC, encryption and signatures: a digest or keyed hash stands as what it was computed from (so it is injective), a body is read without decryption, and a signature verifies or not as a parameter.
- Rows that predate a projection (`index_version` or `backfill_version` null), `sharing_backfill`, and the projection half of `index_backfill`. Its dedupe pass is modelled on its own and stays outside the cache and staleness results: it changes cohorts without a revision, and so does toggling the dedupe flag.
- Own evidence in a query receipt, investigation bookkeeping, `last_received` in the ledger, withdrawal reason codes, audit rows and log lines.
- IEEE rounding: statistics, rates and shares are exact reals; times are integers in milliseconds.
- Answers.CachedIsFresh: the flag, cap, registry and key are fixed for the whole run, as they are for one process.
- Queries.System: `basis` on cache rows and receipts is history the tables do not hold; it only appears in statements.
- Calculation.Sample: the contributor travels as a map beside the samples instead of in each of them.
- Sections.Sections: fixed English sentences are constructors, and sorted key lists are sets or multisets.
- Pointer.Resolve: an array segment is read as decimal digits only; the other spellings `Number(segment)` takes and inherited properties such as `length` or `toString` are not modelled.
- CanonicalLaws.Parse: the reader takes no white space; `toJSON` and undefined members, which JSON.stringify normalizes before serializing, are gone already, and non-finite numbers do not exist in the value type.
- Numbers.PrintNumber: choosing the shortest digits of a double is a precondition on the number; only its layout is modelled.
- Sanitize.SanitizeValue: the secret patterns are one predicate on strings, and `__proto__` members are not special.
- Challenges.Resolving: the counter-claim's key and the challenge's `relationship_id` (both taken from the first target in key order) are not modelled, nor are grounds, rationales and statements; a claim's id is its receipt and key, so a receipt with two released findings of one name has one claim, as the unique index makes it.
- ChallengeLedger.Ledger.FileChallenge: the transaction start that stamps `filed_at` and the clock read under the lock are two parameters, not related to each other; whether a named replication run is the filer's own is a parameter.
- Challenges.Next: the laws of the challenge tables are proved beside the query machine; `ResolveChallenge` writes both sides, and the machine sees a resolution as its revision, log entry and cache eviction.
- Database.Store.CommitAnswer: the claim rows a release adds are the `Issue` step of the challenge tables, not part of this method.
- Database.Store.WithdrawRuns: the job it enqueues is not stored; `ApplyRetraction` may run at any time, any number of times.
- Calculation.Compute: a protocol carries its permitted claims already parsed from `claims.json`.
- Matching.RankCandidates: the sort is a stable insertion sort with the same comparison.
- Submitting.Next: one clock for node and service; a submit never falls behind the last reap of expired previews, which `reaped` remembers; the vault's other files and permissions are not modelled.
- JobHistory.Next: job ids are table positions and rows are never deleted; handlers are outcomes.
- EvidenceLaws.DuplicateIsInvisible: a run's receipt time is a parameter, so nothing is assumed about transaction start times.
- Release `query_digest`, stored hash strings and `org_count` are determined by the modelled columns and are left out.
- Registry loading, context merging, cost estimation, enrollment and identity.
