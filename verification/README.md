# MOVOS charging control plane and naming engine: verified model

A Dafny model of the parts of the repository where several pieces of state have to agree, with
proofs of what they keep over whole runs.

- **Naming engine.** The edit-distance table against a reference definition by chains of single
  edits (`edit_distance.dfy`), the trademark score built on it (`trademark.dfy`), the filters and
  what they guarantee the scorer (`phonetics.dfy`, `filters.dfy`), and dedup, the strategy index,
  ranking and the winner (`naming_pipeline.dfy`, `selection.dfy`, end to end in `web_engine.dfy`).
- **Sessions and connectivity.** The session and meter tables (`sessions.dfy`, services in
  `session_services.dfy`), the socket registry (`connection_registry.dfy`), and the coordinator
  that joins them (`connectivity.dfy`, `coordinator.dfy`). Where a session's row and a station's
  status come from, over whole runs: `session_history.dfy`, `station_status.dfy`.
- **Remote commands** (OCPP 1.6, sections 4.8, 4.10, 5.11 and 5.12). Requests, answers, observed
  messages and timers racing as explicit waiting tasks (`remote_commands.dfy`), what holds over
  whole runs (`command_outcomes.dfy`), which step put a command in its state
  (`command_history.dfy`), how commands end or are stranded (`command_limits.dfy`), when a stop or a
  start is missed (`command_races.dfy`, `command_starts.dfy`) or linked to an old charge
  (`command_links.dfy`), the services (`command_services.dfy`), and the calls on the wire
  (`pending_calls.dfy`).
- **Work orders.** Rows beside an append-only log (`work_orders.dfy`, services in
  `work_order_services.dfy`), everybody at work on them at once (`work_order_desk.dfy`), who decided
  each entry and when (`work_order_history.dfy`), and the two automatic sweeps over the connected
  plant (`outages.dfy`).
- **Smaller pieces.** Payload scrubbing (`scrub.dfy`) and site slugs (`slugs.dfy`).

`dafny verify dfyconfig.toml` checks everything.

## How to read it

A component is a state value, a total step function on events, and an invariant proved for every
step and every run. The services that update state in place are classes whose methods are proved
equal to those steps. An event that cannot happen leaves the state alone, so runs need no side
condition. Results about one process life start from any sound state, and every reachable state is
sound, so what came before the life does not matter: earlier restarts and leftover rows are included.

Assumptions: for work orders the checks of an operation are one step and its write another, and so
are a sweep's read, its look at one outage and each of its writes; a row write and its log entry are
one step. In sessions and remote commands each read-check-write (a transition, a confirmation) is one
step that reads the clock once, although some are two awaits in the source. A station's notes are
handled in the order they were queued. Both operator routes register an accepted command; whether
another requester does is part of the request. The database's choice among matching rows is
arbitrary; the clock is a parameter, and goes forward only where a result needs it (`Outages`); ids
handed out in order stand for fresh UUIDs; a station and its OCPP identity are one-to-one; text is
ASCII; regular expressions are written as predicates; word lists, the JSON serialiser, credential
validity, connector availability and the scores not modelled are parameters.

## Where the code and its comments differ

The model follows the code.

- Meter samples: the comment says an out-of-order sample is never thrown. After completion the
  stored energy is a difference while samples are register readings, so a late sample can be stored
  out of order, and one above the difference is stored and then raises
  (`Sessions.LateSampleOutOfOrder`).
- Recovery window: the comment says nothing can extend it by more than milliseconds. A sample on the
  new connection does
  (`Sessions.SampleReopensWindowIff`).
- A forced disconnect leaves the station ONLINE (`Connectivity.ForcedStaysOnline`); a crash between
  a reconnect and its note can leave an OFFLINE station with a live session
  (`Connectivity.RestartWithNoteOutstanding`).
- A stop requested directly, naming a connector that is not its session's, lets a second stop in,
  and either of the two can then be missed. The two operator routes never do this
  (`CommandRaces.SecondStopAdmittedIff`, `CommandRaces.TwoAdmittedStopsMissEither`).
- The immediate check sees only running charges: one that began before the answer, was away during
  the check and then came back is not confirmed (`CommandStarts.ResumedStartIsMissed`).
- A restart strands commands for good, and they block their target: those REQUESTED or SENT, and
  those ACCEPTED unless they are starts or stops whose session has not ended
  (`CommandLimits.RestartResolvableIff`, `CommandLimits.StrandedBlocks`).
- The recovery sweep's comment says an overlapping sweep is a safe no-op. It writes from candidates
  read earlier: an order closed in between is closed twice, and its log is no legal run for good
  (`WorkOrderDesk.ClosedTwiceIff`, `WorkOrderDesk.SweepClosesAgain`). Operators and technicians write
  after their checks too, and a late start puts a cancelled order back to work
  (`WorkOrderDesk.LateStartReopens`).
- The offline sweep's comment says one outage gets exactly one order. Two sweeps that overlap between
  the look and the creation give it two (`Outages.OnePerOutageIff`,
  `Outages.OverlappingSweepsDouble`).
- A start accepted while an observation of an earlier charge is still waiting can be confirmed with
  that charge, although it had ended (`CommandLinks.LinkedNewIff`).
- A command accepted for a requester that does not register it has no timer and no check: it can stay
  ACCEPTED for good (`CommandOutcomes.LifeFollowedIff`, `CommandLimits.UnregisteredStranded`).
- A repeated start is answered alike only until the session it got has been OFFLINE past its window
  (`Sessions.CreateIdempotentIff`).
- Each pending call is called back exactly once even when a message id is reused; only the pending
  count and cancellation need fresh ids (`PendingCalls.RegisterLinkedIffFresh`).

## Model

| member | source | states |
|---|---|---|
| `EditDistance.Levenshtein` | packages/naming-engine/src/scoring.ts:218-233 | the table filled in place, with the diagonal taken on a match, ends in the least number of single-character insertions, deletions and substitutions turning one string into the other |
| `EditDistance.DistanceIsLeast` | packages/naming-engine/src/scoring.ts:218-233 | the recurrence the table follows is that minimum: some chain of single edits has this length and no chain is shorter |
| `EditDistance.CellNeighbours` | packages/naming-engine/src/scoring.ts:224-230 | neighbouring cells differ by at most one and a diagonal step never decreases |
| `EditDistance.GreedyDiagonalIsMinimum` | packages/naming-engine/src/scoring.ts:226-229 | on a match the diagonal alone equals the minimum the code skips |
| `EditDistance.DistanceZeroIffEqual` | packages/naming-engine/src/scoring.ts:218-233 | distance zero means equal strings, both ways |
| `EditDistance.DistanceSymmetric` | packages/naming-engine/src/scoring.ts:218-233 | the distance does not depend on the argument order |
| `EditDistance.DistanceTriangle` | packages/naming-engine/src/scoring.ts:218-233 | triangle inequality |
| `EditDistance.CellAtLeastLengthDifference` | packages/naming-engine/src/scoring.ts:210 | every cell is at least the difference of the two lengths |
| `TrademarkSafety.PreCheckIsLossless` | packages/naming-engine/src/scoring.ts:210 | the length pre-check never hides a name within one edit |
| `TrademarkSafety.ScoreTrademarkSafety` | packages/naming-engine/src/scoring.ts:205-216 | whatever order the set is visited in: 0 for a known name, 52 for a single edit of one, 82 otherwise |
| `Phonetics.MaxRun` | packages/naming-engine/src/scoring.ts:25-34 | the length of the longest vowel or consonant run: some run has it and none is longer |
| `Phonetics.CountAlternations` | packages/naming-engine/src/scoring.ts:16-23 | the number of positions where a vowel meets a consonant |
| `Phonetics.BoundedRunsBoundLength` | packages/naming-engine/src/scoring.ts:16-34 | vowel runs under three and consonant runs under four bound the length by three characters per block, and by five per two blocks |
| `NameFilters.PassIffSurvives` | packages/naming-engine/src/filters.ts:82-97 | a name passes the ten checks exactly when it meets an independent list of conditions; the four-vowel and five-consonant patterns decide nothing |
| `NameFilters.RejectedForIff` | packages/naming-engine/src/filters.ts:10-97 | a name is rejected with a given reason exactly when that reason holds of it and no earlier one in the order of the checks does; a listed word is the first of its list that fits |
| `NameFilters.HasTripleIff` | packages/naming-engine/src/data.ts:139-147 | three in a row means some part of the name is three characters equal in lower case, line breaks apart |
| `Ascii.ContainsIff` | packages/naming-engine/src/filters.ts:19-26 | a text includes another exactly when it is something, that text and something |
| `Ascii.EndsWithIff` | packages/naming-engine/src/filters.ts:28-35 | and ends with it exactly when it is something and that text |
| `Ascii.ClampIs` | packages/naming-engine/src/scoring.ts:12-14 | the score is the nearest value from 0 to 100 |
| `NameFilters.SurvivorShape` | packages/naming-engine/src/filters.ts:37-97 | a passing name has vowel runs of 1 or 2, consonant runs of 1 to 3, at least one alternation and length at most 3 × (alternations + 1) |
| `NameFilters.ScorePronunciation` | packages/naming-engine/src/scoring.ts:36-56 | the score is the clamped total for the longest runs and the alternation count of the name |
| `NameFilters.BonusesAre` | packages/naming-engine/src/scoring.ts:42-54 | 12 for a length of 4 to 6, 6 for 7; 5 for a name ending in X, K, N or R in either casing |
| `NameFilters.SurvivorScore` | packages/naming-engine/src/scoring.ts:36-56 | on a passing name the vowel-run, GH, WR and KN penalties never fire and the score lies between 56 and 100 |
| `NameFilters.SurvivorScoreSharp` | packages/naming-engine/src/scoring.ts:36-56 | a passing name that scores 56 |
| `NameFilters.FilterCandidates` | packages/naming-engine/src/filters.ts:99-111 | a stable partition of the list, each rejection with its first failing check |
| `NamingPipeline.DedupeFlat` | packages/naming-engine/src/generators.ts:267-276 | candidates are exactly the case-insensitive first occurrences, in order |
| `NamingPipeline.DedupeByEntry` | packages/naming-engine/src/generators.ts:290-298 | the entry-by-entry loop gives the same candidates as the flat one |
| `NamingPipeline.DedupersAgree` | packages/naming-engine/src/generators.ts:267-298 | so both loops return equal lists |
| `NamingPipeline.FirstOccurrencesCover` | packages/naming-engine/src/generators.ts:290-298 | every generated name is represented and no two candidates differ only in case |
| `NamingPipeline.BuildIndex` | packages/naming-engine/src/web-engine.ts:44-50 | the first-write-wins map answers every name as the linear scan does |
| `NamingPipeline.IndexAgreesWithScan` | packages/naming-engine/src/engine.ts:83-89 | any index of first generators agrees with the linear scan on every name, generated or not |
| `NamingPipeline.ScoreNames` | packages/naming-engine/src/web-engine.ts:58-65 | the scored list is the names at the threshold, in order, each with its own score and the strategy the scan gives |
| `NamingPipeline.SortByScore` | packages/naming-engine/src/web-engine.ts:67 | a stable descending ranking: a permutation, best first, ties in original order |
| `NamingPipeline.RankingUnique` | packages/naming-engine/src/engine.ts:36 | two stable descending rankings of one list agree on every prefix, so every tier is determined |
| `NamingPipeline.WinnerIsEarliestBest` | packages/naming-engine/src/web-engine.ts:58-88 | the head of the ranking is the earliest name of highest score at the threshold; it is empty exactly when none reaches it |
| `NamingPipeline.RankCandidates` | packages/naming-engine/src/web-engine.ts:67-88 | each tier is the first n of the ranking, or all of it if there are fewer, and the winner is the earliest best name, present exactly when some name reaches 65 |
| `WebEngine.RunWebEngine` | packages/naming-engine/src/web-engine.ts:40-90 | end to end: a winner exists exactly when some generated name is the first in its casing, passes and reaches the threshold; it is the earliest of the highest-scoring such names, with the strategy the scan gives it |
| `PayloadScrub.ScrubPayload` | apps/movos-api/src/ocpp/persistence/ocpp-protocol-event.service.ts:44-59 | the loops build the recursive scrubbing of the tree |
| `PayloadScrub.SecretLikeIff` | apps/movos-api/src/ocpp/persistence/ocpp-protocol-event.service.ts:31-31 | a key is secret-like exactly when secret, password, authorization or token occurs in it, in any casing and position |
| `PayloadScrub.ScrubbedIsClean` | apps/movos-api/src/ocpp/persistence/ocpp-protocol-event.service.ts:44-59 | a scrubbed tree holds only markers under secret-like keys and no container at the ceiling |
| `PayloadScrub.UnchangedIffClean` | apps/movos-api/src/ocpp/persistence/ocpp-protocol-event.service.ts:44-59 | scrubbing changes exactly the trees that are not clean |
| `PayloadScrub.ScrubIdempotent` | apps/movos-api/src/ocpp/persistence/ocpp-protocol-event.service.ts:40-59 | scrubbing twice is scrubbing once, at every depth |
| `PayloadScrub.ScrubbedAt` | apps/movos-api/src/ocpp/persistence/ocpp-protocol-event.service.ts:44-59 | off the secret keys and within the ceiling every place of the tree survives |
| `PayloadScrub.SecretsRedacted` | apps/movos-api/src/ocpp/persistence/ocpp-protocol-event.service.ts:51-57 | a path of the scrubbed tree through a secret-like key reads the marker and ends |
| `PayloadScrub.NestingBounded` | apps/movos-api/src/ocpp/persistence/ocpp-protocol-event.service.ts:38-46 | no path of a scrubbed tree is longer than 20 |
| `PayloadScrub.BoundPayload` | apps/movos-api/src/ocpp/persistence/ocpp-protocol-event.service.ts:67-84 | the scrubbed tree itself when its text has at most 4000 characters, the preview of that text when not, the fixed note when there is no text; never a secret-like key with an unredacted value |
| `PayloadScrub.FittingIsReturned` | apps/movos-api/src/ocpp/persistence/ocpp-protocol-event.service.ts:67-84 | a clean payload whose text fits comes back as it is |
| `PayloadScrub.BodyIsClean` | apps/movos-api/src/ocpp/persistence/ocpp-protocol-event.service.ts:61-84 | whatever the body turns out to be, it is clean |
| `PayloadScrub.StoredReadsAsOriginal` | apps/movos-api/src/ocpp/persistence/ocpp-protocol-event.service.ts:40-84 | re-scrubbing a stored payload on read gives the same body as bounding the original |
| `Slugs.SlugifyIsJoinedWords` | apps/movos-api/src/sites/slugify.ts:5-14 | the whole replacement chain is: the maximal alphanumeric words of the lower-cased text joined with single hyphens |
| `Slugs.SlugifyNormalises` | apps/movos-api/src/sites/slugify.ts:5-14 | the result is in normal form and slugify leaves it alone |
| `Slugs.LettersKept` | apps/movos-api/src/sites/slugify.ts:5-14 | a slug keeps every letter and digit of the lower-cased text, in order, and no other |
| `Slugs.SlugCharacters` | apps/movos-api/src/sites/slugify.ts:5-14 | every other character of it is a single hyphen, never at an end |
| `Slugs.SlugFixed` | apps/movos-api/src/sites/slugify.ts:5-14 | every hyphen-separated word list is a fixed point |
| `Slugs.NumberedInjective` | apps/movos-api/src/sites/sites.service.ts:179-197 | different counters give different candidates |
| `Slugs.UniqueSlug` | apps/movos-api/src/sites/sites.service.ts:174-199 | for the words of the lower-cased name joined by hyphens, or sitio without words: the free slug with the smallest suffix, found after at most one more probe than there are slugs, and itself left alone by slugify |
| `PendingCalls.RunOnce` | apps/movos-api/src/ocpp/outbound/pending-call-registry.service.ts:52-111 | over every interleaving of registrations, answers, firings and cancellation each registration is called back once if its timer is gone and not yet if it is armed, message ids reused or not |
| `PendingCalls.CallbackIff` | apps/movos-api/src/ocpp/outbound/pending-call-registry.service.ts:52-111 | over every run, a registration is called back with a given answer exactly when some event was that answer to the id whose entry was its own; it is timed out exactly when its timer fired or it was cancelled while pending |
| `PendingCalls.EntryFromRegistration` | apps/movos-api/src/ocpp/outbound/pending-call-registry.service.ts:70-75 | every pending entry is the one a registration of its id made, with the identity it gave |
| `PendingCalls.CallbackIsFinal` | apps/movos-api/src/ocpp/outbound/pending-call-registry.service.ts:87-111 | a callback made is never repeated or altered by later events |
| `PendingCalls.Conservation` | apps/movos-api/src/ocpp/outbound/pending-call-registry.service.ts:52-111 | registrations are armed, answered or timed out, and nothing else |
| `PendingCalls.RegisterLinkedIffFresh` | apps/movos-api/src/ocpp/outbound/pending-call-registry.service.ts:70-75 | registering keeps entries and timers in step exactly when the id is not already pending |
| `PendingCalls.FreshRunConserves` | apps/movos-api/src/ocpp/outbound/pending-call-registry.service.ts:52-116 | with fresh ids registered = pending + answered + timed out, and cancelling completes every registration |
| `PendingCalls.PendingCallRegistry.RegisterCall` | apps/movos-api/src/ocpp/outbound/pending-call-registry.service.ts:52-76 | arms a timer and puts the entry, as the model step says |
| `PendingCalls.PendingCallRegistry.ResolveCall` | apps/movos-api/src/ocpp/outbound/pending-call-registry.service.ts:87-93 | clears the timer, removes the entry and answers once; nothing for an unknown id |
| `PendingCalls.PendingCallRegistry.Fire` | apps/movos-api/src/ocpp/outbound/pending-call-registry.service.ts:61-64 | a firing removes the entry under its id and times the registration out |
| `PendingCalls.PendingCallRegistry.CancelEverything` | apps/movos-api/src/ocpp/outbound/pending-call-registry.service.ts:98-111 | deleting during the walk still times out every pending entry once, in any order |
| `ConnectionRegistry.RunOneLive` | apps/movos-api/src/ocpp/connection-registry/connection-registry.service.ts:70-163 | in every run the sockets ever registered are closed except the one on file for their station |
| `ConnectionRegistry.OnFileIff` | apps/movos-api/src/ocpp/connection-registry/connection-registry.service.ts:70-163 | in every run a socket is on file for a station exactly when it registered and since then the station neither registered anew nor was forced off, no close event of that socket came and no sweep found it silent for more than five minutes |
| `ConnectionRegistry.NotesAre` | apps/movos-api/src/ocpp/connection-registry/connection-registry.service.ts:70-163 | and the notes of the station are exactly one connection for each registration, one disconnect for each close event of the socket on file and one stale disconnect for each sweep that found it silent, in order |
| `ConnectionRegistry.ClosedIff` | apps/movos-api/src/ocpp/connection-registry/connection-registry.service.ts:70-163 | in every run a socket is closed exactly when its peer closed it, another socket replaced it, its station was forced off or a sweep found it silent |
| `ConnectionRegistry.AtMostOneUnclosed` | apps/movos-api/src/ocpp/connection-registry/connection-registry.service.ts:67-93 | two unclosed sockets of one station are the same socket |
| `ConnectionRegistry.LateCloseIsHarmless` | apps/movos-api/src/ocpp/connection-registry/connection-registry.service.ts:101-110 | once a socket is off file, and whatever happens in between short of registering it again, its close event changes nothing |
| `ConnectionRegistry.SweepIsExact` | apps/movos-api/src/ocpp/connection-registry/connection-registry.service.ts:96-163 | after any run a sweep removes exactly the stations on file that have neither registered nor sent anything for longer than the threshold, reports each once and leaves none of their sockets open |
| `ConnectionRegistry.ConnectionRegistryService.RegisterSocket` | apps/movos-api/src/ocpp/connection-registry/connection-registry.service.ts:70-93 | closes a different socket on file, stores the record, notes the connection |
| `ConnectionRegistry.ConnectionRegistryService.TouchStation` | apps/movos-api/src/ocpp/connection-registry/connection-registry.service.ts:96-99 | only the record's last message time moves |
| `ConnectionRegistry.ConnectionRegistryService.Unregister` | apps/movos-api/src/ocpp/connection-registry/connection-registry.service.ts:104-110 | removes the record only for the socket on file |
| `ConnectionRegistry.ConnectionRegistryService.Disconnect` | apps/movos-api/src/ocpp/connection-registry/connection-registry.service.ts:113-119 | closes and removes without a note |
| `ConnectionRegistry.ConnectionRegistryService.SweepStale` | apps/movos-api/src/ocpp/connection-registry/connection-registry.service.ts:151-163 | deleting during the walk equals removing the silent set at once |
| `Sessions.ApplyValid` | apps/movos-api/src/sessions/session-lifecycle.service.ts:187-280 | every operation keeps: one session per connector that is not terminal, only storable statuses, termination fields set exactly on terminal rows, energy equal to the last sample while running |
| `Sessions.RunKeeps` | apps/movos-api/src/sessions/session-lifecycle.service.ts:187-569 | over every run the tables stay valid, no row is deleted, identity fields are fixed, terminal rows are final and telemetry is append-only |
| `Sessions.ApplyKeepsRow` | apps/movos-api/src/sessions/session-lifecycle.service.ts:458-569 | what one operation may not touch of an existing row |
| `SessionHistory.AcceptedIff` | apps/movos-api/src/sessions/session-lifecycle.service.ts:458-569 | a stop, a failure and a cancellation are accepted exactly while the session has not ended, and a suspension, a loss and a return exactly from another live status; otherwise the error names both statuses and nothing changes |
| `SessionHistory.EndsIff` | apps/movos-api/src/sessions/session-lifecycle.service.ts:187-569 | a session ends exactly by its own accepted stop, failure or cancellation, or by a start on its connector once it has been OFFLINE for more than fifteen minutes, with the reading, reason, time and energy of that operation |
| `SessionHistory.StartedBy` | apps/movos-api/src/sessions/session-lifecycle.service.ts:187-280 | in every run the station, connector, opening reading and start time of a session are those of the start message that created it; the start time is the charger's |
| `SessionHistory.EndedOnce` | apps/movos-api/src/sessions/session-lifecycle.service.ts:458-569 | in every run an ended session ended by one such operation and still carries what it wrote |
| `SessionHistory.RowsAre` | apps/movos-api/src/sessions/meter-values.service.ts:39-75 | in every run the samples stored for a session are exactly those it was sent that were not below its energy then, in order |
| `Sessions.CreateIdempotentIff` | apps/movos-api/src/sessions/session-lifecycle.service.ts:187-280 | a start repeated at any later time changes nothing and gets the same answer exactly when the session it got is not OFFLINE or is still recoverable by then |
| `Sessions.SupersessionEffect` | apps/movos-api/src/sessions/session-lifecycle.service.ts:343-366 | a start over an abandoned OFFLINE session fails it with its readings kept and opens one new ACTIVE row, only past the window, and touches no other session |
| `Sessions.EnergyOverStep` | apps/movos-api/src/sessions/meter-values.service.ts:39-75 | before termination energy is the last sample and never falls; on completion max(0, stop − start); afterwards it never moves |
| `Sessions.SamplesStayOrderedIff` | apps/movos-api/src/sessions/meter-values.service.ts:50-68 | samples stay non-decreasing exactly when a stored one reaches the last; always while the session runs |
| `Sessions.LateSampleOutOfOrder` | apps/movos-api/src/sessions/meter-values.service.ts:50-72 | a concrete run where a sample after completion is stored out of order and then refused |
| `Sessions.SampleReopensWindowIff` | apps/movos-api/src/sessions/session-lifecycle.service.ts:321-327 | an OFFLINE session past its window becomes recoverable again exactly when a sample above its energy arrives |
| `SessionServices.SessionLifecycleService.FindNonTerminalSession` | apps/movos-api/src/sessions/session-lifecycle.service.ts:290-296 | the connector's one session that is not terminal, or none |
| `SessionServices.SessionLifecycleService.CreateSession` | apps/movos-api/src/sessions/session-lifecycle.service.ts:187-280 | the plain read and the transaction together do one creation step |
| `SessionServices.SessionLifecycleService.CreateInTransaction` | apps/movos-api/src/sessions/session-lifecycle.service.ts:218-280 | cases A, B and C decided again on what the transaction reads |
| `SessionServices.SessionLifecycleService.StopSession` | apps/movos-api/src/sessions/session-lifecycle.service.ts:458-493 | completion with the register difference, or the raised error and no change |
| `SessionServices.SessionLifecycleService.FailSession` | apps/movos-api/src/sessions/session-lifecycle.service.ts:495-513 | failure from any status the table allows, else the error |
| `SessionServices.SessionLifecycleService.CancelSession` | apps/movos-api/src/sessions/session-lifecycle.service.ts:515-524 | cancellation from any status the table allows, else the error |
| `SessionServices.SessionLifecycleService.TransitionToTerminal` | apps/movos-api/src/sessions/session-lifecycle.service.ts:554-569 | a table-checked termination with reason and end time; telemetry untouched |
| `SessionServices.SessionLifecycleService.Transition` | apps/movos-api/src/sessions/session-lifecycle.service.ts:542-552 | a table-checked status change and nothing else |
| `SessionServices.SessionLifecycleService.UpdateEnergy` | apps/movos-api/src/sessions/session-lifecycle.service.ts:531-540 | energy of a running session only |
| `SessionServices.MeterValuesService.RecordSample` | apps/movos-api/src/sessions/meter-values.service.ts:39-75 | drops lower samples, appends the rest, raises after appending on a terminal session |
| `Connectivity.StepCoherent` | apps/movos-api/src/ocpp/connectivity/connectivity-coordinator.service.ts:74-264 | every event, restarts with notes outstanding included, keeps valid tables, one live socket per station and registered stations settling ONLINE |
| `Connectivity.RunCoherent` | apps/movos-api/src/ocpp/connectivity/connectivity-coordinator.service.ts:74-264 | so it holds in every reachable state |
| `Connectivity.RegisteredIsOnline` | apps/movos-api/src/ocpp/connection-registry/connection-registry.service.ts:70-163 | in every reachable state, once its notes are handled, a registered station is ONLINE |
| `Connectivity.StepQuietIff` | apps/movos-api/src/ocpp/connectivity/connectivity-coordinator.service.ts:136-193 | an OFFLINE station with no return waiting has no live session, and exactly one event ends that: a restart that loses the note of its return while it has one |
| `Connectivity.NextNoteSettles` | apps/movos-api/src/ocpp/connectivity/connectivity-coordinator.service.ts:90-193 | after any history whatever, handling the station's next note makes that true again |
| `Connectivity.RunQuiet` | apps/movos-api/src/ocpp/connectivity/connectivity-coordinator.service.ts:60-193 | so it holds after every run in which no restart lost such a note of this station, or one of its notes was handled since |
| `Connectivity.OfflineIsQuiet` | apps/movos-api/src/ocpp/connectivity/connectivity-coordinator.service.ts:136-193 | then each session of the OFFLINE station is OFFLINE or terminal; other stations and other restarts do not matter |
| `Connectivity.SessionsExclusive` | apps/movos-api/src/ocpp/connectivity/connectivity-coordinator.service.ts:207-230 | in every reachable state two sessions of a connector are never both unfinished and the transient statuses are never stored |
| `Connectivity.StepTiedIff` | apps/movos-api/src/ocpp/connection-registry/connection-registry.service.ts:70-163 | registered exactly when settled ONLINE is kept by every event but one: a forced disconnect of the registered station |
| `Connectivity.RegisteredIffOnline` | apps/movos-api/src/ocpp/connection-registry/connection-registry.service.ts:70-163 | in every run: it holds unless the station was forced off and has neither registered again nor been through a restart, and then it settles ONLINE unregistered |
| `Connectivity.ForcedStaysOnline` | apps/movos-api/src/ocpp/connection-registry/connection-registry.service.ts:112-119 | a forced disconnect leaves the station ONLINE and its sessions alone |
| `Connectivity.NoRecoveryConflict` | apps/movos-api/src/ocpp/connectivity/connectivity-coordinator.service.ts:211-235 | the conflicting-session branch of recovery can never be taken |
| `Connectivity.RestartWithNoteOutstanding` | apps/movos-api/src/ocpp/connectivity/connectivity-coordinator.service.ts:60-125 | from every state with the station OFFLINE, a fresh socket and a free connector: a reconnect, a start and a restart before the note is handled leave it OFFLINE with a live session |
| `Connectivity.OutageRoundTrip` | apps/movos-api/src/ocpp/connectivity/connectivity-coordinator.service.ts:90-264 | a disconnect and a reconnect within the window bring the one live session back ACTIVE with its readings |
| `StationStatus.StampsAre` | apps/movos-api/src/ocpp/connectivity/connectivity-coordinator.service.ts:90-156 | in every run the stored connect and disconnect times are those of the last connection and the last disconnect handled, missing exactly when there was none |
| `StationStatus.OnlineIff` | apps/movos-api/src/ocpp/connectivity/connectivity-coordinator.service.ts:74-156 | in every run a station is ONLINE exactly when a connection was handled and neither a disconnect nor a restart since |
| `StationStatus.OfflineIff` | apps/movos-api/src/ocpp/connectivity/connectivity-coordinator.service.ts:74-156 | and OFFLINE exactly when a disconnect was handled and no connection since |
| `StationStatus.LossSettlesOffline` | apps/movos-api/src/ocpp/connection-registry/connection-registry.service.ts:104-163 | the close event of the socket on file, and a sweep that finds it silent, take the station off file, queue one disconnect and settle it OFFLINE |
| `StationStatus.StatusFollows` | apps/movos-api/src/ocpp/connectivity/connectivity-coordinator.service.ts:90-264 | whatever the event, an unfinished session is left OFFLINE exactly when a disconnect of its station was handled, or it was OFFLINE and no handled reconnection picked it within fifteen minutes of its last write |
| `StationStatus.SessionOfflineIff` | apps/movos-api/src/ocpp/connectivity/connectivity-coordinator.service.ts:90-264 | so in every run it is OFFLINE exactly when such a disconnect was handled while it was on file and nothing resumed it since |
| `Coordinator.ConnectivityCoordinator.OnModuleInit` | apps/movos-api/src/ocpp/connectivity/connectivity-coordinator.service.ts:74-84 | ONLINE becomes UNKNOWN, OFFLINE stays, and the answer counts the stations that were ONLINE |
| `Coordinator.ConnectivityCoordinator.HandleConnectionEstablished` | apps/movos-api/src/ocpp/connectivity/connectivity-coordinator.service.ts:90-125 | marks ONLINE and tries to recover the one OFFLINE session found |
| `Coordinator.ConnectivityCoordinator.AttemptRecovery` | apps/movos-api/src/ocpp/connectivity/connectivity-coordinator.service.ts:207-264 | recovers exactly within the window and without a conflict |
| `Coordinator.ConnectivityCoordinator.HandleConnectionClosed` | apps/movos-api/src/ocpp/connectivity/connectivity-coordinator.service.ts:136-156 | marks OFFLINE and moves every live session of the station |
| `Coordinator.ConnectivityCoordinator.ReconcileSessionsOffline` | apps/movos-api/src/ocpp/connectivity/connectivity-coordinator.service.ts:169-193 | moving them one at a time, in any order, equals moving them all |
| `RemoteCommands.StepSound` | apps/movos-api/src/ocpp/remote-commands/remote-command.service.ts:99-489 | every step of requests, answers, observations, timers, messages and restarts keeps exclusivity, the resolution stamp and the evidence behind pending and made confirmations |
| `RemoteCommands.RunSound` | apps/movos-api/src/ocpp/remote-commands/remote-command-confirmation.service.ts:73-226 | over every run |
| `RemoteCommands.AdmittedIff` | apps/movos-api/src/ocpp/remote-commands/remote-command.service.ts:99-232 | a request is refused by none of the checks exactly when its session is on its station, a start has a free available connector and a tag of at most 20 characters, a stop a session that has not ended, and nothing in flight on the station is station-wide, for its connector, or met by a station-wide request |
| `RemoteCommands.RefusedForIff` | apps/movos-api/src/ocpp/remote-commands/remote-command.service.ts:99-232 | it is refused for a given reason exactly when that check fails and every check before it passes |
| `CommandOutcomes.CommandsExclusive` | apps/movos-api/src/ocpp/remote-commands/remote-command.service.ts:201-237 | in every reachable state a station-wide command in flight is alone on its station and others there have different connectors |
| `CommandOutcomes.ResolutionAndEvidence` | apps/movos-api/src/ocpp/remote-commands/remote-command.service.ts:463-489 | resolution time exactly when resolved; a CONFIRMED stop has a COMPLETED session |
| `CommandOutcomes.StartLookupUnambiguous` | apps/movos-api/src/ocpp/remote-commands/remote-command-confirmation.service.ts:86-109 | at most one ACCEPTED start matches an observed start |
| `CommandOutcomes.StepMoves` | apps/movos-api/src/ocpp/remote-commands/remote-command-state-machine.ts:35-62 | a step makes at most one allowed transition, never changes the target, never touches a resolved row |
| `CommandOutcomes.AtMostThreeTransitions` | apps/movos-api/src/ocpp/remote-commands/remote-command-state-machine.ts:35-78 | over every run a command changes state at most three times, and after three it is resolved |
| `CommandHistory.BecomesIff` | apps/movos-api/src/ocpp/remote-commands/remote-command.service.ts:294-409 | each state is entered by its own step and no other: TIMED_OUT by settling silence while SENT, REJECTED by an unsendable dispatch or a settled rejection, ACCEPTED by a settled acceptance while SENT, and so on; a resolution carries the time of that step |
| `CommandHistory.StateCaused` | apps/movos-api/src/ocpp/remote-commands/remote-command.service.ts:294-409 | in every run a command that is no longer REQUESTED was put in its state by that step at a place of the run, whose time a resolved one carries |
| `CommandHistory.AnswerIsRecorded` | apps/movos-api/src/ocpp/remote-commands/remote-command.service.ts:294-409 | in every run, by what became of sending the command: REQUESTED exactly while that is open; REJECTED exactly when it could not be sent or a rejection was settled, TIMED_OUT exactly when silence was, ACCEPTED or what follows exactly when an acceptance was; SENT until the outcome is settled |
| `CommandHistory.FateIsFinal` | apps/movos-api/src/ocpp/remote-commands/remote-command.service.ts:294-409 | and what became of sending a command is decided once |
| `CommandHistory.AskedFor` | apps/movos-api/src/ocpp/remote-commands/remote-command.service.ts:122-136 | in every run each command was asked for at one place, by an admitted request, and its request time is that moment |
| `CommandOutcomes.RunMatches` | apps/movos-api/src/ocpp/remote-commands/remote-command.service.ts:122-136 | in every run a command answers to the one request that created it: kind, station, session, and the connector named, else that of its session, else the whole station |
| `CommandOutcomes.ConfirmedStartIsLinked` | apps/movos-api/src/ocpp/remote-commands/remote-command.service.ts:419-433 | a start whose own request named no session is linked exactly when CONFIRMED, to a session on its own connector; one that named a session keeps that one |
| `CommandOutcomes.OwnStopsIff` | apps/movos-api/src/ocpp/remote-commands/remote-command.service.ts:129-136 | every stop for a session sits on its connector exactly when none of their requests named another |
| `CommandOutcomes.OwnStopsAlone` | apps/movos-api/src/ocpp/remote-commands/remote-command-confirmation.service.ts:111-127 | then at most one of them is ACCEPTED |
| `CommandOutcomes.StepFollowed` | apps/movos-api/src/ocpp/remote-commands/remote-command.service.ts:294-409 | within a process life every event keeps the next step of a command waiting, an ACCEPTED one that nobody registers excepted |
| `CommandOutcomes.LifeFollowedIff` | apps/movos-api/src/ocpp/remote-commands/remote-commands.controller.ts:60-104 | of a command requested in a process life, whatever came before, the next step is waiting exactly when its requester registers it or it is not ACCEPTED |
| `CommandOutcomes.StepCoveredIff` | apps/movos-api/src/ocpp/remote-commands/remote-command-confirmation.service.ts:73-181 | while no rival is accepted beside it, exactly one event of a process life uncovers a stop: an acceptance that nobody registers, after its session was completed, with no confirming step waiting |
| `CommandOutcomes.WatchedNeverLate` | apps/movos-api/src/ocpp/remote-commands/remote-commands.controller.ts:60-104 | that never happens to a stop whose requester registers it, as both operator routes do |
| `CommandOutcomes.NoMissedStop` | apps/movos-api/src/ocpp/remote-commands/remote-command-confirmation.service.ts:73-181 | a stop requested in a process life, whatever came before it: while it is ACCEPTED and its session COMPLETED a confirming step is waiting, as long as every stop for that session sits on its connector and it was not accepted late with nobody registering it |
| `CommandLimits.ExpiryIsHonest` | apps/movos-api/src/ocpp/remote-commands/remote-command-confirmation.service.ts:204-226 | under the conditions of no missed stop, one marked UNCONFIRMED has an unfinished session or a confirming step still waiting |
| `CommandLimits.NeverStuck` | apps/movos-api/src/ocpp/remote-commands/remote-command.service.ts:294-409 | the waiting step of a command in flight, whatever it finds out, brings the command strictly closer to its end |
| `CommandLimits.NoFarther` | apps/movos-api/src/ocpp/remote-commands/remote-command.service.ts:294-409 | no other event of the process life takes it further away |
| `CommandLimits.OwnStepsResolve` | apps/movos-api/src/ocpp/remote-commands/remote-command.service.ts:294-409 | so every run that takes the own steps of a command whose requester registers it resolves it; six are enough |
| `CommandLimits.EveryCommandCanFinish` | apps/movos-api/src/ocpp/remote-commands/remote-command.service.ts:294-409 | from every state of a process life and for every behaviour of the charger, six steps of its own resolve a command requested in that life by a requester that registers it |
| `CommandLimits.UnregisteredStranded` | apps/movos-api/src/ocpp/remote-commands/remote-commands.controller.ts:60-104 | an ACCEPTED command of another kind than start and stop that nobody registers is stranded without any restart |
| `CommandLimits.RestartResolvableIff` | apps/movos-api/src/ocpp/remote-commands/remote-command-confirmation.service.ts:46-54 | after a restart a command in flight is resolved in some later run exactly when it is ACCEPTED and a start, or a stop whose session has not ended |
| `CommandLimits.RestartStrands` | apps/movos-api/src/ocpp/remote-commands/remote-command-confirmation.service.ts:46-54 | in every later run the row of every other command in flight never changes |
| `CommandLimits.StrandedBlocks` | apps/movos-api/src/ocpp/remote-commands/remote-command.service.ts:514-532 | and every later request that clashes with such a command is refused |
| `CommandRaces.MissableIff` | apps/movos-api/src/ocpp/remote-commands/remote-command-confirmation.service.ts:111-127 | in every sound state with the session not ended: something that can follow without a further request misses the stop exactly when it can still be accepted, and another stop for the session can be too or it is not accepted yet and nobody will register it |
| `CommandRaces.MissableCompletedIff` | apps/movos-api/src/ocpp/remote-commands/remote-command-confirmation.service.ts:111-181 | with the session COMPLETED: an ACCEPTED stop can be missed exactly when nothing of its own is waiting and no observation is, or a rival can take those that are; any other exactly when it can still be accepted and nobody will register it |
| `CommandRaces.EndedOtherwiseNotMissed` | apps/movos-api/src/ocpp/handlers/transaction-end.handler.ts:32-74 | and when the session ended otherwise, never |
| `CommandRaces.SecondStopAdmittedIff` | apps/movos-api/src/ocpp/remote-commands/remote-command.service.ts:122-136 | after one stop for a session is admitted, a second is exactly when it would have been by itself and sits on another connector |
| `CommandRaces.TwoAdmittedStopsMissEither` | apps/movos-api/src/ocpp/remote-commands/remote-command-confirmation.service.ts:111-127 | and whenever two have been admitted, each of them can be missed |
| `CommandRaces.UnroutedStopIsMissed` | apps/movos-api/src/ocpp/remote-commands/remote-command-confirmation.service.ts:111-127 | such a state reached from the start, with nothing left for the routed stop but its timer |
| `CommandStarts.StepStartIff` | apps/movos-api/src/ocpp/remote-commands/remote-command-confirmation.service.ts:73-162 | while a start is ACCEPTED and a charge answering it runs, a confirming step is waiting; in a process life exactly two events end that, with no such step waiting: its own charge, away until now, coming back, and an acceptance that nobody registers while the charge runs |
| `CommandStarts.NoMissedStart` | apps/movos-api/src/ocpp/remote-commands/remote-command-confirmation.service.ts:73-162 | so it holds for a start requested in a process life over every run without those events, every other resumption included |
| `CommandStarts.ResumptionCoversIff` | apps/movos-api/src/ocpp/remote-commands/remote-command-confirmation.service.ts:139-149 | which resumptions those are, read on the state before: station, connector, start time, session away, nothing waiting |
| `CommandStarts.ResumedStartIsMissed` | apps/movos-api/src/ocpp/remote-commands/remote-command-confirmation.service.ts:129-150 | a reachable state where a charge away during the check comes back and only the timer is left |
| `CommandLinks.LinkedNewIff` | apps/movos-api/src/ocpp/remote-commands/remote-command-confirmation.service.ts:86-109 | whatever follows, restarts included, a confirmed start is linked to a charge that began after it was asked for exactly when no observation of an earlier charge of its station and connector was waiting then |
| `CommandLinks.LinkedToEnded` | apps/movos-api/src/ocpp/remote-commands/remote-command-confirmation.service.ts:86-109 | otherwise some continuation links it to a charge that had ended before |
| `CommandServices.RemoteCommandService.AssertNoConflictingCommand` | apps/movos-api/src/ocpp/remote-commands/remote-command.service.ts:514-532 | free exactly when nothing in flight on the station clashes |
| `CommandServices.RemoteCommandService.RequestCommand` | apps/movos-api/src/ocpp/remote-commands/remote-command.service.ts:99-237 | the first failing check in the source's order, or the REQUESTED row and its dispatch |
| `CommandServices.RemoteCommandService.Finalize` | apps/movos-api/src/ocpp/remote-commands/remote-command.service.ts:463-489 | a table-checked transition with its resolution stamp, or no change |
| `CommandServices.RemoteCommandService.ResolveConnection` | apps/movos-api/src/ocpp/remote-commands/remote-command.service.ts:245-292 | rejected unsent without a connection or protocol support, else waiting for the answer |
| `CommandServices.RemoteCommandService.AnswerReceived` | apps/movos-api/src/ocpp/remote-commands/remote-command.service.ts:299-342 | SENT is recorded when the outcome is known |
| `CommandServices.RemoteCommandService.SettleOutcome` | apps/movos-api/src/ocpp/remote-commands/remote-command.service.ts:344-409 | timeout, rejection or acceptance, and registration only on acceptance |
| `CommandServices.RemoteCommandService.ConfirmCommand` | apps/movos-api/src/ocpp/remote-commands/remote-command.service.ts:419-433 | CONFIRMED from ACCEPTED only, linking a session only where none was named |
| `CommandServices.RemoteCommandService.MarkUnconfirmed` | apps/movos-api/src/ocpp/remote-commands/remote-command.service.ts:438-447 | UNCONFIRMED from ACCEPTED only |
| `CommandServices.RemoteCommandConfirmationService.Register` | apps/movos-api/src/ocpp/remote-commands/remote-command-confirmation.service.ts:73-84 | arms the timer and queues one immediate check |
| `CommandServices.RemoteCommandConfirmationService.OnStartTransactionObserved` | apps/movos-api/src/ocpp/remote-commands/remote-command-confirmation.service.ts:92-109 | confirms some matching ACCEPTED start whenever there is one |
| `CommandServices.RemoteCommandConfirmationService.OnStopTransactionObserved` | apps/movos-api/src/ocpp/remote-commands/remote-command-confirmation.service.ts:115-127 | confirms some matching ACCEPTED stop whenever there is one |
| `CommandServices.RemoteCommandConfirmationService.CheckImmediately` | apps/movos-api/src/ocpp/remote-commands/remote-command-confirmation.service.ts:134-162 | confirms on evidence already in the tables |
| `CommandServices.RemoteCommandConfirmationService.ConfirmObserved` | apps/movos-api/src/ocpp/remote-commands/remote-command-confirmation.service.ts:164-181 | clears the timer, then confirms or swallows the late transition |
| `CommandServices.RemoteCommandConfirmationService.TimerFired` | apps/movos-api/src/ocpp/remote-commands/remote-command-confirmation.service.ts:183-194 | a firing disarms and queues the expiry |
| `CommandServices.RemoteCommandConfirmationService.ExpireCommand` | apps/movos-api/src/ocpp/remote-commands/remote-command-confirmation.service.ts:204-226 | expires only what is still ACCEPTED |
| `CommandServices.TransactionHandlers.HandleStart` | apps/movos-api/src/ocpp/handlers/transaction-start.handler.ts:80-106 | creates or keeps the session, answers with its id and queues its observation |
| `CommandServices.TransactionHandlers.HandleStop` | apps/movos-api/src/ocpp/handlers/transaction-end.handler.ts:32-74 | reject an unknown transaction, acknowledge what is already COMPLETED or FAILED, stop the rest and observe it; a CANCELLED session raises |
| `CommandHistory.StopTakesEffectIff` | apps/movos-api/src/ocpp/handlers/transaction-end.handler.ts:36-74 | a stop message completes its session and queues its observation exactly when the session is known and has not ended; otherwise nothing changes |
| `WorkOrders.ApplyFaithful` | apps/movos-api/src/work-orders/work-order.service.ts:408-529 | an operation whose write lands at once keeps each row equal to the replay of its log and each log a legal run |
| `WorkOrders.AcceptedIffLegal` | apps/movos-api/src/work-orders/work-order.service.ts:459-484 | the transition checks admit exactly the transitions whose log entry is legal next, and assignment only to an active member |
| `WorkOrders.FaultIff` | apps/movos-api/src/work-orders/work-order.service.ts:459-484 | a transition is refused for a given reason exactly when that check fails and every check before it passes |
| `WorkOrders.WorkAdmittedIff` | apps/movos-api/src/work-orders/my-work.service.ts:117-139 | a technician's transition is admitted exactly when it is a start, a comment or a resolution, the order is assigned to that technician, and its log entry is legal next |
| `WorkOrders.OthersAdmittedIff` | apps/movos-api/src/work-orders/my-work.service.ts:141-170 | evidence is admitted exactly on the technician's own unfinished order and when its text is not blank; a planned visit exactly on an unfinished order; a creation exactly for an existing station |
| `WorkOrders.LateWriteIff` | apps/movos-api/src/work-orders/work-order.service.ts:447-529 | a write that lands any time after its checks keeps its order's row and log in step exactly when the checks, made again on the row it meets, would pass |
| `WorkOrders.LateSweepIff` | apps/movos-api/src/work-orders/work-order.service.ts:579-611 | the sweep's unchecked write is right exactly when the order is still unfinished when it lands; otherwise the log closes the order twice |
| `WorkOrders.ClosingIsLast` | apps/movos-api/src/work-orders/work-order.service.ts:138-144 | in a legal log only the last entry can close, and creation comes first and once |
| `WorkOrders.PlannedVisitNotLogged` | apps/movos-api/src/work-orders/work-order.service.ts:421-442 | a visit planned at creation is not in the log |
| `WorkOrders.SweepIsExact` | apps/movos-api/src/work-orders/work-order.service.ts:558-614 | an uninterrupted recovery sweep closes exactly the eligible orders with one entry each, touches nothing else, and leaves none eligible |
| `WorkOrders.SweepFaithful` | apps/movos-api/src/work-orders/work-order.service.ts:558-614 | in whatever order it works, such a sweep keeps logs and rows in step |
| `WorkOrderDesk.AlwaysFaithfulIff` | apps/movos-api/src/work-orders/work-order.service.ts:447-614 | over every interleaving of operators, technicians and overlapping sweeps, each writing some time after it read: an order's row and log agree at every moment exactly when no write landed on it late |
| `WorkOrderDesk.RunFaithful` | apps/movos-api/src/work-orders/work-order.service.ts:408-614 | so the whole book is faithful after every run in which no write landed late |
| `WorkOrderDesk.FaithfulAtEndIff` | apps/movos-api/src/work-orders/work-order.service.ts:447-614 | late assignments apart, row and log agree at the end exactly when no write of the whole run was late; otherwise the log is illegal for good |
| `WorkOrderDesk.ReplayRebuilds` | apps/movos-api/src/work-orders/work-order.service.ts:649-749 | in every run without a late write to the order replaying the log gives status, assignee, notes and times, and at most one entry closes it, the last |
| `WorkOrderHistory.DecidedBefore` | apps/movos-api/src/work-orders/work-order.service.ts:447-487 | in every run every write still to land was decided by an operation whose checks passed when it read, asked for by the member it names and saying what it says, or by a sweep that found the order eligible; a technician's was decided while the order was their own |
| `WorkOrderHistory.EntryIsAccountedFor` | apps/movos-api/src/work-orders/work-order.service.ts:649-749 | in every run every log entry was written at its time by a write so decided before, or records the creation of its order |
| `WorkOrderHistory.OrderIsAccountedFor` | apps/movos-api/src/work-orders/work-order.service.ts:408-445 | and every order has the station, source, priority and creation time of the one creation that made it |
| `WorkOrderDesk.ClosedTwiceIff` | apps/movos-api/src/work-orders/work-order.service.ts:558-614 | with operators and technicians in time, an order is closed more than once exactly when a sweep's write met it already closed |
| `WorkOrderDesk.SweepConservation` | apps/movos-api/src/work-orders/work-order.service.ts:561-611 | in every run the automatic closings of an order, made or still to land, are as many as the sweeps that read it unfinished with its station back |
| `WorkOrderDesk.ClosedIsFinalIff` | apps/movos-api/src/work-orders/work-order.service.ts:97-144 | the row and log of a closed order never change again, whatever follows, exactly when no write to it is still to land |
| `WorkOrderDesk.SweepClosesAgain` | apps/movos-api/src/work-orders/work-order.service.ts:558-614 | from every such state: a sweep reads, an operator cancels, the sweep writes; the order is closed twice and its log illegal |
| `WorkOrderDesk.LateStartReopens` | apps/movos-api/src/work-orders/work-order.service.ts:447-487 | from every such state: a start is checked, an operator cancels, the start is written; the cancelled order is IN_PROGRESS and its log illegal |
| `WorkOrderDesk.Uninterrupted` | apps/movos-api/src/work-orders/work-order.service.ts:447-529 | a check and its write with nothing in between are the operation |
| `WorkOrderDesk.UninterruptedSweep` | apps/movos-api/src/work-orders/work-order.service.ts:558-614 | a sweep's read and its writes with nothing in between are the loop over the eligible orders |
| `WorkOrderServices.WorkOrderService.Create` | apps/movos-api/src/work-orders/work-order.service.ts:408-445 | the row and its CREATED entry, or the missing-station error |
| `WorkOrderServices.WorkOrderService.CheckTransition` | apps/movos-api/src/work-orders/work-order.service.ts:459-484 | the first failing check in the source's order; none exactly when the entry would be legal next |
| `WorkOrderServices.WorkOrderService.Perform` | apps/movos-api/src/work-orders/work-order.service.ts:447-487 | the first failing check, or the checked transition |
| `WorkOrderServices.WorkOrderService.ApplyTransition` | apps/movos-api/src/work-orders/work-order.service.ts:649-749 | one row write and one entry per transition, whatever has become of the row since it was read |
| `WorkOrderServices.WorkOrderService.PlanVisit` | apps/movos-api/src/work-orders/work-order.service.ts:497-529 | refused on closed orders, else the new plan and its entry |
| `WorkOrderServices.WorkOrderService.ResolveRecoveredConnectivityWorkOrders` | apps/movos-api/src/work-orders/work-order.service.ts:558-614 | the uninterrupted loop over the candidates closes exactly the eligible ones and returns them once each |
| `WorkOrderServices.WorkOrderService.CloseRecovered` | apps/movos-api/src/work-orders/work-order.service.ts:589-610 | the sweep's write alone, whatever has become of the order since it was read |
| `WorkOrderServices.MyWorkService.Perform` | apps/movos-api/src/work-orders/my-work.service.ts:117-139 | start, comment and resolve only, on own orders only: the admitting condition is `WorkOrders.WorkAdmittedIff` |
| `WorkOrderServices.MyWorkService.RecordChecklistEvent` | apps/movos-api/src/work-orders/my-work.service.ts:141-170 | evidence on own unfinished orders only, with the text each kind requires |
| `WorkOrderServices.ComputeAttentionReasons` | apps/movos-api/src/work-orders/work-order.service.ts:229-289 | the reasons are exactly the conditions that hold, so an order is listed exactly when it has one |
| `Connectivity.StepAlternates` | apps/movos-api/src/ocpp/connectivity/connectivity-coordinator.service.ts:90-156 | the notes of a station, handled in order, never disconnect it twice without a return in between; every event keeps that |
| `Connectivity.StampedOnTransition` | apps/movos-api/src/ocpp/connectivity/connectivity-coordinator.service.ts:136-156 | so in every run, restarts that lose notes included, the disconnect time is stamped only on a transition to OFFLINE |
| `Outages.StepSound` | apps/movos-api/src/work-orders/work-order-automation.service.ts:32-138 | every event of sockets, notes, both sweeps and operators, in any interleaving, keeps an outage behind every outage order and returns between disconnects |
| `Outages.StepOneIff` | apps/movos-api/src/work-orders/work-order-automation.service.ts:99-138 | exactly one event gives an outage a second order: a creation that lands although the outage got its order since the sweep looked |
| `Outages.OnePerOutageIff` | apps/movos-api/src/work-orders/work-order-automation.service.ts:32-138 | so over every run, overlapping sweeps included, each outage has one order exactly when that never happened |
| `Outages.OneOrderPerOutage` | apps/movos-api/src/work-orders/work-order-automation.service.ts:99-138 | then of two outage orders of a station the later answers a disconnect handled after the first was created and more than 15 minutes before its own creation, and the station came back in between |
| `Outages.OutageBehindOrder` | apps/movos-api/src/work-orders/work-order-automation.service.ts:67-82 | in every run every outage order has high priority and a disconnect of its station handled more than 15 minutes before it |
| `Outages.ReadIsCovered` | apps/movos-api/src/work-orders/work-order-automation.service.ts:67-128 | in every run an outage that a sweep read is waiting to be looked into or given its order, or has one |
| `Outages.SweepReadsIff` | apps/movos-api/src/work-orders/work-order-automation.service.ts:67-82 | in every run a sweep reads an outage exactly when its station is in service and the last note handled for it is a disconnect, at the time the outage names and more than 15 minutes ago |
| `Outages.RecoveryReadsIff` | apps/movos-api/src/work-orders/work-order.service.ts:558-588 | in every run a recovery sweep decides to close an order exactly when it is an unfinished outage order whose station is ONLINE with its last connection handled after the order was created |
| `Outages.ActiveIff` | apps/movos-api/src/work-orders/work-order-automation.service.ts:67-82 | a station is in service exactly by the last decision taken about it |
| `Outages.CoveredForGood` | apps/movos-api/src/work-orders/work-order-automation.service.ts:99-128 | and an outage that has an order has it for good: a later look creates nothing |
| `Outages.GuardAndCreate` | apps/movos-api/src/work-orders/work-order-automation.service.ts:99-138 | looking and creating with nothing in between creates an order exactly when none covers the outage, and never a second one |
| `Outages.OverlappingSweepsDouble` | apps/movos-api/src/work-orders/work-order-automation.service.ts:32-138 | two sweeps that both look before either creates give one outage two orders |
| `Outages.SweepCoversAndSettles` | apps/movos-api/src/work-orders/work-order-automation.service.ts:67-128 | after an uninterrupted sweep every outage it read is covered, and covered outages get nothing more |
| `Outages.WorkOrderAutomationService.SweepOfflineStations` | apps/movos-api/src/work-orders/work-order-automation.service.ts:67-97 | the loop handles exactly the stale stations, once each, in any order |
| `Outages.WorkOrderAutomationService.CreateUnlessCovered` | apps/movos-api/src/work-orders/work-order-automation.service.ts:99-138 | an order unless one was created at or after the last disconnect |

## Left out

- CommandOutcomes.NoMissedStop: is about one process life, because the timers and waiting steps live in memory; what a restart does to a command is `CommandLimits.RestartResolvableIff`, and when rivals make it fail is `CommandRaces.MissableIff`.
- CommandStarts.NoMissedStart: is about one process life for the same reason; a charge counts as an answer only if the charger's own timestamp is not before the request, as in the immediate check.
- WorkOrderDesk.ReplayRebuilds: rebuilds the planned visit only once the log mentions one, because the plan made at creation is not logged; that no write landed late is its exact condition, by `WorkOrderDesk.AlwaysFaithfulIff`.
- Interleavings between a row write and its log entry, and inside one read-check-write of sessions and remote commands.
- Callbacks of a pending call that throw or call back into the registry.
- HTTP controllers, guards, DTO validation, presenters, tenant checks, authentication and audit rows.
- Protocol adapters, frame parsing and routing: a command's wire result is accepted, rejected or silence.
- The authorization attempt before a start: an unauthorized start is an event that does not happen.
- Billing account resolution, protocol transaction ids and the power, voltage and current fields of a sample.
- `lastSeenAt`, protocol version and the audit trail of stations; EVSE and connector operational status.
- Unicode normalisation and casing, and object keys with special meaning such as `__proto__`.
- The generators' own word building and the scores other than pronunciation and trademark safety, which are sums of independent cases; the weighted total uses floating point.
- Technician workload counts, listing filters, attachments and the contents of checklist snapshots.
