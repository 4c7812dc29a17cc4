# EDH free-for-all tournament engine

This project models the tournament engine of a Discord bot that runs EDH
(Commander) free-for-all tournaments. The engine has four parts:

- **A registry.** It maps tournament ids to tournaments and is written to a data file after every change.
- **Commands.** They create a tournament, register players, start a round, report a pod's placements, disqualify a player, end a tournament, and show standings, one's own standing or one's own pod.
- **A watchdog.** It warns about rounds that are over their time limit.
- **A data file.** The registry is saved to it and loaded from it.

A round cuts a shuffled roster into pods of `pod_size` players. Each pod reports its placements once. Points come from a fixed table, and a round closes when its last pod has reported.

The model follows `edh_tournament_bot.py`. `cogs/tournament.py` holds the same engine line for line as a cog, so every row below holds for it too.

Modules:

- `Model` (model.dfy): the records `Player`, `Game` (a pod), `Round` and `Tournament`; the caller's rights; the error cases, one per rejection message of the handlers.
- `Scoring` (scoring.dfy): the points table `get_point_allocation`.
- `Pairing` (pairing.dfy): `make_pods`, including the loop as written for any `pod_size`.
- `Naming` (naming.dfy): `generate_tournament_id`.
- `Ranking` (ranking.dfy): `standings_list`, Python's stable sort with the key (-points, matches played, name).
- `Rules` (rules.dfy): each handler as a transition on one tournament, the invariants they keep, and the two findings below.
- `Timeouts` (timeouts.dfy): one sweep of `check_round_timeouts`.
- `Persistence` (persistence.dfy): `save_all` and `load_all` as maps between records and stored records.
- `Bot` (bot.dfy): the class `Registry`, which holds `TOURNAMENTS` and the last written file content. Its handlers update the registry in place and then save it.

The inputs that the bot gets from Discord, the clock and the random module are parameters:

- the caller's id, admin right and organizer role;
- the members named in a command, as ids;
- the shuffled roster, as `order`;
- the clock reading, as `now` in whole seconds.

## Model

| member | source | states |
|---|---|---|
| Scoring.PointAllocationShape | edh_tournament_bot.py:261-270 | every points vector is strictly descending and awards at least 1 per place; it has one entry per placement for 1 to 4 placements and a single entry of 2 otherwise; first place gets 4, 3 in a 2-player report, 2 alone |
| Scoring.PointAllocationMatchesHelp | edh_tournament_bot.py:368-372 | for pods of 1 to 4 the table gives, place by place, the points the help screen advertises |
| Pairing.MembersAppend | edh_tournament_bot.py:256 | the members of concatenated pod lists are the concatenated members |
| Pairing.MakePods | edh_tournament_bot.py:247-259 | the `while players` loop yields exactly the pods `Pods(order, pod_size, 1)` |
| Pairing.PodsCoverOrder | edh_tournament_bot.py:252-257 | the pods' player lists, concatenated, give back the shuffled order, so every player is seated exactly once |
| Pairing.PodsCount | edh_tournament_bot.py:252-257 | there are ceil(n / pod_size) pods |
| Pairing.PodsShape | edh_tournament_bot.py:252-258 | pods are numbered first, first+1, ... in order and start unreported with no results; all but the last are full; the last holds 1 to pod_size players; there are pods iff there are players |
| Pairing.NinePlayersInPodsOfFour | edh_tournament_bot.py:252-257 | 9 players in pods of 4 give pods of 4, 4 and 1, numbered 1 to 3 |
| Pairing.SlicesMatchPods | edh_tournament_bot.py:253-254 | for pod_size >= 1, Python's slices `players[:k]` and `players[k:]` cut exactly the first pod of `Pods` |
| Pairing.NonPositivePodSizeNeverEmpties | edh_tournament_bot.py:252-256 | for pod_size <= 0, a non-empty roster stays non-empty after any number of passes, so the loop never ends |
| Naming.BaseShape | edh_tournament_bot.py:236 | the id base has at most 20 characters, each a lower-case letter, digit or underscore |
| Naming.NormalizeShape | edh_tournament_bot.py:236 | the filtered, lower-cased name consists of id characters only |
| Naming.NormalizeKeepsIdChars | edh_tournament_bot.py:236 | a name made of id characters is its own normal form |
| Naming.NormalizeIdempotent | edh_tournament_bot.py:236 | normalising twice is normalising once |
| Naming.ParseNatToString | edh_tournament_bot.py:238 | reading back the decimal suffix gives the number |
| Naming.SuffixOfIdFor | edh_tournament_bot.py:238 | the suffix of `base_i` reads back as i |
| Naming.IdForInjective | edh_tournament_bot.py:237-241 | distinct suffixes give distinct candidate ids, so the search visits a new id each time |
| Naming.GenerateTournamentId | edh_tournament_bot.py:235-242 | the id is `base_i` for the smallest i >= 1 whose id is not taken, and it is never an existing id |
| Ranking.NameAtMostTotal | edh_tournament_bot.py:245 | any two names compare one way or the other under Python's string order |
| Ranking.NameAtMostTransitive | edh_tournament_bot.py:245 | Python's string order is transitive |
| Ranking.RanksTotal | edh_tournament_bot.py:245 | any two players compare one way or the other under the sort key |
| Ranking.RanksTransitive | edh_tournament_bot.py:245 | the sort key order is transitive |
| Ranking.InsertPermutes | edh_tournament_bot.py:245 | inserting a player adds exactly that player |
| Ranking.ConsRanked | edh_tournament_bot.py:245 | a player ranking above every member of a ranked list can be put in front |
| Ranking.HeadRanksAbove | edh_tournament_bot.py:245 | the head of a ranked list ranks above any rearrangement of its tail plus a player it beats |
| Ranking.InsertKeepsRanked | edh_tournament_bot.py:245 | inserting into a ranked list keeps it ranked |
| Ranking.StandingsRankedPermutation | edh_tournament_bot.py:244-245 | the standings are a permutation of the roster, ordered by points descending, then matches played ascending, then name ascending |
| Ranking.StandingsExample | edh_tournament_bot.py:245 | A (10 points, 3 matches), B (10, 2) and C (8, 1) stand B, A, C |
| Rules.ConsistentMeansAtMostOneActive | edh_tournament_bot.py:415-416 | under the invariant, at most one round is active |
| Rules.FirstMatch | edh_tournament_bot.py:438 | `next(...)` finds the first pod satisfying the test, or none when no pod does |
| Rules.RegisterEffect | edh_tournament_bot.py:397-405 | finished gives "already finished" and a registered id gives "already registered", with nothing changed; otherwise exactly one player with 0 points and 0 matches is added, everything else is unchanged and the invariants hold |
| Rules.StartRoundEffect | edh_tournament_bot.py:410-421 | rejects a finished tournament, fewer than 2 players, an active round, or a pod size below 1; otherwise appends exactly one active, unwarned round numbered after the last, started at `now`, with the pods cut from `order`; earlier rounds and players are unchanged |
| Rules.StartRoundSeatsEveryone | edh_tournament_bot.py:418 | the new round's pods seat every registered player exactly once and nobody else |
| Rules.StartRoundKeepsInvariant | edh_tournament_bot.py:413-421 | starting a round keeps numbering, player keys and "only the latest round active", and the new round is open with every pod pending |
| Rules.DictOfLastWins | edh_tournament_bot.py:444 | a dict built from pairs holds exactly the ids that occur, each with the value of its last pair |
| Rules.ZipAt | edh_tournament_bot.py:444 | `zip` of the placements with a table at least as long pairs the i-th placement with the i-th entry |
| Rules.ResultsOfPlacements | edh_tournament_bot.py:442-444 | the results record every placed id, and an id placed once at position i gets the i-th table entry |
| Rules.DuplicatePlacementKeepsLast | edh_tournament_bot.py:444 | placements a, a, b record a:3 and b:2, so the later duplicate overwrites the earlier one |
| Rules.AwardCredits | edh_tournament_bot.py:447-451 | each registered player with a result gains its points and one match, others are unchanged, and result ids that are not registered are ignored |
| Rules.ReportGameEffect | edh_tournament_bot.py:434-454 | rejects "no rounds", "round ended" and "pod not found"; when the pod is found it succeeds exactly if that pod has not reported, and otherwise answers "already reported"; a success found an unreported first pod with that number, records its results, marks it reported, credits the players, closes the round exactly when every pod has reported, and leaves other pods and rounds unchanged |
| Rules.ReportAgainFails | edh_tournament_bot.py:436-440 | reporting the same pod again always fails, as "round ended" if the first report closed the round and "already reported" otherwise |
| Rules.ReportKeepsEarlierResults | edh_tournament_bot.py:440-445 | a report never rewrites a pod that had already reported |
| Rules.ReportGameKeepsInvariant | edh_tournament_bot.py:453-454 | a report keeps the invariant and keeps every round open exactly while a pod is pending |
| Rules.FirstIndex | edh_tournament_bot.py:538 | the first position of an id, before which it does not occur |
| Rules.RemoveFirstCuts | edh_tournament_bot.py:538 | `list.remove` cuts the list at the first occurrence and keeps the order of the rest |
| Rules.RemoveAbsent | edh_tournament_bot.py:537-538 | removing an absent id changes nothing |
| Rules.RemoveFirstMultiset | edh_tournament_bot.py:537-538 | removal drops exactly one copy of the id when present |
| Rules.DropFromGameEffect | edh_tournament_bot.py:537-541 | the player's first copy is cut out of the pod and the other members keep their order; number and results stay; the pod becomes reported exactly if it was, or it seated the player and now has fewer than 2; a pod without the player is unchanged |
| Rules.DisqualifyEffect | edh_tournament_bot.py:523-541 | a caller who is neither host nor admin gets "only the host or an admin", and an unregistered player gets "not registered"; otherwise the player is deleted and leaves every pod of every round as `DroppedFrom` states (first copy cut out, order of the rest kept, reported exactly if it was or it now holds fewer than 2 players after seating them); numbers, results, round flags and other players are unchanged |
| Rules.DisqualifyKeepsInvariant | edh_tournament_bot.py:532-541 | disqualifying keeps numbering, player keys and "only the latest round active" |
| Rules.StalledRoundBlocks | edh_tournament_bot.py:413-436 | once the latest round is active with every pod reported, every new round and every report is refused |
| Rules.DisqualifyKeepsStall | edh_tournament_bot.py:535-541 | a disqualification never reopens or closes such a stalled round |
| Rules.StallExampleSettled | edh_tournament_bot.py:453-454 | the example tournament is consistent, and each of its rounds is open exactly while a pod is pending |
| Rules.StallExampleDisqualified | edh_tournament_bot.py:535-541 | disqualifying player 4 auto-closes pod 2 while round 1 stays active |
| Rules.DisqualifyStallsRound | edh_tournament_bot.py:535-541 | from a settled tournament, one disqualification leaves a round active with no pod pending, after which every new round and every report is refused |
| Rules.DisqualifyReclosingKeepsSettled | edh_tournament_bot.py:535-541 | the corrected disqualification fails exactly when the original does, removes the same player, keeps the invariant, and keeps every round open exactly while a pod is pending |
| Rules.EndTournamentEffect | edh_tournament_bot.py:566-569 | needs the host or an admin and only sets `finished`; afterwards registrations and new rounds are refused, while reports are taken exactly as before |
| Rules.Without | edh_tournament_bot.py:558 | the opponents are the pod's players other than the caller, every other id keeping its count |
| Rules.MyPods | edh_tournament_bot.py:552-558 | rejects "no rounds" and "round ended"; it succeeds exactly when some pod of the latest round seats the caller, and fails with "not in any pod" exactly when none does; on success it shows the first pod that does, with its other players |
| Rules.MembersSeated | edh_tournament_bot.py:556 | a player among the pods' members sits in one of the pods |
| Rules.MyPodsAfterStart | edh_tournament_bot.py:556-557 | right after a round starts, every registered player finds their pod |
| Rules.MyStandingAfterRegisterAndDisqualify | edh_tournament_bot.py:510-512 | a new registrant stands at 0 points and 0 matches, and a disqualified player is no longer registered |
| Timeouts.PendingMembers | edh_tournament_bot.py:301 | the overdue pods are exactly the unreported pods of the round |
| Timeouts.WarnPods | edh_tournament_bot.py:302-303 | one warning per overdue pod, in pod order, naming its number and players |
| Timeouts.SweepRound | edh_tournament_bot.py:294-301 | a round is flagged iff it is active, has a truthy start time, is unwarned and older than the limit; then its pending pods are warned about |
| Timeouts.SweepTournament | edh_tournament_bot.py:293-302 | the loop over a tournament's rounds yields the swept tournament and exactly the sweep's warnings, in order |
| Timeouts.AlertsStep | edh_tournament_bot.py:293 | loop-step helper: each pass of the loop adds the round's warnings to those gathered so far |
| Timeouts.SweptRounds | edh_tournament_bot.py:293 | loop-step helper: flagging each round in turn gives the swept rounds |
| Timeouts.SweepFlagsExactlyOverdue | edh_tournament_bot.py:294-298 | a sweep sets the warned flag on exactly the overdue rounds, never clears one, and changes nothing else |
| Timeouts.RoundsAlertsCharacterised | edh_tournament_bot.py:294-302 | a warning is sent iff it names an overdue round and one of its unreported pods |
| Timeouts.AlertsCharacterised | edh_tournament_bot.py:292-302 | the same for a whole tournament, every warning naming the tournament and its host |
| Timeouts.Quiet | edh_tournament_bot.py:294 | with no overdue round, nothing is sent |
| Timeouts.SweepWarnsOnce | edh_tournament_bot.py:294-298 | a flagged round is never overdue again at any later time; a second sweep at the same time changes nothing and sends nothing |
| Timeouts.SweepKeepsInvariant | edh_tournament_bot.py:298 | a sweep keeps the invariant and keeps rounds open exactly while pods are pending |
| Timeouts.OverdueExample | edh_tournament_bot.py:294-296 | with 90 minutes, a round started 100 minutes ago is overdue, one started 80 minutes ago is not, and one started at time 0 never is |
| Persistence.WriteAll | edh_tournament_bot.py:182-207 | the loop over the registry writes the stored form of every tournament |
| Persistence.ReadPlayers | edh_tournament_bot.py:153-156 | the loop over stored players rebuilds every player |
| Persistence.ReadRounds | edh_tournament_bot.py:158-161 | the loop over stored rounds rebuilds every round |
| Persistence.ReadAll | edh_tournament_bot.py:145-175 | the loop over the file's tournaments rebuilds all of them with the defaults for missing settings |
| Persistence.LoadSaveTournament | edh_tournament_bot.py:145-207 | loading a saved tournament gives it back with only round start times and warned flags reset |
| Persistence.LoadSaveRoundTrip | edh_tournament_bot.py:145-207 | loading a saved registry keeps all tournaments with their players, scores, rounds, pods, results and settings, losing only start times and warned flags |
| Persistence.SaveLoadSaveStable | edh_tournament_bot.py:182-207 | saving a reloaded registry writes the same content again |
| Persistence.LoadDefaults | edh_tournament_bot.py:159-172 | missing settings load as not finished, pod size 4, 4 rounds and 90 minutes, and a round without `active` loads as open |
| Persistence.ReloadedRoundsNeverOverdue | edh_tournament_bot.py:161 | after a load no round is ever overdue, because start times are not stored |
| Persistence.ForgetKeepsInvariant | edh_tournament_bot.py:161 | resetting the timers keeps the invariants |
| Persistence.ReloadKeepsInvariant | edh_tournament_bot.py:145-207 | a registry reloaded from its own save is still filed by id and consistent |
| Bot.AlertsGathered | edh_tournament_bot.py:292 | loop-step helper: visiting one more tournament adds exactly its warnings |
| Bot.SweepOneMore | edh_tournament_bot.py:292-298 | loop-step helper: visiting one more tournament sweeps it and leaves the rest as they were |
| Bot.SweptStaysFiled | edh_tournament_bot.py:298 | loop-step helper: refiling a swept tournament keeps the registry well filed |
| Bot.CreditAll | edh_tournament_bot.py:447-451 | the loop over `results.items()` credits exactly as `Rules.Award` |
| Bot.DropFromPods | edh_tournament_bot.py:536-541 | the inner loop of `disqualify` drops the player from each pod as `Rules.DropFromGames` |
| Bot.DropEverywhere | edh_tournament_bot.py:535-541 | the outer loop drops the player from every round as `Rules.DropFromRounds` |
| Bot.Registry.Load | edh_tournament_bot.py:219 | at start-up the registry is what the data file holds, and it is valid whenever the loaded tournaments are filed by id and consistent |
| Bot.RestartKeepsFiled | edh_tournament_bot.py:145-207 | loading the file that a valid registry saved gives a valid registry, so the handlers start from `Valid()` after a restart |
| Bot.Registry.Save | edh_tournament_bot.py:182-213 | the file holds the stored form of the current registry |
| Bot.Registry.Shutdown | edh_tournament_bot.py:225-229 | on exit the whole registry is written |
| Bot.Registry.CreateTournament | edh_tournament_bot.py:385-393 | organizers only; files an empty tournament hosted by the caller under the first free id for its name, keeps the registry well filed and saves |
| Bot.Registry.Register | edh_tournament_bot.py:395-405 | "tournament not found", otherwise exactly `Rules.Register` applied in place; saved on success, file untouched on failure |
| Bot.Registry.StartRound | edh_tournament_bot.py:407-424 | organizers only, then "tournament not found", then exactly `Rules.StartRound` in place; saved on success; the registry stays well filed |
| Bot.Registry.ReportGame | edh_tournament_bot.py:429-459 | "tournament not found", otherwise exactly `Rules.ReportGame` with the placements in place; saved on success |
| Bot.Registry.Disqualify | edh_tournament_bot.py:514-544 | organizers only, then "tournament not found", then exactly `Rules.Disqualify` in place; saved on success |
| Bot.Registry.EndTournament | edh_tournament_bot.py:561-571 | organizers only, then "tournament not found", then exactly `Rules.EndTournament` in place; saved on success |
| Bot.Registry.MyPods | edh_tournament_bot.py:547-559 | "tournament not found", otherwise `Rules.MyPods`; nothing changes |
| Bot.Registry.MyStandings | edh_tournament_bot.py:505-512 | "tournament not found" or "not registered", otherwise the caller's own record |
| Bot.Registry.Standings | edh_tournament_bot.py:493-500 | organizers only, then "tournament not found"; otherwise the players ranked, as a permutation of the roster |
| Bot.Registry.CheckRoundTimeouts | edh_tournament_bot.py:290-301 | one watchdog pass sweeps every tournament at `now`, returns exactly the warnings of all sweeps, and rewrites the file iff some round was flagged |

## Left out

- Discord I/O is not modelled: sending messages, embeds, mentions, the help view (`HelpView`, `on_interaction`), `on_ready`, `setup_hook` and `bot.run`. Only each handler's check-and-update logic is kept.
- The watchdog's messages are not modelled: the host's direct message and the channel post become `Timeouts.Alert` values. `fetch_user`, the guild and channel search, the exception handlers, `asyncio` and the five-minute sleep are not modelled.
- Bot.Registry.ReportGame: the handler sends its Discord reply before calling `save_all`, so a reply that raises leaves the report in memory but not in the file. The model saves unconditionally on success and does not capture that unsaved path.
- Bot.Registry.CheckRoundTimeouts: the handler calls `save_all` after each flagged round; the model saves once after each changed tournament. The file's final content is the same.
- Message counting, the yapper leaderboard, `cogs/moderation.py` and `bot.py` are not part of the tournament engine and are not part of this model.
- JSON encoding, the temporary file, `shutil.move` and the `atexit` mechanism are not modelled. The data file is modelled as a map of stored records.
- Persistence.LoadSaveRoundTrip: JSON turns the integer keys of `players` and `results` into strings, and `load_all` turns only the `players` keys back. The model keeps integer keys throughout.
- Persistence.ReadAll: a file missing a required key, or with extra fields in a stored pod, would raise in `load_all`. The model assumes well-formed stored records. `load_all` also accepts inputs that `StoredPlayer` and `StoredGame` cannot express: a player without `points` or `matches_played` gets the dataclass defaults 0.0 and 0, and extra player keys are dropped by the `filtered` comprehension (edh_tournament_bot.py:155-156); a pod without `results_reported` or `results` gets the defaults False and an empty dict (edh_tournament_bot.py:160). The model's stored records always carry these fields.
- `random.shuffle` is not modelled. The shuffled roster is the parameter `order`.
- Bot.Registry.StartRound: requires `order` to list each registered id once, as a shuffle of the roster does.
- `time.time()` is not modelled. The clock reading is the parameter `now`, in whole seconds, and start times are whole seconds. `(now - start) / 60 > time_limit` is tested exactly as `now - start > 60 * time_limit`.
- Player points are Python floats that only ever receive integer increments from the table. They are modelled as `int`.
- Naming.Normalize: `str.lower` and `str.isalnum` are modelled on ASCII only. Other Unicode letters and digits are dropped rather than kept.
- Ranking.Standings: the roster is the parameter `roster`, standing for `t.players.values()` in the dict's insertion order. The model keeps players in a map and does not track that order.
- Bot.Registry.Standings: requires `roster` to list each player of the tournament once.
- Bot.Registry.CheckRoundTimeouts: tournaments are visited in an unspecified order rather than the dict's insertion order. So the returned warnings are characterised as a set, not as a sequence.
- Persistence.ReadAll: tournaments and players are rebuilt as maps, so the file's key order is not kept.
- `create_tournament` accepts any `pod_size`, `max_rounds` and `time_limit`, and so does the model. `max_rounds` is stored but never consulted, as in the source.

## Findings

| source | as written | input that shows it | evidently intended | confidence | as-written member | corrected member |
|---|---|---|---|---|---|---|
| edh_tournament_bot.py:252-256 | `make_pods` slices with `pod_size`, which `create_tournament` never validates; for `pod_size <= 0`, `players[pod_size:]` never empties a non-empty list | a tournament created with `pod_size=0` and 2 registered players; `/start_round` never returns | a round is cut into pods of at least one player | not executed | Pairing.NonPositivePodSizeNeverEmpties | Rules.StartRoundEffect |
| edh_tournament_bot.py:535-541 | `disqualify` can mark the last pending pod of the active round as reported but never re-evaluates `Round.active` | players 1 to 4 in pods of 2; pod 1 has reported; the host disqualifies player 4 | the round closes once no pod is pending, as after `report_game` | not executed | Rules.DisqualifyStallsRound | Rules.DisqualifyReclosingKeepsSettled |

In the second finding, the round stays open with every pod reported. After that, `/start_round` answers "a round is still active" and `/report_game` answers "already reported" for every pod, so the tournament cannot continue.

The handlers `Bot.Registry.StartRound` and `Rules.StartRound` refuse a pod size below 1 with `PodSizeNotPositive`. `Pairing.PodsCount` and `Pairing.PodsShape` prove the pods are well formed for every size they accept.

`Bot.Registry.Disqualify` keeps the handler's behaviour as written. `Rules.DisqualifyReclosing` is the corrected transition.
