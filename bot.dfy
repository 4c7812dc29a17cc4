/**
 * The bot's registry of tournaments and its slash-command handlers. Each
 * handler looks the tournament up, checks what the command checks in the
 * same order, updates the tournament in place and writes the data file.
 * Discord interactions become parameters: the caller's id and rights, the
 * users named in the command, the shuffled roster and the clock reading.
 */
module Bot {
  import opened Model
  import Naming
  import Pairing
  import Ranking
  import Rules
  import Timeouts
  import Persistence

  /** Every tournament is filed under its own id and keeps the tournament invariant. */
  ghost predicate WellFiled(ts: map<string, Tournament>) {
    forall tid :: tid in ts ==> ts[tid].id == tid && Rules.Consistent(ts[tid])
  }

  /** How a handler that performs `step` on tournament `tid` left the registry. */
  ghost predicate Applied(before: map<string, Tournament>, after: map<string, Tournament>, tid: string,
                          step: Result<Tournament>, outcome: Outcome) {
    match step
    case Ok(t) => outcome == Done && after == before[tid := t]
    case Err(e) => outcome == Fail(e) && after == before
  }

  /** A bot restarted on the file a well-filed registry saved starts well filed again. */
  lemma RestartKeepsFiled(ts: map<string, Tournament>)
    requires WellFiled(ts)
    ensures WellFiled(Persistence.Loaded(Persistence.Saved(ts)))
  {
    Persistence.ReloadKeepsInvariant(ts);
  }

  /** One more tournament visited by the watchdog adds exactly that tournament's warnings. */
  lemma AlertsGathered(before: map<string, Tournament>, todo: set<string>, tid: string, now: int,
                       alerts: seq<Timeouts.Alert>, found: seq<Timeouts.Alert>)
    requires tid in todo && todo <= before.Keys
    requires forall a :: a in alerts <==>
      a.tournamentId in before && a.tournamentId !in todo && a in Timeouts.Alerts(a.tournamentId, before[a.tournamentId], now)
    requires found == Timeouts.Alerts(tid, before[tid], now)
    ensures forall a :: a in alerts + found <==>
      a.tournamentId in before && a.tournamentId !in todo - {tid} && a in Timeouts.Alerts(a.tournamentId, before[a.tournamentId], now)
  {
    Timeouts.AlertsCharacterised(tid, before[tid], now);
  }

  /** The registry part-way through the watchdog's loop: the tournaments left in `todo` are untouched, the rest swept. */
  ghost predicate SweptExcept(before: map<string, Tournament>, after: map<string, Tournament>, todo: set<string>, now: int) {
    && after.Keys == before.Keys
    && forall tid :: tid in after ==>
         after[tid] == if tid in todo then before[tid] else Timeouts.Sweep(before[tid], now)
  }

  lemma SweepOneMore(before: map<string, Tournament>, after: map<string, Tournament>, todo: set<string>, tid: string, now: int)
    requires tid in todo && todo <= before.Keys && SweptExcept(before, after, todo, now)
    ensures after[tid] == before[tid]
    ensures SweptExcept(before, after[tid := Timeouts.Sweep(before[tid], now)], todo - {tid}, now)
    ensures Timeouts.Sweep(before[tid], now) == before[tid] ==> SweptExcept(before, after, todo - {tid}, now)
  {
    var next := after[tid := Timeouts.Sweep(before[tid], now)];
    assert next.Keys == before.Keys;
  }

  /** Refiling a swept tournament keeps the registry well filed. */
  lemma SweptStaysFiled(ts: map<string, Tournament>, tid: string, now: int)
    requires tid in ts && WellFiled(ts)
    ensures WellFiled(ts[tid := Timeouts.Sweep(ts[tid], now)])
  {
    Timeouts.SweepKeepsInvariant(ts[tid], now);
  }

  /** The loop of `report_game` over `results.items()`: ids that are not registered are skipped. */
  method CreditAll(players: map<PlayerId, Player>, results: map<PlayerId, int>) returns (credited: map<PlayerId, Player>)
    ensures credited == Rules.Award(players, results)
  {
    credited := players;
    var todo := results.Keys;
    while todo != {}
      invariant todo <= results.Keys
      invariant credited.Keys == players.Keys
      invariant forall q :: q in credited ==>
        credited[q] == if q in results && q !in todo then Rules.Credit(players[q], results[q]) else players[q]
      decreases todo
    {
      Inhabited(todo);
      var pid :| pid in todo;
      if pid in credited {
        credited := credited[pid := Rules.Credit(credited[pid], results[pid])];
      }
      todo := todo - {pid};
    }
    assert forall q :: q in credited ==> credited[q] == Rules.Award(players, results)[q];
  }

  /** The inner loop of `disqualify`, over one round's pods. */
  method DropFromPods(games: seq<Game>, pid: PlayerId) returns (dropped: seq<Game>)
    ensures dropped == Rules.DropFromGames(games, pid)
  {
    dropped := games;
    for j := 0 to |games|
      invariant |dropped| == |games|
      invariant forall i :: 0 <= i < j ==> dropped[i] == Rules.DropFromGame(games[i], pid)
      invariant forall i :: j <= i < |games| ==> dropped[i] == games[i]
    {
      var game := dropped[j];
      if pid in game.players {
        game := game.(players := Rules.RemoveFirst(game.players, pid));
        if |game.players| < 2 && !game.resultsReported {
          game := game.(resultsReported := true);
        }
        dropped := dropped[j := game];
      }
    }
  }

  /** The outer loop of `disqualify`, over every round. */
  method DropEverywhere(rounds: seq<Round>, pid: PlayerId) returns (dropped: seq<Round>)
    ensures dropped == Rules.DropFromRounds(rounds, pid)
  {
    dropped := rounds;
    for k := 0 to |rounds|
      invariant |dropped| == |rounds|
      invariant forall i :: 0 <= i < k ==> dropped[i] == Rules.DropFromRound(rounds[i], pid)
      invariant forall i :: k <= i < |rounds| ==> dropped[i] == rounds[i]
    {
      var games := DropFromPods(dropped[k].games, pid);
      dropped := dropped[k := dropped[k].(games := games)];
    }
  }

  class Registry {
    /** `TOURNAMENTS`, keyed by tournament id. */
    var tournaments: map<string, Tournament>
    /** The data file's content as last written. */
    var stored: map<string, Persistence.StoredTournament>

    ghost predicate Valid()
      reads this
    {
      WellFiled(tournaments)
    }

    /** Start-up: the registry is whatever the data file holds (an absent file is an empty map). */
    constructor Load(raw: map<string, Persistence.StoredTournament>)
      ensures tournaments == Persistence.Loaded(raw)
      ensures stored == raw
      ensures WellFiled(Persistence.Loaded(raw)) ==> Valid()
    {
      var data := Persistence.ReadAll(raw);
      tournaments := data;
      stored := raw;
    }

    /** `save_all(TOURNAMENTS)`. */
    method Save()
      modifies this
      ensures tournaments == old(tournaments)
      ensures stored == Persistence.Saved(tournaments)
    {
      stored := Persistence.WriteAll(tournaments);
    }

    /** The `atexit` hook: write everything on shutdown. */
    method Shutdown()
      modifies this
      ensures tournaments == old(tournaments)
      ensures stored == Persistence.Saved(tournaments)
    {
      Save();
    }

    /**
     * `create_tournament`: organizers only; files a new, empty tournament
     * hosted by the caller under the first free id for its name.
     */
    method CreateTournament(caller: Caller, name: string, podSize: int, maxRounds: int, timeLimit: int)
      returns (r: Result<string>)
      modifies this
      ensures !IsOrganizer(caller) ==>
        r == Err(NotOrganizer) && tournaments == old(tournaments) && stored == old(stored)
      ensures IsOrganizer(caller) ==>
        && r.Ok? && r.value !in old(tournaments)
        && (exists i: nat :: (1 <= i && r.value == Naming.IdFor(Naming.Base(name), i)
              && forall j: nat :: 1 <= j < i ==> Naming.IdFor(Naming.Base(name), j) in old(tournaments)))
        && tournaments == old(tournaments)[r.value := Tournament(r.value, name, caller.id, map[], [], false, podSize, maxRounds, timeLimit)]
        && stored == Persistence.Saved(tournaments)
      ensures old(Valid()) ==> Valid()
    {
      if !IsOrganizer(caller) {
        return Err(NotOrganizer);
      }
      var tid := Naming.GenerateTournamentId(name, tournaments.Keys);
      tournaments := tournaments[tid := Tournament(tid, name, caller.id, map[], [], false, podSize, maxRounds, timeLimit)];
      Save();
      r := Ok(tid);
    }

    /** `register`: the caller joins by id under their display name. */
    method Register(tid: string, pid: PlayerId, name: string) returns (outcome: Outcome)
      modifies this
      ensures tid !in old(tournaments) ==> outcome == Fail(TournamentNotFound) && tournaments == old(tournaments)
      ensures tid in old(tournaments) ==>
        Applied(old(tournaments), tournaments, tid, Rules.Register(old(tournaments)[tid], pid, name), outcome)
      ensures outcome.Done? ==> stored == Persistence.Saved(tournaments)
      ensures outcome.Fail? ==> stored == old(stored)
      ensures old(Valid()) ==> Valid()
    {
      if tid !in tournaments {
        return Fail(TournamentNotFound);
      }
      var t := tournaments[tid];
      if t.finished {
        return Fail(AlreadyFinished);
      }
      if pid in t.players {
        return Fail(AlreadyRegistered);
      }
      Rules.RegisterEffect(t, pid, name);
      tournaments := tournaments[tid := t.(players := t.players[pid := Player(pid, name, 0, 0)])];
      Save();
      outcome := Done;
    }

    /**
     * `start_round`: organizers only; `order` is the shuffled roster. A pod
     * size below 1 is refused here, where the handler as written would never
     * return (see `Pairing.NonPositivePodSizeNeverEmpties`).
     */
    method StartRound(caller: Caller, tid: string, order: seq<PlayerId>, now: int) returns (outcome: Outcome)
      requires tid in tournaments ==> Rules.IsOrdering(order, tournaments[tid].players.Keys)
      modifies this
      ensures !IsOrganizer(caller) ==> outcome == Fail(NotOrganizer) && tournaments == old(tournaments)
      ensures IsOrganizer(caller) && tid !in old(tournaments) ==>
        outcome == Fail(TournamentNotFound) && tournaments == old(tournaments)
      ensures IsOrganizer(caller) && tid in old(tournaments) ==>
        Applied(old(tournaments), tournaments, tid, Rules.StartRound(old(tournaments)[tid], order, now), outcome)
      ensures outcome.Done? ==> stored == Persistence.Saved(tournaments)
      ensures outcome.Fail? ==> stored == old(stored)
      ensures old(Valid()) ==> Valid()
    {
      if !IsOrganizer(caller) {
        return Fail(NotOrganizer);
      }
      if tid !in tournaments {
        return Fail(TournamentNotFound);
      }
      var t := tournaments[tid];
      if t.finished {
        return Fail(AlreadyFinished);
      }
      if |t.players| < 2 {
        return Fail(NotEnoughPlayers);
      }
      for k := 0 to |t.rounds|
        invariant forall i :: 0 <= i < k ==> !t.rounds[i].active
      {
        if t.rounds[k].active {
          return Fail(RoundStillActive);
        }
      }
      if t.podSize < 1 {
        return Fail(PodSizeNotPositive);
      }
      var pods := Pairing.MakePods(order, t.podSize);
      var rnd := Round(|t.rounds| + 1, pods, true, Some(now), false);
      Rules.StartRoundKeepsInvariant(t, order, now);
      tournaments := tournaments[tid := t.(rounds := t.rounds + [rnd])];
      Save();
      outcome := Done;
    }

    /** `report_game`: anyone may report the placements of a pod of the latest round. */
    method ReportGame(tid: string, podNumber: int, first: PlayerId, second: PlayerId,
                      third: Option<PlayerId>, fourth: Option<PlayerId>) returns (outcome: Outcome)
      modifies this
      ensures tid !in old(tournaments) ==> outcome == Fail(TournamentNotFound) && tournaments == old(tournaments)
      ensures tid in old(tournaments) ==>
        Applied(old(tournaments), tournaments, tid,
                Rules.ReportGame(old(tournaments)[tid], podNumber, Rules.Placements(first, second, third, fourth)), outcome)
      ensures outcome.Done? ==> stored == Persistence.Saved(tournaments)
      ensures outcome.Fail? ==> stored == old(stored)
      ensures old(Valid()) ==> Valid()
    {
      if tid !in tournaments {
        return Fail(TournamentNotFound);
      }
      var t := tournaments[tid];
      if t.rounds == [] {
        return Fail(NoRoundsStarted);
      }
      var last := |t.rounds| - 1;
      var r := t.rounds[last];
      if !r.active {
        return Fail(RoundEnded);
      }
      var found := Rules.FirstMatch(r.games, (g: Game) => g.podNumber == podNumber);
      if found.None? {
        return Fail(PodNotFound);
      }
      var k := found.value;
      var game := r.games[k];
      if game.resultsReported {
        return Fail(PodAlreadyReported);
      }
      var placements := Rules.Placements(first, second, third, fourth);
      var results := Rules.ResultsOf(placements);
      game := game.(results := results, resultsReported := true);
      var players := CreditAll(t.players, results);
      var games := r.games[k := game];
      r := r.(games := games);
      if Rules.AllReported(games) {
        r := r.(active := false);
      }
      Rules.ReportGameKeepsInvariant(t, podNumber, placements);
      tournaments := tournaments[tid := t.(players := players, rounds := t.rounds[last := r])];
      Save();
      outcome := Done;
    }

    /**
     * `disqualify`: organizers only, and then only the host or an admin;
     * removes the player from the roster and from every pod. Round flags are
     * left as they are, as in the handler (see `Rules.DisqualifyStallsRound`).
     */
    method Disqualify(caller: Caller, tid: string, pid: PlayerId) returns (outcome: Outcome)
      modifies this
      ensures !IsOrganizer(caller) ==> outcome == Fail(NotOrganizer) && tournaments == old(tournaments)
      ensures IsOrganizer(caller) && tid !in old(tournaments) ==>
        outcome == Fail(TournamentNotFound) && tournaments == old(tournaments)
      ensures IsOrganizer(caller) && tid in old(tournaments) ==>
        Applied(old(tournaments), tournaments, tid, Rules.Disqualify(old(tournaments)[tid], caller, pid), outcome)
      ensures outcome.Done? ==> stored == Persistence.Saved(tournaments)
      ensures outcome.Fail? ==> stored == old(stored)
      ensures old(Valid()) ==> Valid()
    {
      if !IsOrganizer(caller) {
        return Fail(NotOrganizer);
      }
      if tid !in tournaments {
        return Fail(TournamentNotFound);
      }
      var t := tournaments[tid];
      if caller.id != t.host && !caller.isAdmin {
        return Fail(NotHostOrAdmin);
      }
      if pid !in t.players {
        return Fail(NotRegistered);
      }
      var rounds := DropEverywhere(t.rounds, pid);
      Rules.DisqualifyKeepsInvariant(t, caller, pid);
      tournaments := tournaments[tid := t.(players := t.players - {pid}, rounds := rounds)];
      Save();
      outcome := Done;
    }

    /** `end_tournament`: organizers only, and then only the host or an admin. */
    method EndTournament(caller: Caller, tid: string) returns (outcome: Outcome)
      modifies this
      ensures !IsOrganizer(caller) ==> outcome == Fail(NotOrganizer) && tournaments == old(tournaments)
      ensures IsOrganizer(caller) && tid !in old(tournaments) ==>
        outcome == Fail(TournamentNotFound) && tournaments == old(tournaments)
      ensures IsOrganizer(caller) && tid in old(tournaments) ==>
        Applied(old(tournaments), tournaments, tid, Rules.EndTournament(old(tournaments)[tid], caller), outcome)
      ensures outcome.Done? ==> stored == Persistence.Saved(tournaments)
      ensures outcome.Fail? ==> stored == old(stored)
      ensures old(Valid()) ==> Valid()
    {
      if !IsOrganizer(caller) {
        return Fail(NotOrganizer);
      }
      if tid !in tournaments {
        return Fail(TournamentNotFound);
      }
      var t := tournaments[tid];
      if caller.id != t.host && !caller.isAdmin {
        return Fail(NotHostOrAdmin);
      }
      tournaments := tournaments[tid := t.(finished := true)];
      Save();
      outcome := Done;
    }

    /** `my_pods`: the caller's pod in the latest round and their opponents. Changes nothing. */
    method MyPods(tid: string, user: PlayerId) returns (r: Result<Rules.PodView>)
      ensures tid !in tournaments ==> r == Err(TournamentNotFound)
      ensures tid in tournaments ==> r == Rules.MyPods(tournaments[tid], user)
    {
      if tid !in tournaments {
        return Err(TournamentNotFound);
      }
      r := Rules.MyPods(tournaments[tid], user);
    }

    /** `my_standings`: the caller's points and matches. Changes nothing. */
    method MyStandings(tid: string, user: PlayerId) returns (r: Result<Player>)
      ensures tid !in tournaments ==> r == Err(TournamentNotFound)
      ensures tid in tournaments ==> r == Rules.MyStanding(tournaments[tid], user)
    {
      if tid !in tournaments {
        return Err(TournamentNotFound);
      }
      r := Rules.MyStanding(tournaments[tid], user);
    }

    /**
     * `standings`: organizers only; `roster` is the players' values in the
     * dict's order. Yields them ranked, as a permutation of the roster.
     */
    method Standings(caller: Caller, tid: string, roster: seq<Player>) returns (r: Result<seq<Player>>)
      requires tid in tournaments ==> Ranking.IsRoster(roster, tournaments[tid].players)
      ensures !IsOrganizer(caller) ==> r == Err(NotOrganizer)
      ensures IsOrganizer(caller) && tid !in tournaments ==> r == Err(TournamentNotFound)
      ensures IsOrganizer(caller) && tid in tournaments ==>
        && r.Ok? && Ranking.Ranked(r.value) && multiset(r.value) == multiset(roster)
        && forall p :: p in r.value <==> p in tournaments[tid].players.Values
    {
      if !IsOrganizer(caller) {
        return Err(NotOrganizer);
      }
      if tid !in tournaments {
        return Err(TournamentNotFound);
      }
      var ordered := Ranking.Standings(roster);
      Ranking.StandingsRankedPermutation(roster);
      assert forall p :: p in ordered <==> p in multiset(roster);
      r := Ok(ordered);
    }

    /**
     * One pass of the watchdog: every tournament is swept at `now`, the
     * warnings of all sweeps are returned, and the file is rewritten if any
     * round was flagged.
     */
    method CheckRoundTimeouts(now: int) returns (alerts: seq<Timeouts.Alert>)
      modifies this
      ensures tournaments.Keys == old(tournaments).Keys
      ensures forall tid :: tid in tournaments ==> tournaments[tid] == Timeouts.Sweep(old(tournaments)[tid], now)
      ensures forall a :: a in alerts <==>
        a.tournamentId in old(tournaments) && a in Timeouts.Alerts(a.tournamentId, old(tournaments)[a.tournamentId], now)
      ensures tournaments != old(tournaments) ==> stored == Persistence.Saved(tournaments)
      ensures tournaments == old(tournaments) ==> stored == old(stored)
      ensures old(Valid()) ==> Valid()
    {
      alerts := [];
      var todo := tournaments.Keys;
      while todo != {}
        invariant todo <= old(tournaments).Keys
        invariant SweptExcept(old(tournaments), tournaments, todo, now)
        invariant forall a :: a in alerts <==>
          a.tournamentId in old(tournaments) && a.tournamentId !in todo
          && a in Timeouts.Alerts(a.tournamentId, old(tournaments)[a.tournamentId], now)
        invariant tournaments != old(tournaments) ==> stored == Persistence.Saved(tournaments)
        invariant tournaments == old(tournaments) ==> stored == old(stored)
        invariant old(Valid()) ==> Valid()
        decreases todo
      {
        var tid :| tid in todo;
        var t := tournaments[tid];
        var swept, found := Timeouts.SweepTournament(tid, t, now);
        SweepOneMore(old(tournaments), tournaments, todo, tid, now);
        AlertsGathered(old(tournaments), todo, tid, now, alerts, found);
        if swept != t {
          if old(Valid()) {
            SweptStaysFiled(tournaments, tid, now);
          }
          tournaments := tournaments[tid := swept];
          Save();
        }
        alerts := alerts + found;
        todo := todo - {tid};
      }
    }
  }
}
