/**
 * The data file: what `save_all` writes for each tournament and what
 * `load_all` rebuilds from it. Only the record structure is modelled; the
 * JSON text, the temporary file and the atomic move are not.
 */
module Persistence {
  import opened Model
  import Rules
  import Timeouts

  datatype StoredPlayer = StoredPlayer(id: PlayerId, name: string, points: int, matchesPlayed: int)

  /** A stored round; `active` may be missing from older files. Start times and warned flags are never written. */
  datatype StoredRound = StoredRound(number: int, games: seq<Game>, active: Option<bool>)

  /** A stored tournament; the four settings may be missing from older files. */
  datatype StoredTournament = StoredTournament(
    id: string, name: string, host: PlayerId,
    players: map<PlayerId, StoredPlayer>, rounds: seq<StoredRound>,
    finished: Option<bool>, podSize: Option<int>, maxRounds: Option<int>, timeLimit: Option<int>)

  // ---------------------------------------------------------------------
  // save_all

  function SavePlayer(p: Player): StoredPlayer {
    StoredPlayer(p.id, p.name, p.points, p.matchesPlayed)
  }

  function SaveRound(r: Round): StoredRound {
    StoredRound(r.number, r.games, Some(r.active))
  }

  function SaveTournament(t: Tournament): StoredTournament {
    StoredTournament(t.id, t.name, t.host,
      map pid | pid in t.players :: SavePlayer(t.players[pid]),
      seq(|t.rounds|, k requires 0 <= k < |t.rounds| => SaveRound(t.rounds[k])),
      Some(t.finished), Some(t.podSize), Some(t.maxRounds), Some(t.timeLimit))
  }

  /** The file's content for the whole registry. */
  function Saved(data: map<string, Tournament>): map<string, StoredTournament> {
    map tid | tid in data :: SaveTournament(data[tid])
  }

  /** The loop of `save_all` over the registry. */
  method WriteAll(data: map<string, Tournament>) returns (raw: map<string, StoredTournament>)
    ensures raw == Saved(data)
  {
    raw := map[];
    var todo := data.Keys;
    while todo != {}
      invariant todo <= data.Keys
      invariant raw.Keys == data.Keys - todo
      invariant forall tid :: tid in raw ==> raw[tid] == SaveTournament(data[tid])
      decreases todo
    {
      var tid :| tid in todo;
      raw := raw[tid := SaveTournament(data[tid])];
      todo := todo - {tid};
    }
  }

  // ---------------------------------------------------------------------
  // load_all

  /** `d.get(key, default)`. */
  function GetOr<T>(o: Option<T>, default: T): T {
    if o.Some? then o.value else default
  }

  function LoadPlayer(p: StoredPlayer): Player {
    Player(p.id, p.name, p.points, p.matchesPlayed)
  }

  /** A loaded round is open unless the file says otherwise, has no start time and was never warned. */
  function LoadRound(r: StoredRound): Round {
    Round(r.number, r.games, GetOr(r.active, true), None, false)
  }

  function LoadedPlayers(raw: map<PlayerId, StoredPlayer>): map<PlayerId, Player> {
    map pid | pid in raw :: LoadPlayer(raw[pid])
  }

  function LoadedRounds(raw: seq<StoredRound>): seq<Round> {
    seq(|raw|, k requires 0 <= k < |raw| => LoadRound(raw[k]))
  }

  function LoadTournament(t: StoredTournament): Tournament {
    Tournament(t.id, t.name, t.host, LoadedPlayers(t.players), LoadedRounds(t.rounds),
      GetOr(t.finished, false), GetOr(t.podSize, DefaultPodSize),
      GetOr(t.maxRounds, DefaultMaxRounds), GetOr(t.timeLimit, DefaultTimeLimit))
  }

  /** The registry rebuilt from the file's content. */
  function Loaded(raw: map<string, StoredTournament>): map<string, Tournament> {
    map tid | tid in raw :: LoadTournament(raw[tid])
  }

  method ReadPlayers(raw: map<PlayerId, StoredPlayer>) returns (players: map<PlayerId, Player>)
    ensures players == LoadedPlayers(raw)
  {
    players := map[];
    var todo := raw.Keys;
    while todo != {}
      invariant todo <= raw.Keys
      invariant players.Keys == raw.Keys - todo
      invariant forall q :: q in players ==> players[q] == LoadPlayer(raw[q])
      decreases todo
    {
      Inhabited(todo);
      var pid :| pid in todo;
      players := players[pid := LoadPlayer(raw[pid])];
      todo := todo - {pid};
    }
    assert players.Keys == LoadedPlayers(raw).Keys;
    assert forall q :: q in players ==> players[q] == LoadedPlayers(raw)[q];
  }

  method ReadRounds(raw: seq<StoredRound>) returns (rounds: seq<Round>)
    ensures rounds == LoadedRounds(raw)
  {
    rounds := [];
    for k := 0 to |raw|
      invariant |rounds| == k
      invariant forall i :: 0 <= i < k ==> rounds[i] == LoadRound(raw[i])
    {
      rounds := rounds + [LoadRound(raw[k])];
    }
  }

  /** The loop of `load_all` over the file's tournaments. */
  method ReadAll(raw: map<string, StoredTournament>) returns (data: map<string, Tournament>)
    ensures data == Loaded(raw)
  {
    data := map[];
    var todo := raw.Keys;
    while todo != {}
      invariant todo <= raw.Keys
      invariant data.Keys == raw.Keys - todo
      invariant forall tid :: tid in data ==> data[tid] == LoadTournament(raw[tid])
      decreases todo
    {
      var tid :| tid in todo;
      var t := raw[tid];
      var players := ReadPlayers(t.players);
      var rounds := ReadRounds(t.rounds);
      data := data[tid := Tournament(t.id, t.name, t.host, players, rounds,
        GetOr(t.finished, false), GetOr(t.podSize, DefaultPodSize),
        GetOr(t.maxRounds, DefaultMaxRounds), GetOr(t.timeLimit, DefaultTimeLimit))];
      todo := todo - {tid};
    }
  }

  // ---------------------------------------------------------------------
  // Properties

  /** What a save followed by a load loses: every round's start time and warned flag. */
  function Forget(t: Tournament): Tournament {
    t.(rounds := seq(|t.rounds|, k requires 0 <= k < |t.rounds| =>
      t.rounds[k].(startTime := None, notifiedTimeout := false)))
  }

  lemma LoadSaveTournament(t: Tournament)
    ensures LoadTournament(SaveTournament(t)) == Forget(t)
  {
    var s := SaveTournament(t);
    assert forall pid :: pid in t.players ==> LoadPlayer(SavePlayer(t.players[pid])) == t.players[pid];
    assert LoadedPlayers(s.players) == t.players;
    assert LoadedRounds(s.rounds) == Forget(t).rounds;
  }

  /**
   * Loading a saved registry gives back every tournament with all players,
   * scores, pods, results and settings, losing only the round timers.
   */
  lemma LoadSaveRoundTrip(data: map<string, Tournament>)
    ensures Loaded(Saved(data)) == map tid | tid in data :: Forget(data[tid])
  {
    forall tid | tid in data ensures Loaded(Saved(data))[tid] == Forget(data[tid]) {
      LoadSaveTournament(data[tid]);
    }
  }

  /** Saving ignores the timers, so saving a reloaded registry writes the same content again. */
  lemma SaveLoadSaveStable(data: map<string, Tournament>)
    ensures Saved(Loaded(Saved(data))) == Saved(data)
  {
    LoadSaveRoundTrip(data);
    forall tid | tid in data ensures SaveTournament(Forget(data[tid])) == SaveTournament(data[tid]) {
      var t := data[tid];
      assert SaveTournament(Forget(t)).rounds == SaveTournament(t).rounds;
    }
  }

  /** Settings missing from a stored tournament load as the defaults; a round without `active` loads as open. */
  lemma LoadDefaults(st: StoredTournament)
    requires st.finished.None? && st.podSize.None? && st.maxRounds.None? && st.timeLimit.None?
    ensures var t := LoadTournament(st);
      !t.finished && t.podSize == 4 && t.maxRounds == 4 && t.timeLimit == 90
      && forall k :: 0 <= k < |st.rounds| && st.rounds[k].active.None? ==> t.rounds[k].active
  {
  }

  /** Since start times are not stored, no reloaded round is ever overdue: the watchdog stays silent about rounds that were open at a restart. */
  lemma ReloadedRoundsNeverOverdue(raw: map<string, StoredTournament>, tid: string, now: int)
    requires tid in raw
    ensures var t := Loaded(raw)[tid];
      forall k :: 0 <= k < |t.rounds| ==> !Timeouts.Overdue(t.rounds[k], t.timeLimit, now)
  {
  }

  /** Forgetting timers keeps the tournament invariant. */
  lemma ForgetKeepsInvariant(t: Tournament)
    ensures Rules.Consistent(t) ==> Rules.Consistent(Forget(t))
    ensures Rules.RoundsSettled(t.rounds) ==> Rules.RoundsSettled(Forget(t).rounds)
  {
    assert forall k :: 0 <= k < |t.rounds| ==> Forget(t).rounds[k].games == t.rounds[k].games;
  }

  /** A registry reloaded from its own save is still keyed by tournament id and consistent. */
  lemma ReloadKeepsInvariant(data: map<string, Tournament>)
    requires forall tid :: tid in data ==> data[tid].id == tid && Rules.Consistent(data[tid])
    ensures forall tid :: tid in Loaded(Saved(data)) ==>
      Loaded(Saved(data))[tid].id == tid && Rules.Consistent(Loaded(Saved(data))[tid])
  {
    LoadSaveRoundTrip(data);
    forall tid | tid in data ensures Rules.Consistent(Forget(data[tid])) {
      ForgetKeepsInvariant(data[tid]);
    }
  }
}
