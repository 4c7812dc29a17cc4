/**
 * The command handlers of the tournament engine as state transitions on one
 * tournament: each either rejects with the handler's message (changing
 * nothing) or yields the tournament as the handler leaves it.
 */
module Rules {
  import opened Model
  import Pairing
  import Scoring

  // ---------------------------------------------------------------------
  // Invariants

  /** Every player is filed under their own id. */
  predicate KeyedById(players: map<PlayerId, Player>) {
    forall pid :: pid in players ==> players[pid].id == pid
  }

  /** Pods are numbered 1, 2, ... in order. */
  predicate PodsNumbered(games: seq<Game>) {
    forall k :: 0 <= k < |games| ==> games[k].podNumber == k + 1
  }

  /** Rounds are numbered 1, 2, ... in order, and so are the pods of each. */
  predicate RoundsNumbered(rounds: seq<Round>) {
    forall k :: 0 <= k < |rounds| ==> rounds[k].number == k + 1 && PodsNumbered(rounds[k].games)
  }

  /** No round but the latest is active. */
  predicate OnlyLastActive(rounds: seq<Round>) {
    forall k :: 0 <= k < |rounds| - 1 ==> !rounds[k].active
  }

  predicate AtMostOneActive(rounds: seq<Round>) {
    forall k, l :: 0 <= k < l < |rounds| ==> !(rounds[k].active && rounds[l].active)
  }

  /** The invariant that every handler keeps. */
  predicate Consistent(t: Tournament) {
    KeyedById(t.players) && RoundsNumbered(t.rounds) && OnlyLastActive(t.rounds)
  }

  lemma ConsistentMeansAtMostOneActive(t: Tournament)
    requires Consistent(t)
    ensures AtMostOneActive(t.rounds)
  {
  }

  predicate AllReported(games: seq<Game>) {
    forall k :: 0 <= k < |games| ==> games[k].resultsReported
  }

  /** A round is open exactly while one of its pods still has to report. */
  predicate Settled(r: Round) {
    r.active <==> !AllReported(r.games)
  }

  predicate RoundsSettled(rounds: seq<Round>) {
    forall k :: 0 <= k < |rounds| ==> Settled(rounds[k])
  }

  predicate HasActiveRound(rounds: seq<Round>) {
    exists k :: 0 <= k < |rounds| && rounds[k].active
  }

  /** `next((g for g in games if wanted(g)), None)`, as an index. */
  function FirstMatch(games: seq<Game>, wanted: Game -> bool): (r: Option<nat>)
    ensures r.Some? ==>
      r.value < |games| && wanted(games[r.value]) && forall k :: 0 <= k < r.value ==> !wanted(games[k])
    ensures r.None? ==> forall k :: 0 <= k < |games| ==> !wanted(games[k])
  {
    if games == [] then None
    else if wanted(games[0]) then Some(0)
    else match FirstMatch(games[1..], wanted)
      case None => None
      case Some(k) => Some(k + 1)
  }

  // ---------------------------------------------------------------------
  // register

  function Register(t: Tournament, pid: PlayerId, name: string): Result<Tournament> {
    if t.finished then Err(AlreadyFinished)
    else if pid in t.players then Err(AlreadyRegistered)
    else Ok(t.(players := t.players[pid := Player(pid, name, 0, 0)]))
  }

  /**
   * Registration fails on a finished tournament or a registered id; otherwise
   * it adds exactly one player with no points and no matches, leaves every
   * other player and all rounds as they were, and keeps the invariant.
   */
  lemma RegisterEffect(t: Tournament, pid: PlayerId, name: string)
    ensures var r := Register(t, pid, name);
      && (t.finished ==> r == Err(AlreadyFinished))
      && (!t.finished && pid in t.players ==> r == Err(AlreadyRegistered))
      && (r.Ok? <==> !t.finished && pid !in t.players)
      && (r.Ok? ==>
            && r.value.players.Keys == t.players.Keys + {pid}
            && r.value.players[pid] == Player(pid, name, 0, 0)
            && (forall q :: q in t.players ==> r.value.players[q] == t.players[q])
            && r.value == t.(players := r.value.players))
      && (r.Ok? && Consistent(t) ==> Consistent(r.value))
      && (r.Ok? && RoundsSettled(t.rounds) ==> RoundsSettled(r.value.rounds))
  {
  }

  // ---------------------------------------------------------------------
  // start_round

  /** `order` lists each of `ids` exactly once: a shuffle of the registered ids. */
  predicate IsOrdering(order: seq<PlayerId>, ids: set<PlayerId>) {
    && (forall i, j :: 0 <= i < j < |order| ==> order[i] != order[j])
    && (forall x :: x in order ==> x in ids)
    && (forall x :: x in ids ==> x in order)
  }

  /** The round `start_round` appends; `now` is the clock reading in seconds. */
  function NewRound(t: Tournament, order: seq<PlayerId>, now: int): Round
    requires t.podSize >= 1
  {
    Round(|t.rounds| + 1, Pairing.Pods(order, t.podSize, 1), true, Some(now), false)
  }

  function StartRound(t: Tournament, order: seq<PlayerId>, now: int): Result<Tournament> {
    if t.finished then Err(AlreadyFinished)
    else if |t.players| < 2 then Err(NotEnoughPlayers)
    else if HasActiveRound(t.rounds) then Err(RoundStillActive)
    else if t.podSize < 1 then Err(PodSizeNotPositive)
    else Ok(t.(rounds := t.rounds + [NewRound(t, order, now)]))
  }

  /**
   * Starting a round fails on a finished tournament, fewer than 2 players, an
   * active round or a pod size below 1; otherwise it appends exactly one active
   * round numbered after the last, started at `now`, not yet notified, with
   * the pods cut from `order`, and touches nothing else.
   */
  lemma StartRoundEffect(t: Tournament, order: seq<PlayerId>, now: int)
    ensures var r := StartRound(t, order, now);
      && (t.finished ==> r == Err(AlreadyFinished))
      && (!t.finished && |t.players| < 2 ==> r == Err(NotEnoughPlayers))
      && (!t.finished && |t.players| >= 2 && HasActiveRound(t.rounds) ==> r == Err(RoundStillActive))
      && (r.Ok? <==> !t.finished && |t.players| >= 2 && !HasActiveRound(t.rounds) && t.podSize >= 1)
      && (r.Ok? ==>
            && |r.value.rounds| == |t.rounds| + 1
            && r.value.rounds[..|t.rounds|] == t.rounds
            && var nr := r.value.rounds[|t.rounds|];
               nr.number == |t.rounds| + 1 && nr.active && nr.startTime == Some(now) && !nr.notifiedTimeout
               && nr.games == Pairing.Pods(order, t.podSize, 1)
               && r.value == t.(rounds := r.value.rounds))
  {
    var r := StartRound(t, order, now);
    if r.Ok? {
      assert r.value.rounds[..|t.rounds|] == t.rounds;
    }
  }

  /** With `order` a shuffle of the roster, the new round seats every registered player exactly once. */
  lemma StartRoundSeatsEveryone(t: Tournament, order: seq<PlayerId>, now: int)
    requires IsOrdering(order, t.players.Keys)
    requires StartRound(t, order, now).Ok?
    ensures var games := Last(StartRound(t, order, now).value.rounds).games;
      Pairing.Members(games) == order
      && forall pid :: pid in Pairing.Members(games) <==> pid in t.players
  {
    Pairing.PodsCoverOrder(order, t.podSize, 1);
  }

  function Last(rounds: seq<Round>): Round
    requires rounds != []
  {
    rounds[|rounds| - 1]
  }

  /** Starting a round keeps the invariant and leaves the new round open with every pod pending. */
  lemma StartRoundKeepsInvariant(t: Tournament, order: seq<PlayerId>, now: int)
    requires IsOrdering(order, t.players.Keys)
    ensures var r := StartRound(t, order, now);
      && (r.Ok? && Consistent(t) ==> Consistent(r.value))
      && (r.Ok? && RoundsSettled(t.rounds) ==> RoundsSettled(r.value.rounds))
      && (r.Ok? ==> var nr := Last(r.value.rounds);
            && nr.active && nr.games != []
            && forall j :: 0 <= j < |nr.games| ==> !nr.games[j].resultsReported)
  {
    var r := StartRound(t, order, now);
    if r.Ok? {
      Pairing.PodsShape(order, t.podSize, 1);
      var nr := NewRound(t, order, now);
      assert order != [] by {
        if order == [] {
          assert forall x :: x !in t.players.Keys;
        }
      }
      assert nr.games != [] && !nr.games[0].resultsReported;
      assert r.value.rounds == t.rounds + [nr];
      assert !HasActiveRound(t.rounds);
    }
  }

  // ---------------------------------------------------------------------
  // report_game

  /** `[first.id, second.id] + ([third.id] if third else []) + ([fourth.id] if fourth else [])`. */
  function Placements(first: PlayerId, second: PlayerId, third: Option<PlayerId>, fourth: Option<PlayerId>): seq<PlayerId> {
    [first, second] + (if third.Some? then [third.value] else []) + (if fourth.Some? then [fourth.value] else [])
  }

  /** `zip`, which stops at the shorter sequence. */
  function Zip(ids: seq<PlayerId>, pts: seq<int>): seq<(PlayerId, int)> {
    if ids == [] || pts == [] then [] else [(ids[0], pts[0])] + Zip(ids[1..], pts[1..])
  }

  /** A dict comprehension over pairs: a later pair for the same id overwrites an earlier one. */
  function DictOf(pairs: seq<(PlayerId, int)>): map<PlayerId, int> {
    if pairs == [] then map[]
    else DictOf(pairs[..|pairs| - 1])[pairs[|pairs| - 1].0 := pairs[|pairs| - 1].1]
  }

  /** The `results` a report records. */
  function ResultsOf(placements: seq<PlayerId>): map<PlayerId, int> {
    DictOf(Zip(placements, Scoring.PointAllocation(|placements|)))
  }

  function Credit(p: Player, pts: int): Player {
    p.(points := p.points + pts, matchesPlayed := p.matchesPlayed + 1)
  }

  /** The players after the loop over `results.items()`; ids that are not registered are skipped. */
  function Award(players: map<PlayerId, Player>, results: map<PlayerId, int>): map<PlayerId, Player> {
    map pid | pid in players :: if pid in results then Credit(players[pid], results[pid]) else players[pid]
  }

  function ReportGame(t: Tournament, podNumber: int, placements: seq<PlayerId>): Result<Tournament> {
    if t.rounds == [] then Err(NoRoundsStarted)
    else
      var last := |t.rounds| - 1;
      var r := t.rounds[last];
      if !r.active then Err(RoundEnded)
      else match FirstMatch(r.games, (g: Game) => g.podNumber == podNumber)
        case None => Err(PodNotFound)
        case Some(k) =>
          if r.games[k].resultsReported then Err(PodAlreadyReported)
          else
            var results := ResultsOf(placements);
            var games := r.games[k := r.games[k].(results := results, resultsReported := true)];
            var closed := r.(games := games, active := if AllReported(games) then false else r.active);
            Ok(t.(players := Award(t.players, results), rounds := t.rounds[last := closed]))
  }

  /**
   * A dict built from pairs holds exactly the ids that occur and, for each,
   * the value of its last pair.
   */
  lemma {:induction false} DictOfLastWins(pairs: seq<(PlayerId, int)>)
    ensures forall id :: id in DictOf(pairs) <==> exists i :: 0 <= i < |pairs| && pairs[i].0 == id
    ensures forall i :: (0 <= i < |pairs| && (forall j :: i < j < |pairs| ==> pairs[j].0 != pairs[i].0)
      ==> DictOf(pairs)[pairs[i].0] == pairs[i].1)
  {
    if pairs != [] {
      var init := pairs[..|pairs| - 1];
      DictOfLastWins(init);
      forall id | id in DictOf(pairs) ensures exists i :: 0 <= i < |pairs| && pairs[i].0 == id {
        if id != pairs[|pairs| - 1].0 {
          assert id in DictOf(init);
          var i :| 0 <= i < |init| && init[i].0 == id;
          assert pairs[i] == init[i];
        }
      }
      forall id | exists i :: 0 <= i < |pairs| && pairs[i].0 == id ensures id in DictOf(pairs) {
        var i :| 0 <= i < |pairs| && pairs[i].0 == id;
        if i < |init| { assert init[i] == pairs[i]; }
      }
      forall i | 0 <= i < |pairs| && (forall j :: i < j < |pairs| ==> pairs[j].0 != pairs[i].0)
        ensures DictOf(pairs)[pairs[i].0] == pairs[i].1
      {
        if i < |init| {
          assert init[i] == pairs[i];
          assert forall j :: i < j < |init| ==> init[j] == pairs[j];
        }
      }
    }
  }

  lemma {:induction false} ZipAt(ids: seq<PlayerId>, pts: seq<int>)
    requires |ids| <= |pts|
    ensures |Zip(ids, pts)| == |ids|
    ensures forall i :: 0 <= i < |ids| ==> Zip(ids, pts)[i] == (ids[i], pts[i])
  {
    if ids != [] {
      ZipAt(ids[1..], pts[1..]);
    }
  }

  /**
   * A report of 2 to 4 placements records every placed id; the last
   * occurrence of an id decides its points, so a report without repeats gives
   * the i-th placed player the i-th entry of the points table.
   */
  lemma ResultsOfPlacements(placements: seq<PlayerId>)
    requires 2 <= |placements| <= 4
    ensures forall id :: id in ResultsOf(placements) <==> id in placements
    ensures forall i :: (0 <= i < |placements| && (forall j :: i < j < |placements| ==> placements[j] != placements[i])
      ==> (placements[i] in ResultsOf(placements)
           && ResultsOf(placements)[placements[i]] == Scoring.PointAllocation(|placements|)[i]))
  {
    var pts := Scoring.PointAllocation(|placements|);
    ZipAt(placements, pts);
    var pairs := Zip(placements, pts);
    DictOfLastWins(pairs);
    forall id | id in placements ensures id in ResultsOf(placements) {
      var i :| 0 <= i < |placements| && placements[i] == id;
      assert pairs[i].0 == id;
    }
    forall i | 0 <= i < |placements| && (forall j :: i < j < |placements| ==> placements[j] != placements[i])
      ensures ResultsOf(placements)[placements[i]] == pts[i]
    {
      assert forall j :: i < j < |pairs| ==> pairs[j].0 != pairs[i].0;
    }
  }

  /** A player placed twice keeps only the later award: first and second both `a`, third `b` gives a 3 and b 2. */
  lemma DuplicatePlacementKeepsLast(a: PlayerId, b: PlayerId)
    requires a != b
    ensures ResultsOf(Placements(a, a, Some(b), None)) == map[a := 3, b := 2]
  {
    var ps := Placements(a, a, Some(b), None);
    assert ps == [a, a, b];
    assert Scoring.PointAllocation(|ps|) == [4, 3, 2];
    var pairs := Zip(ps, [4, 3, 2]);
    ZipAt(ps, [4, 3, 2]);
    assert pairs == [(a, 4), (a, 3), (b, 2)];
    var p2 := pairs[..2];
    var p1 := p2[..1];
    assert p1 == [(a, 4)] && p1[..0] == [];
    assert DictOf(p1) == map[a := 4];
    assert DictOf(p2) == map[a := 3];
    assert DictOf(pairs) == map[a := 3, b := 2];
  }

  /**
   * Crediting adds a result's points and one match to each registered player
   * that has a result, keeps everyone else, and ignores result ids that are
   * not registered.
   */
  lemma AwardCredits(players: map<PlayerId, Player>, results: map<PlayerId, int>)
    ensures Award(players, results).Keys == players.Keys
    ensures forall pid :: pid in players && pid in results ==>
      Award(players, results)[pid].points == players[pid].points + results[pid]
      && Award(players, results)[pid].matchesPlayed == players[pid].matchesPlayed + 1
      && Award(players, results)[pid].id == players[pid].id && Award(players, results)[pid].name == players[pid].name
    ensures forall pid :: pid in players && pid !in results ==> Award(players, results)[pid] == players[pid]
  {
  }

  /**
   * A report fails without a round, on an ended round, for an unknown pod
   * number, or for a pod that already reported; otherwise it records the
   * results on the first pod with that number, marks it reported, credits
   * the players, closes the round exactly when no pod is left to report, and
   * leaves every other pod and round as it was.
   */
  lemma ReportGameEffect(t: Tournament, podNumber: int, placements: seq<PlayerId>)
    ensures var r := ReportGame(t, podNumber, placements);
      && (t.rounds == [] ==> r == Err(NoRoundsStarted))
      && (t.rounds != [] && !Last(t.rounds).active ==> r == Err(RoundEnded))
      && (t.rounds != [] && Last(t.rounds).active
          && (forall k :: 0 <= k < |Last(t.rounds).games| ==> Last(t.rounds).games[k].podNumber != podNumber)
          ==> r == Err(PodNotFound))
      && (t.rounds != [] && Last(t.rounds).active
          && (exists k :: 0 <= k < |Last(t.rounds).games| && Last(t.rounds).games[k].podNumber == podNumber)
          ==> var k := FirstMatch(Last(t.rounds).games, (g: Game) => g.podNumber == podNumber).value;
              && (r.Ok? <==> !Last(t.rounds).games[k].resultsReported)
              && (Last(t.rounds).games[k].resultsReported ==> r == Err(PodAlreadyReported)))
      && (r.Ok? ==>
            && t.rounds != [] && Last(t.rounds).active
            && var k := FirstMatch(Last(t.rounds).games, (g: Game) => g.podNumber == podNumber).value;
               var old_ := Last(t.rounds);
               var new_ := Last(r.value.rounds);
               && !old_.games[k].resultsReported
               && |r.value.rounds| == |t.rounds|
               && r.value.rounds[..|t.rounds| - 1] == t.rounds[..|t.rounds| - 1]
               && |new_.games| == |old_.games|
               && new_.games[k] == old_.games[k].(results := ResultsOf(placements), resultsReported := true)
               && (forall j :: 0 <= j < |old_.games| && j != k ==> new_.games[j] == old_.games[j])
               && (new_.active <==> !AllReported(new_.games))
               && new_ == old_.(games := new_.games, active := new_.active)
               && r.value.players == Award(t.players, ResultsOf(placements))
               && r.value == t.(players := r.value.players, rounds := r.value.rounds))
  {
    var r := ReportGame(t, podNumber, placements);
    if r.Ok? {
      assert r.value.rounds[..|t.rounds| - 1] == t.rounds[..|t.rounds| - 1];
    }
    if t.rounds != [] && Last(t.rounds).active {
      var m := FirstMatch(Last(t.rounds).games, (g: Game) => g.podNumber == podNumber);
      if m.Some? {
        assert Last(t.rounds).games[m.value].podNumber == podNumber;
      }
    }
  }

  /**
   * Reporting a pod a second time always fails, so results and totals cannot
   * change twice: with "already reported", or with "round ended" when the
   * first report closed the round.
   */
  lemma ReportAgainFails(t: Tournament, podNumber: int, placements: seq<PlayerId>, again: seq<PlayerId>)
    requires ReportGame(t, podNumber, placements).Ok?
    ensures var t' := ReportGame(t, podNumber, placements).value;
      ReportGame(t', podNumber, again)
        == if AllReported(Last(t'.rounds).games) then Err(RoundEnded) else Err(PodAlreadyReported)
  {
    ReportGameEffect(t, podNumber, placements);
    var t' := ReportGame(t, podNumber, placements).value;
    var wanted := (g: Game) => g.podNumber == podNumber;
    var k := FirstMatch(Last(t.rounds).games, wanted).value;
    var games := Last(t'.rounds).games;
    assert forall j :: 0 <= j < k ==> games[j] == Last(t.rounds).games[j];
    var k' := FirstMatch(games, wanted);
    assert k'.Some? && k'.value == k;
  }

  /** A successful report never rewrites the results of a pod that had already reported. */
  lemma ReportKeepsEarlierResults(t: Tournament, podNumber: int, placements: seq<PlayerId>, i: nat, j: nat)
    requires ReportGame(t, podNumber, placements).Ok?
    requires i < |t.rounds| && j < |t.rounds[i].games| && t.rounds[i].games[j].resultsReported
    ensures var t' := ReportGame(t, podNumber, placements).value;
      i < |t'.rounds| && j < |t'.rounds[i].games| && t'.rounds[i].games[j] == t.rounds[i].games[j]
  {
    ReportGameEffect(t, podNumber, placements);
    var t' := ReportGame(t, podNumber, placements).value;
    if i < |t.rounds| - 1 {
      assert t'.rounds[..|t.rounds| - 1][i] == t.rounds[..|t.rounds| - 1][i];
    }
  }

  /** A report keeps the invariant, and keeps every round open exactly while it has pending pods. */
  lemma ReportGameKeepsInvariant(t: Tournament, podNumber: int, placements: seq<PlayerId>)
    ensures var r := ReportGame(t, podNumber, placements);
      && (r.Ok? && Consistent(t) ==> Consistent(r.value))
      && (r.Ok? && RoundsSettled(t.rounds) ==> RoundsSettled(r.value.rounds))
  {
    ReportGameEffect(t, podNumber, placements);
    var r := ReportGame(t, podNumber, placements);
    if r.Ok? {
      var n := |t.rounds| - 1;
      assert forall i :: 0 <= i < n ==> r.value.rounds[i] == t.rounds[..n][i];
      AwardCredits(t.players, ResultsOf(placements));
    }
  }

  // ---------------------------------------------------------------------
  // disqualify

  /** `list.remove(x)` when `x` is present: the first occurrence goes. */
  function RemoveFirst(s: seq<PlayerId>, x: PlayerId): seq<PlayerId> {
    if s == [] then []
    else if s[0] == x then s[1..]
    else [s[0]] + RemoveFirst(s[1..], x)
  }

  /** The disqualified player leaves the pod; a pod left with fewer than 2 players that never reported counts as reported. */
  function DropFromGame(g: Game, pid: PlayerId): Game {
    if pid in g.players then
      var members := RemoveFirst(g.players, pid);
      g.(players := members,
         resultsReported := if |members| < 2 && !g.resultsReported then true else g.resultsReported)
    else g
  }

  function DropFromGames(games: seq<Game>, pid: PlayerId): seq<Game> {
    seq(|games|, k requires 0 <= k < |games| => DropFromGame(games[k], pid))
  }

  function DropFromRound(r: Round, pid: PlayerId): Round {
    r.(games := DropFromGames(r.games, pid))
  }

  function DropFromRounds(rounds: seq<Round>, pid: PlayerId): seq<Round> {
    seq(|rounds|, k requires 0 <= k < |rounds| => DropFromRound(rounds[k], pid))
  }

  function Disqualify(t: Tournament, caller: Caller, pid: PlayerId): Result<Tournament> {
    if !IsHostOrAdmin(t, caller) then Err(NotHostOrAdmin)
    else if pid !in t.players then Err(NotRegistered)
    else Ok(t.(players := t.players - {pid}, rounds := DropFromRounds(t.rounds, pid)))
  }

  /** The index of the first occurrence of `x`. */
  function FirstIndex(s: seq<PlayerId>, x: PlayerId): (i: nat)
    requires x in s
    ensures i < |s| && s[i] == x && x !in s[..i]
  {
    if s[0] == x then 0
    else
      var i := FirstIndex(s[1..], x) + 1;
      assert s[..i] == [s[0]] + s[1..][..i - 1];
      i
  }

  /** Removing a present id cuts the sequence at its first occurrence and keeps the order of the rest. */
  lemma {:induction false} RemoveFirstCuts(s: seq<PlayerId>, x: PlayerId)
    requires x in s
    ensures RemoveFirst(s, x) == s[..FirstIndex(s, x)] + s[FirstIndex(s, x) + 1..]
  {
    if s[0] != x {
      RemoveFirstCuts(s[1..], x);
      var i := FirstIndex(s[1..], x);
      assert s[..i + 1] == [s[0]] + s[1..][..i];
      assert s[i + 2..] == s[1..][i + 1..];
    }
  }

  /** Removing an absent id changes nothing. */
  lemma {:induction false} RemoveAbsent(s: seq<PlayerId>, x: PlayerId)
    requires x !in s
    ensures RemoveFirst(s, x) == s
  {
    if s != [] {
      RemoveAbsent(s[1..], x);
    }
  }

  lemma MultisetCut(s: seq<PlayerId>, i: nat)
    requires i < |s|
    ensures multiset(s[..i] + s[i + 1..]) == multiset(s) - multiset{s[i]}
  {
    assert s == s[..i] + [s[i]] + s[i + 1..];
  }

  /** The count of `x` drops by one when present, so a player seated once is no longer seated. */
  lemma RemoveFirstMultiset(s: seq<PlayerId>, x: PlayerId)
    ensures multiset(RemoveFirst(s, x)) == multiset(s) - multiset{x}
  {
    if x in s {
      RemoveFirstCuts(s, x);
      var i := FirstIndex(s, x);
      MultisetCut(s, i);
    } else {
      RemoveAbsent(s, x);
      assert multiset(s)[x] == 0;
    }
  }

  /**
   * `g'` is pod `g` after `pid` left it: the first copy of `pid` is cut out
   * and the others keep their order, number and results stay, and the pod
   * counts as reported exactly if it was, or it seated `pid` and now has
   * fewer than 2 players. A pod without `pid` is unchanged.
   */
  predicate DroppedFrom(g: Game, g': Game, pid: PlayerId) {
    && g'.podNumber == g.podNumber && g'.results == g.results
    && multiset(g'.players) == multiset(g.players) - multiset{pid}
    && (pid in g.players ==>
          g'.players == g.players[..FirstIndex(g.players, pid)] + g.players[FirstIndex(g.players, pid) + 1..])
    && (pid !in g.players ==> g' == g)
    && (g'.resultsReported <==> g.resultsReported || (pid in g.players && |g'.players| < 2))
  }

  lemma DropFromGameEffect(g: Game, pid: PlayerId)
    ensures DroppedFrom(g, DropFromGame(g, pid), pid)
  {
    RemoveFirstMultiset(g.players, pid);
    if pid in g.players {
      RemoveFirstCuts(g.players, pid);
    } else {
      assert multiset(g.players)[pid] == 0;
    }
  }

  /**
   * Disqualifying requires the host or an admin and a registered player;
   * otherwise it deletes exactly that player, takes them out of every pod of
   * every round, marks as reported any pending pod left with fewer than 2
   * players, and leaves round flags, results and other players' totals alone.
   */
  lemma DisqualifyEffect(t: Tournament, caller: Caller, pid: PlayerId)
    ensures var r := Disqualify(t, caller, pid);
      && (!IsHostOrAdmin(t, caller) ==> r == Err(NotHostOrAdmin))
      && (IsHostOrAdmin(t, caller) && pid !in t.players ==> r == Err(NotRegistered))
      && (r.Ok? <==> IsHostOrAdmin(t, caller) && pid in t.players)
      && (r.Ok? ==>
            && r.value.players == t.players - {pid}
            && |r.value.rounds| == |t.rounds|
            && (forall k :: 0 <= k < |t.rounds| ==>
                  var before, after := t.rounds[k], r.value.rounds[k];
                  && after == before.(games := after.games)
                  && |after.games| == |before.games|
                  && forall j :: 0 <= j < |before.games| ==> DroppedFrom(before.games[j], after.games[j], pid))
            && r.value == t.(players := r.value.players, rounds := r.value.rounds))
  {
    var r := Disqualify(t, caller, pid);
    if r.Ok? {
      forall k, j | 0 <= k < |t.rounds| && 0 <= j < |t.rounds[k].games|
        ensures DroppedFrom(t.rounds[k].games[j], r.value.rounds[k].games[j], pid)
      {
        DropFromGameEffect(t.rounds[k].games[j], pid);
      }
    }
  }

  /** Disqualifying keeps the invariant (numbering, player keys, only the latest round active). */
  lemma DisqualifyKeepsInvariant(t: Tournament, caller: Caller, pid: PlayerId)
    ensures var r := Disqualify(t, caller, pid);
      r.Ok? && Consistent(t) ==> Consistent(r.value)
  {
  }

  /**
   * As written, once the latest round is active with every pod reported, no
   * report and no new round can ever succeed, and neither a registration nor
   * a disqualification reopens or closes it.
   */
  lemma StalledRoundBlocks(t: Tournament, order: seq<PlayerId>, now: int, podNumber: int, placements: seq<PlayerId>)
    requires t.rounds != [] && Last(t.rounds).active && AllReported(Last(t.rounds).games)
    ensures StartRound(t, order, now).Err?
    ensures ReportGame(t, podNumber, placements).Err?
  {
    assert Last(t.rounds).active;
    if !t.finished && |t.players| >= 2 {
      assert HasActiveRound(t.rounds);
    }
  }

  lemma DisqualifyKeepsStall(t: Tournament, caller: Caller, pid: PlayerId)
    requires t.rounds != [] && Last(t.rounds).active && AllReported(Last(t.rounds).games)
    requires Disqualify(t, caller, pid).Ok?
    ensures var t' := Disqualify(t, caller, pid).value;
      t'.rounds != [] && Last(t'.rounds).active && AllReported(Last(t'.rounds).games)
  {
  }

  /** A tournament of four players: pod 1 (players 1, 2) has reported, pod 2 (players 3, 4) has not. */
  function StallExample(): Tournament {
    var p := map[1 := Player(1, "a", 3, 1), 2 := Player(2, "b", 2, 1), 3 := Player(3, "c", 0, 0), 4 := Player(4, "d", 0, 0)];
    var pod1 := Game(1, [1, 2], true, map[1 := 3, 2 := 2]);
    var pod2 := Game(2, [3, 4], false, map[]);
    Tournament("cup_1", "Cup", 1, p, [Round(1, [pod1, pod2], true, Some(1000), false)], false, 2, 4, 90)
  }

  /** Before the disqualification the example is consistent and each round is open exactly while a pod is pending. */
  lemma StallExampleSettled()
    ensures Consistent(StallExample()) && RoundsSettled(StallExample().rounds)
  {
    var t := StallExample();
    assert !AllReported(t.rounds[0].games) by { assert !t.rounds[0].games[1].resultsReported; }
  }

  /** Disqualifying player 4 closes pod 2 automatically, so every pod of the active round 1 has reported. */
  lemma StallExampleDisqualified(host: Caller)
    requires host.id == 1
    ensures Disqualify(StallExample(), host, 4).Ok?
    ensures var t' := Disqualify(StallExample(), host, 4).value;
      t'.rounds != [] && Last(t'.rounds).active && AllReported(Last(t'.rounds).games)
  {
    var t' := Disqualify(StallExample(), host, 4).value;
    var g2 := t'.rounds[0].games[1];
    assert RemoveFirst([3, 4], 4) == [3] by {
      assert [3, 4][1..] == [4];
    }
    assert g2.players == [3] && g2.resultsReported;
    assert t'.rounds[0].games[0].resultsReported;
  }

  /**
   * Disqualifying player 4 auto-closes pod 2 but leaves round 1 active: the
   * tournament breaks "open exactly while a pod is pending", and from then on
   * every report and every new round is refused.
   */
  lemma DisqualifyStallsRound(host: Caller, order: seq<PlayerId>, now: int, podNumber: int, placements: seq<PlayerId>)
    requires host.id == 1
    ensures Consistent(StallExample()) && RoundsSettled(StallExample().rounds)
    ensures Disqualify(StallExample(), host, 4).Ok?
    ensures var t' := Disqualify(StallExample(), host, 4).value;
      && !RoundsSettled(t'.rounds)
      && StartRound(t', order, now).Err?
      && ReportGame(t', podNumber, placements).Err?
  {
    StallExampleSettled();
    StallExampleDisqualified(host);
    var t' := Disqualify(StallExample(), host, 4).value;
    assert !Settled(t'.rounds[|t'.rounds| - 1]);
    StalledRoundBlocks(t', order, now, podNumber, placements);
  }

  /** The evidently intended disqualification: afterwards each round is re-checked and closes once no pod is pending. */
  function DisqualifyReclosing(t: Tournament, caller: Caller, pid: PlayerId): Result<Tournament> {
    match Disqualify(t, caller, pid)
    case Err(e) => Err(e)
    case Ok(t') =>
      Ok(t'.(rounds := seq(|t'.rounds|, k requires 0 <= k < |t'.rounds| =>
        t'.rounds[k].(active := t'.rounds[k].active && !AllReported(t'.rounds[k].games)))))
  }

  /**
   * The corrected disqualification keeps every round open exactly while a
   * pod is pending, besides the invariant, and otherwise agrees with the
   * handler as written.
   */
  lemma DisqualifyReclosingKeepsSettled(t: Tournament, caller: Caller, pid: PlayerId)
    ensures var r := DisqualifyReclosing(t, caller, pid);
      && (r.Err? <==> Disqualify(t, caller, pid).Err?)
      && (r.Ok? && RoundsSettled(t.rounds) ==> RoundsSettled(r.value.rounds))
      && (r.Ok? && Consistent(t) ==> Consistent(r.value))
      && (r.Ok? ==> r.value.players == Disqualify(t, caller, pid).value.players)
  {
    var r := DisqualifyReclosing(t, caller, pid);
    if r.Ok? && RoundsSettled(t.rounds) {
      var t' := Disqualify(t, caller, pid).value;
      DisqualifyEffect(t, caller, pid);
      forall k | 0 <= k < |t.rounds| ensures Settled(r.value.rounds[k]) {
        if !t.rounds[k].active {
          assert AllReported(t.rounds[k].games);
          assert AllReported(t'.rounds[k].games) by {
            forall j | 0 <= j < |t'.rounds[k].games| ensures t'.rounds[k].games[j].resultsReported {
              assert t.rounds[k].games[j].resultsReported;
            }
          }
        }
      }
    }
  }

  // ---------------------------------------------------------------------
  // end_tournament, my_pods, my_standings

  function EndTournament(t: Tournament, caller: Caller): Result<Tournament> {
    if !IsHostOrAdmin(t, caller) then Err(NotHostOrAdmin) else Ok(t.(finished := true))
  }

  /**
   * Ending needs the host or an admin and only sets `finished`; afterwards
   * registrations and new rounds are refused, while reports on the open round
   * are still taken exactly as before.
   */
  lemma EndTournamentEffect(t: Tournament, caller: Caller, pid: PlayerId, name: string, order: seq<PlayerId>,
                            now: int, podNumber: int, placements: seq<PlayerId>)
    ensures EndTournament(t, caller) == if IsHostOrAdmin(t, caller) then Ok(t.(finished := true)) else Err(NotHostOrAdmin)
    ensures var ended := t.(finished := true);
      && Register(ended, pid, name) == Err(AlreadyFinished)
      && StartRound(ended, order, now) == Err(AlreadyFinished)
      && ReportGame(ended, podNumber, placements)
           == (match ReportGame(t, podNumber, placements)
               case Ok(t') => Ok(t'.(finished := true))
               case Err(e) => Err(e))
      && (Consistent(t) ==> Consistent(ended))
  {
  }

  /** Everyone in `s` but `x`, in order. */
  function Without(s: seq<PlayerId>, x: PlayerId): (r: seq<PlayerId>)
    ensures forall y :: y in r <==> y in s && y != x
    ensures multiset(r)[x] == 0 && forall y :: y != x ==> multiset(r)[y] == multiset(s)[y]
  {
    if s == [] then []
    else if s[0] == x then (assert s == [s[0]] + s[1..]; Without(s[1..], x))
    else (assert s == [s[0]] + s[1..]; [s[0]] + Without(s[1..], x))
  }

  datatype PodView = PodView(podNumber: int, opponents: seq<PlayerId>)

  /**
   * `my_pods`: fails without a round or on an ended round; otherwise shows
   * the first pod of the latest round that seats the user, with the pod's
   * other players in order, and fails only when no pod seats the user.
   */
  function MyPods(t: Tournament, user: PlayerId): (r: Result<PodView>)
    ensures t.rounds == [] ==> r == Err(NoRoundsStarted)
    ensures t.rounds != [] && !Last(t.rounds).active ==> r == Err(RoundEnded)
    ensures t.rounds != [] && Last(t.rounds).active ==>
      var games := Last(t.rounds).games;
      && (r == Err(NotInAnyPod) <==> forall k :: 0 <= k < |games| ==> user !in games[k].players)
      && (r.Ok? <==> exists k :: 0 <= k < |games| && user in games[k].players)
      && (r.Ok? ==> exists k :: (0 <= k < |games| && user in games[k].players
            && (forall j :: 0 <= j < k ==> user !in games[j].players)
            && r.value == PodView(games[k].podNumber, Without(games[k].players, user))))
  {
    if t.rounds == [] then Err(NoRoundsStarted)
    else
      var r := Last(t.rounds);
      if !r.active then Err(RoundEnded)
      else match FirstMatch(r.games, (g: Game) => user in g.players)
        case None => Err(NotInAnyPod)
        case Some(k) => Ok(PodView(r.games[k].podNumber, Without(r.games[k].players, user)))
  }

  lemma {:induction false} MembersSeated(pods: seq<Game>, pid: PlayerId)
    requires pid in Pairing.Members(pods)
    ensures exists k :: 0 <= k < |pods| && pid in pods[k].players
  {
    if pid !in pods[0].players {
      MembersSeated(pods[1..], pid);
      var k :| 0 <= k < |pods[1..]| && pid in pods[1..][k].players;
      assert pods[k + 1] == pods[1..][k];
    }
  }

  /** Right after a round starts, every registered player finds their pod with `my_pods`. */
  lemma MyPodsAfterStart(t: Tournament, order: seq<PlayerId>, now: int, pid: PlayerId)
    requires IsOrdering(order, t.players.Keys) && pid in t.players
    requires StartRound(t, order, now).Ok?
    ensures MyPods(StartRound(t, order, now).value, pid).Ok?
  {
    StartRoundSeatsEveryone(t, order, now);
    MembersSeated(Last(StartRound(t, order, now).value.rounds).games, pid);
  }

  /** `my_standings`: the user's own record, if registered. */
  function MyStanding(t: Tournament, user: PlayerId): Result<Player> {
    if user in t.players then Ok(t.players[user]) else Err(NotRegistered)
  }

  /** A fresh registrant stands at 0 points and 0 matches; a disqualified player is no longer registered. */
  lemma MyStandingAfterRegisterAndDisqualify(t: Tournament, pid: PlayerId, name: string, caller: Caller)
    ensures Register(t, pid, name).Ok? ==> MyStanding(Register(t, pid, name).value, pid) == Ok(Player(pid, name, 0, 0))
    ensures Disqualify(t, caller, pid).Ok? ==> MyStanding(Disqualify(t, caller, pid).value, pid) == Err(NotRegistered)
  {
  }
}
