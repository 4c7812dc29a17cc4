/**
 * The round-timeout watchdog: one sweep over a tournament's rounds flags each
 * overdue round once and produces one warning per pod still to report.
 * The clock reading `now` (seconds) is an input; the wait between sweeps and
 * the Discord messages themselves are outside the model.
 */
module Timeouts {
  import opened Model
  import Rules

  /**
   * The watchdog's test: the round is open, its start time is set and
   * non-zero (Python truthiness), it has not been warned yet, and more than
   * `timeLimit` minutes have passed. `(now - s) / 60 > timeLimit` on reals is
   * `now - s > 60 * timeLimit`.
   */
  predicate Overdue(r: Round, timeLimit: int, now: int) {
    && r.active && r.startTime.Some? && r.startTime.value != 0 && !r.notifiedTimeout
    && now - r.startTime.value > 60 * timeLimit
  }

  function Flag(r: Round, timeLimit: int, now: int): Round {
    if Overdue(r, timeLimit, now) then r.(notifiedTimeout := true) else r
  }

  function SweepRounds(rounds: seq<Round>, timeLimit: int, now: int): seq<Round> {
    seq(|rounds|, k requires 0 <= k < |rounds| => Flag(rounds[k], timeLimit, now))
  }

  /** The tournament after one sweep. */
  function Sweep(t: Tournament, now: int): Tournament {
    t.(rounds := SweepRounds(t.rounds, t.timeLimit, now))
  }

  /** One warning: sent to the host and to a channel, naming the pod and pinging its players. */
  datatype Alert = Alert(tournamentId: string, host: PlayerId, round: int, podNumber: int, players: seq<PlayerId>)

  function AlertFor(tid: string, host: PlayerId, round: int, g: Game): Alert {
    Alert(tid, host, round, g.podNumber, g.players)
  }

  /** `[g for g in games if not g.results_reported]`. */
  function Pending(games: seq<Game>): seq<Game> {
    if games == [] then []
    else (if games[0].resultsReported then [] else [games[0]]) + Pending(games[1..])
  }

  /** The overdue pods are exactly the pods that have not reported. */
  lemma {:induction false} PendingMembers(games: seq<Game>)
    ensures forall g :: g in Pending(games) <==> g in games && !g.resultsReported
  {
    if games != [] {
      PendingMembers(games[1..]);
      assert games == [games[0]] + games[1..];
    }
  }

  function PodAlerts(tid: string, host: PlayerId, round: int, pods: seq<Game>): seq<Alert> {
    seq(|pods|, j requires 0 <= j < |pods| => AlertFor(tid, host, round, pods[j]))
  }

  /** The warnings a sweep sends for one round. */
  function RoundAlerts(tid: string, host: PlayerId, timeLimit: int, r: Round, now: int): seq<Alert> {
    if Overdue(r, timeLimit, now) then PodAlerts(tid, host, r.number, Pending(r.games)) else []
  }

  /** The warnings for a sequence of rounds, in round order. */
  function RoundsAlerts(tid: string, host: PlayerId, timeLimit: int, rounds: seq<Round>, now: int): seq<Alert> {
    if rounds == [] then []
    else RoundAlerts(tid, host, timeLimit, rounds[0], now) + RoundsAlerts(tid, host, timeLimit, rounds[1..], now)
  }

  /** The warnings one sweep of tournament `tid` sends. */
  function Alerts(tid: string, t: Tournament, now: int): seq<Alert> {
    RoundsAlerts(tid, t.host, t.timeLimit, t.rounds, now)
  }

  /** The inner loop: one warning per overdue pod, in pod order. */
  method WarnPods(tid: string, host: PlayerId, round: int, overdue: seq<Game>) returns (sent: seq<Alert>)
    ensures sent == PodAlerts(tid, host, round, overdue)
  {
    sent := [];
    var j := 0;
    while j < |overdue|
      invariant 0 <= j <= |overdue|
      invariant |sent| == j
      invariant forall i :: 0 <= i < j ==> sent[i] == AlertFor(tid, host, round, overdue[i])
    {
      sent := sent + [AlertFor(tid, host, round, overdue[j])];
      j := j + 1;
    }
  }

  /** The body of the loop over one tournament's rounds: flag the round if overdue and warn about its pending pods. */
  method SweepRound(tid: string, t: Tournament, r: Round, now: int) returns (flagged: Round, sent: seq<Alert>)
    ensures flagged == Flag(r, t.timeLimit, now)
    ensures sent == RoundAlerts(tid, t.host, t.timeLimit, r, now)
  {
    flagged, sent := r, [];
    if r.active && r.startTime.Some? && r.startTime.value != 0 && !r.notifiedTimeout {
      if now - r.startTime.value > 60 * t.timeLimit {
        flagged := r.(notifiedTimeout := true);
        sent := WarnPods(tid, t.host, r.number, Pending(r.games));
      }
    }
  }

  /** One sweep over a tournament, as the watchdog's loops do it. */
  method SweepTournament(tid: string, t: Tournament, now: int) returns (swept: Tournament, alerts: seq<Alert>)
    ensures swept == Sweep(t, now)
    ensures alerts == Alerts(tid, t, now)
  {
    var rounds: seq<Round> := [];
    alerts := [];
    for k := 0 to |t.rounds|
      invariant |rounds| == k
      invariant forall i :: 0 <= i < k ==> rounds[i] == Flag(t.rounds[i], t.timeLimit, now)
      invariant alerts + RoundsAlerts(tid, t.host, t.timeLimit, t.rounds[k..], now) == Alerts(tid, t, now)
    {
      var flagged, sent := SweepRound(tid, t, t.rounds[k], now);
      AlertsStep(tid, t.host, t.timeLimit, t.rounds, k, now, alerts, sent, Alerts(tid, t, now));
      rounds := rounds + [flagged];
      alerts := alerts + sent;
    }
    SweptRounds(rounds, t, now);
    swept := t.(rounds := rounds);
  }

  /** The loop keeps `alerts` followed by the warnings for the rounds still to visit equal to the whole sweep's warnings. */
  lemma AlertsStep(tid: string, host: PlayerId, timeLimit: int, rounds: seq<Round>, k: int, now: int,
                   alerts: seq<Alert>, sent: seq<Alert>, total: seq<Alert>)
    requires 0 <= k < |rounds|
    requires alerts + RoundsAlerts(tid, host, timeLimit, rounds[k..], now) == total
    requires sent == RoundAlerts(tid, host, timeLimit, rounds[k], now)
    ensures (alerts + sent) + RoundsAlerts(tid, host, timeLimit, rounds[k + 1..], now) == total
  {
    var tail := rounds[k..];
    assert tail[0] == rounds[k] && tail[1..] == rounds[k + 1..];
    var rest := RoundsAlerts(tid, host, timeLimit, rounds[k + 1..], now);
    assert RoundsAlerts(tid, host, timeLimit, tail, now) == sent + rest;
    assert alerts + (sent + rest) == (alerts + sent) + rest;
  }

  lemma SweptRounds(rounds: seq<Round>, t: Tournament, now: int)
    requires |rounds| == |t.rounds|
    requires forall i :: 0 <= i < |rounds| ==> rounds[i] == Flag(t.rounds[i], t.timeLimit, now)
    ensures rounds == SweepRounds(t.rounds, t.timeLimit, now)
  {
  }

  /**
   * A sweep raises the warned flag on exactly the overdue rounds, never
   * lowers it, and changes no other part of the tournament.
   */
  lemma SweepFlagsExactlyOverdue(t: Tournament, now: int)
    ensures var s := Sweep(t, now);
      && |s.rounds| == |t.rounds|
      && (forall k :: 0 <= k < |t.rounds| ==>
            s.rounds[k] == t.rounds[k].(notifiedTimeout := t.rounds[k].notifiedTimeout || Overdue(t.rounds[k], t.timeLimit, now)))
      && s == t.(rounds := s.rounds)
  {
  }

  /**
   * Every warning a sweep sends names an overdue round and one of its
   * pending pods, and every pending pod of an overdue round is warned about.
   */
  lemma {:induction false} RoundsAlertsCharacterised(tid: string, host: PlayerId, timeLimit: int, rounds: seq<Round>, now: int)
    ensures forall a :: a in RoundsAlerts(tid, host, timeLimit, rounds, now) <==>
      exists k, g :: 0 <= k < |rounds| && Overdue(rounds[k], timeLimit, now) && g in rounds[k].games
        && !g.resultsReported && a == AlertFor(tid, host, rounds[k].number, g)
  {
    if rounds != [] {
      RoundsAlertsCharacterised(tid, host, timeLimit, rounds[1..], now);
      var r := rounds[0];
      PendingMembers(r.games);
      var pods := Pending(r.games);
      forall a | a in RoundAlerts(tid, host, timeLimit, r, now)
        ensures exists g :: (g in r.games && !g.resultsReported && Overdue(r, timeLimit, now)
          && a == AlertFor(tid, host, r.number, g))
      {
        var j :| 0 <= j < |pods| && PodAlerts(tid, host, r.number, pods)[j] == a;
        assert pods[j] in pods;
      }
      forall g | g in r.games && !g.resultsReported && Overdue(r, timeLimit, now)
        ensures AlertFor(tid, host, r.number, g) in RoundAlerts(tid, host, timeLimit, r, now)
      {
        var j :| 0 <= j < |pods| && pods[j] == g;
        assert PodAlerts(tid, host, r.number, pods)[j] == AlertFor(tid, host, r.number, g);
      }
      forall a | a in RoundsAlerts(tid, host, timeLimit, rounds, now)
        ensures exists k, g :: (0 <= k < |rounds| && Overdue(rounds[k], timeLimit, now) && g in rounds[k].games
          && !g.resultsReported && a == AlertFor(tid, host, rounds[k].number, g))
      {
        if a !in RoundAlerts(tid, host, timeLimit, r, now) {
          assert a in RoundsAlerts(tid, host, timeLimit, rounds[1..], now);
          var k, g :| 0 <= k < |rounds[1..]| && Overdue(rounds[1..][k], timeLimit, now) && g in rounds[1..][k].games
            && !g.resultsReported && a == AlertFor(tid, host, rounds[1..][k].number, g);
          assert rounds[k + 1] == rounds[1..][k];
        }
      }
      forall k, g | 0 <= k < |rounds| && Overdue(rounds[k], timeLimit, now) && g in rounds[k].games && !g.resultsReported
        ensures AlertFor(tid, host, rounds[k].number, g) in RoundsAlerts(tid, host, timeLimit, rounds, now)
      {
        if k > 0 {
          assert rounds[1..][k - 1] == rounds[k];
        }
      }
    }
  }

  lemma AlertsCharacterised(tid: string, t: Tournament, now: int)
    ensures forall a :: a in Alerts(tid, t, now) <==>
      exists k, g :: 0 <= k < |t.rounds| && Overdue(t.rounds[k], t.timeLimit, now) && g in t.rounds[k].games
        && !g.resultsReported && a == AlertFor(tid, t.host, t.rounds[k].number, g)
    ensures forall a :: a in Alerts(tid, t, now) ==> a.tournamentId == tid && a.host == t.host
  {
    RoundsAlertsCharacterised(tid, t.host, t.timeLimit, t.rounds, now);
  }

  lemma {:induction false} Quiet(tid: string, host: PlayerId, timeLimit: int, rounds: seq<Round>, now: int)
    requires forall k :: 0 <= k < |rounds| ==> !Overdue(rounds[k], timeLimit, now)
    ensures RoundsAlerts(tid, host, timeLimit, rounds, now) == []
  {
    if rounds != [] {
      Quiet(tid, host, timeLimit, rounds[1..], now);
    }
  }

  /**
   * A round is warned about at most once: after a sweep, no round it flagged
   * is overdue at any later time, a second sweep changes nothing, and a
   * second sweep at the same moment sends no warning at all.
   */
  lemma SweepWarnsOnce(tid: string, t: Tournament, now: int, later: int)
    ensures forall k :: 0 <= k < |t.rounds| && Overdue(t.rounds[k], t.timeLimit, now) ==>
      !Overdue(Sweep(t, now).rounds[k], t.timeLimit, later)
    ensures Sweep(Sweep(t, now), now) == Sweep(t, now)
    ensures Alerts(tid, Sweep(t, now), now) == []
  {
    var s := Sweep(t, now);
    assert forall k :: 0 <= k < |s.rounds| ==> !Overdue(s.rounds[k], s.timeLimit, now);
    Quiet(tid, s.host, s.timeLimit, s.rounds, now);
    assert SweepRounds(s.rounds, s.timeLimit, now) == s.rounds;
  }

  /** A sweep keeps the tournament invariant and keeps rounds open exactly while pods are pending. */
  lemma SweepKeepsInvariant(t: Tournament, now: int)
    ensures Rules.Consistent(t) ==> Rules.Consistent(Sweep(t, now))
    ensures Rules.RoundsSettled(t.rounds) ==> Rules.RoundsSettled(Sweep(t, now).rounds)
  {
    assert forall k :: 0 <= k < |t.rounds| ==> Sweep(t, now).rounds[k].games == t.rounds[k].games;
  }

  /** With a 90-minute limit a round started 100 minutes ago is overdue, one started 80 minutes ago is not, and a round started at time 0 never is. */
  lemma OverdueExample(r: Round, s: int)
    requires r.active && !r.notifiedTimeout && s != 0
    ensures Overdue(r.(startTime := Some(s)), 90, s + 100 * 60)
    ensures !Overdue(r.(startTime := Some(s)), 90, s + 80 * 60)
    ensures forall now :: !Overdue(r.(startTime := Some(0)), 90, now)
  {
  }
}
