/**
 * `standings_list`: players sorted by points (highest first), then by
 * matches played (fewest first), then by name; Python's sort keeps players
 * with equal keys in roster order.
 */
module Ranking {
  import opened Model

  /** Python's `<=` on strings: lexicographic by code point, a prefix first. */
  predicate NameAtMost(a: string, b: string)
    decreases |a|
  {
    a == [] || (b != [] && (a[0] < b[0] || (a[0] == b[0] && NameAtMost(a[1..], b[1..]))))
  }

  /** `p`'s sort key (-points, matches_played, name) is at most `q`'s. */
  predicate RanksAtOrAbove(p: Player, q: Player) {
    || p.points > q.points
    || (p.points == q.points && p.matchesPlayed < q.matchesPlayed)
    || (p.points == q.points && p.matchesPlayed == q.matchesPlayed && NameAtMost(p.name, q.name))
  }

  predicate Ranked(s: seq<Player>) {
    forall i, j :: 0 <= i < j < |s| ==> RanksAtOrAbove(s[i], s[j])
  }

  /** `roster` lists the values of `players`, each once, as `t.players.values()` does. */
  predicate IsRoster(roster: seq<Player>, players: map<PlayerId, Player>) {
    && (forall i, j :: 0 <= i < j < |roster| ==> roster[i] != roster[j])
    && (forall p :: p in roster ==> p in players.Values)
    && (forall p :: p in players.Values ==> p in roster)
  }

  /** Places `p` before the first player it ranks at or above. */
  function Insert(p: Player, ranked: seq<Player>): seq<Player> {
    if ranked == [] then [p]
    else if RanksAtOrAbove(p, ranked[0]) then [p] + ranked
    else [ranked[0]] + Insert(p, ranked[1..])
  }

  /** The sorted roster; the earlier of two players with equal keys stays first. */
  function Standings(roster: seq<Player>): seq<Player> {
    if roster == [] then [] else Insert(roster[0], Standings(roster[1..]))
  }

  lemma {:induction false} NameAtMostTotal(a: string, b: string)
    ensures NameAtMost(a, b) || NameAtMost(b, a)
    decreases |a|
  {
    if a != [] && b != [] && a[0] == b[0] {
      NameAtMostTotal(a[1..], b[1..]);
    }
  }

  lemma {:induction false} NameAtMostTransitive(a: string, b: string, c: string)
    requires NameAtMost(a, b) && NameAtMost(b, c)
    ensures NameAtMost(a, c)
    decreases |a|
  {
    if a != [] && b != [] && c != [] && a[0] == b[0] == c[0] {
      NameAtMostTransitive(a[1..], b[1..], c[1..]);
    }
  }

  lemma RanksTotal(p: Player, q: Player)
    ensures RanksAtOrAbove(p, q) || RanksAtOrAbove(q, p)
  {
    NameAtMostTotal(p.name, q.name);
  }

  lemma RanksTransitive(p: Player, q: Player, r: Player)
    requires RanksAtOrAbove(p, q) && RanksAtOrAbove(q, r)
    ensures RanksAtOrAbove(p, r)
  {
    if p.points == q.points == r.points && p.matchesPlayed == q.matchesPlayed == r.matchesPlayed {
      NameAtMostTransitive(p.name, q.name, r.name);
    }
  }

  lemma {:induction false} InsertPermutes(p: Player, ranked: seq<Player>)
    ensures multiset(Insert(p, ranked)) == multiset(ranked) + multiset{p}
  {
    if ranked != [] && !RanksAtOrAbove(p, ranked[0]) {
      InsertPermutes(p, ranked[1..]);
      assert ranked == [ranked[0]] + ranked[1..];
    }
  }

  /** Putting a player in front of a ranked sequence it ranks above every member of keeps it ranked. */
  lemma ConsRanked(first: Player, tail: seq<Player>)
    requires Ranked(tail)
    requires forall j :: 0 <= j < |tail| ==> RanksAtOrAbove(first, tail[j])
    ensures Ranked([first] + tail)
  {
    var s := [first] + tail;
    forall i, j | 0 <= i < j < |s| ensures RanksAtOrAbove(s[i], s[j]) {
      if i == 0 {
        assert s[j] == tail[j - 1];
      } else {
        assert s[i] == tail[i - 1] && s[j] == tail[j - 1];
      }
    }
  }

  /** The head of a ranked sequence ranks at or above every member of any rearrangement of its tail plus a player it beats. */
  lemma HeadRanksAbove(first: Player, rest: seq<Player>, p: Player, tail: seq<Player>)
    requires Ranked([first] + rest)
    requires RanksAtOrAbove(first, p)
    requires multiset(tail) == multiset(rest) + multiset{p}
    ensures forall j :: 0 <= j < |tail| ==> RanksAtOrAbove(first, tail[j])
  {
    var ranked := [first] + rest;
    forall j | 0 <= j < |tail| ensures RanksAtOrAbove(first, tail[j]) {
      assert tail[j] in multiset(tail);
      if tail[j] != p {
        assert tail[j] in multiset(rest);
        var k :| 0 <= k < |rest| && rest[k] == tail[j];
        assert ranked[0] == first && ranked[k + 1] == rest[k];
      }
    }
  }

  lemma {:induction false} InsertKeepsRanked(p: Player, ranked: seq<Player>)
    requires Ranked(ranked)
    ensures Ranked(Insert(p, ranked))
  {
    if ranked == [] {
    } else if RanksAtOrAbove(p, ranked[0]) {
      forall j | 0 <= j < |ranked| ensures RanksAtOrAbove(p, ranked[j]) {
        if j > 0 { RanksTransitive(p, ranked[0], ranked[j]); }
      }
      ConsRanked(p, ranked);
    } else {
      var first, rest := ranked[0], ranked[1..];
      assert ranked == [first] + rest;
      InsertKeepsRanked(p, rest);
      InsertPermutes(p, rest);
      RanksTotal(p, first);
      HeadRanksAbove(first, rest, p, Insert(p, rest));
      ConsRanked(first, Insert(p, rest));
    }
  }

  /**
   * The standings are a permutation of the roster, ordered by points
   * descending, then matches played ascending, then name ascending.
   */
  lemma {:induction false} StandingsRankedPermutation(roster: seq<Player>)
    ensures multiset(Standings(roster)) == multiset(roster)
    ensures Ranked(Standings(roster))
  {
    if roster != [] {
      StandingsRankedPermutation(roster[1..]);
      InsertPermutes(roster[0], Standings(roster[1..]));
      InsertKeepsRanked(roster[0], Standings(roster[1..]));
      assert roster == [roster[0]] + roster[1..];
    }
  }

  /** A (10 points, 3 matches), B (10, 2) and C (8, 1) rank B, A, C. */
  lemma StandingsExample(a: Player, b: Player, c: Player)
    requires a.points == 10 && a.matchesPlayed == 3
    requires b.points == 10 && b.matchesPlayed == 2
    requires c.points == 8 && c.matchesPlayed == 1
    ensures Standings([a, b, c]) == [b, a, c]
  {
    assert Standings([c]) == [c];
    assert [a, b, c][1..] == [b, c] && [b, c][1..] == [c];
    assert Standings([b, c]) == [b, c];
    assert !RanksAtOrAbove(a, b) && RanksAtOrAbove(a, c);
    assert [b, c][1..] == [c];
    assert Insert(a, [c]) == [a, c];
  }
}
