/**
 * `make_pods`: the shuffled roster is cut into consecutive pods of
 * `pod_size` players, numbered from 1; the last pod takes the remainder.
 */
module Pairing {
  import opened Model

  function Min(a: int, b: int): int {
    if a <= b then a else b
  }

  /** A pod as `make_pods` creates it: not reported, no results. */
  function NewGame(podNumber: int, members: seq<PlayerId>): Game {
    Game(podNumber, members, false, map[])
  }

  /** The pods cut from `order`, numbered from `first`. */
  function Pods(order: seq<PlayerId>, podSize: int, first: int): seq<Game>
    requires podSize >= 1
    decreases |order|
  {
    if order == [] then []
    else
      var n := Min(podSize, |order|);
      [NewGame(first, order[..n])] + Pods(order[n..], podSize, first + 1)
  }

  /** The members of the pods, pod after pod. */
  function Members(pods: seq<Game>): seq<PlayerId> {
    if pods == [] then [] else pods[0].players + Members(pods[1..])
  }

  lemma {:induction false} MembersAppend(a: seq<Game>, b: seq<Game>)
    ensures Members(a + b) == Members(a) + Members(b)
  {
    if a == [] {
      assert a + b == b;
    } else {
      assert (a + b)[1..] == a[1..] + b;
      MembersAppend(a[1..], b);
    }
  }

  /** The loop of `make_pods`, with the shuffled roster given as `order`. */
  method MakePods(order: seq<PlayerId>, podSize: int) returns (pods: seq<Game>)
    requires podSize >= 1
    ensures pods == Pods(order, podSize, 1)
  {
    var players := order;
    var podNumber := 1;
    pods := [];
    while players != []
      invariant podNumber == |pods| + 1
      invariant pods + Pods(players, podSize, podNumber) == Pods(order, podSize, 1)
      decreases |players|
    {
      var n := Min(podSize, |players|);
      var podPlayers := players[..n];
      assert Pods(players, podSize, podNumber) == [NewGame(podNumber, podPlayers)] + Pods(players[n..], podSize, podNumber + 1);
      players := players[n..];
      pods := pods + [NewGame(podNumber, podPlayers)];
      podNumber := podNumber + 1;
    }
  }

  /** Concatenating the pods' members gives back the order: every player is seated exactly once. */
  lemma {:induction false} PodsCoverOrder(order: seq<PlayerId>, podSize: int, first: int)
    requires podSize >= 1
    ensures Members(Pods(order, podSize, first)) == order
    decreases |order|
  {
    if order != [] {
      var n := Min(podSize, |order|);
      var pods := Pods(order, podSize, first);
      assert pods[1..] == Pods(order[n..], podSize, first + 1);
      PodsCoverOrder(order[n..], podSize, first + 1);
      assert order == order[..n] + order[n..];
    }
  }

  /** There are ceil(|order| / podSize) pods: all but the last are full and the last is not empty. */
  lemma {:induction false} PodsCount(order: seq<PlayerId>, podSize: int, first: int)
    requires podSize >= 1
    ensures var count := |Pods(order, podSize, first)|;
      (count - 1) * podSize < |order| <= count * podSize
    decreases |order|
  {
    if order != [] {
      var n := Min(podSize, |order|);
      PodsCount(order[n..], podSize, first + 1);
      var rest := |Pods(order[n..], podSize, first + 1)|;
      assert (rest + 1) * podSize == rest * podSize + podSize;
      if |order| <= podSize {
        assert order[n..] == [];
      }
    }
  }

  /**
   * The pods are numbered first, first + 1, ... in order, none is reported,
   * every pod but the last is full and the last holds 1 to `podSize` players.
   */
  lemma {:induction false} PodsShape(order: seq<PlayerId>, podSize: int, first: int)
    requires podSize >= 1
    ensures var pods := Pods(order, podSize, first);
      && (forall k :: 0 <= k < |pods| ==> pods[k].podNumber == first + k && !pods[k].resultsReported && pods[k].results == map[])
      && (forall k :: 0 <= k < |pods| - 1 ==> |pods[k].players| == podSize)
      && (pods != [] ==> 1 <= |pods[|pods| - 1].players| <= podSize)
      && (order != [] <==> pods != [])
    decreases |order|
  {
    if order != [] {
      var n := Min(podSize, |order|);
      PodsShape(order[n..], podSize, first + 1);
      var pods := Pods(order, podSize, first);
      var rest := Pods(order[n..], podSize, first + 1);
      assert pods == [NewGame(first, order[..n])] + rest;
      assert rest == [] ==> |order| <= podSize;
      forall k | 0 <= k < |pods|
        ensures pods[k].podNumber == first + k
      {
        if k > 0 { assert pods[k] == rest[k - 1]; }
      }
    }
  }

  /** 9 players in pods of 4 give pods of 4, 4 and 1, numbered 1 to 3. */
  lemma NinePlayersInPodsOfFour(order: seq<PlayerId>)
    requires |order| == 9
    ensures var pods := Pods(order, 4, 1);
      |pods| == 3 && |pods[0].players| == 4 && |pods[1].players| == 4 && |pods[2].players| == 1
      && pods[0].podNumber == 1 && pods[1].podNumber == 2 && pods[2].podNumber == 3
  {
    var rest1, rest2 := order[4..], order[4..][4..];
    assert Pods(order, 4, 1) == [NewGame(1, order[..4])] + Pods(rest1, 4, 2);
    assert Pods(rest1, 4, 2) == [NewGame(2, rest1[..4])] + Pods(rest2, 4, 3);
    assert |rest2| == 1 && rest2[..1] == rest2;
    assert Pods(rest2, 4, 3) == [NewGame(3, rest2)] + Pods(rest2[1..], 4, 4);
    assert rest2[1..] == [];
  }

  // ---------------------------------------------------------------------
  // The loop as written, for any `pod_size`: Python's slices `players[:k]`
  // and `players[k:]` also accept zero and negative `k`.

  /** `s[:k]` in Python. */
  function SliceTo(s: seq<PlayerId>, k: int): seq<PlayerId> {
    if k >= 0 then s[..Min(k, |s|)]
    else if |s| + k <= 0 then [] else s[..|s| + k]
  }

  /** `s[k:]` in Python. */
  function SliceFrom(s: seq<PlayerId>, k: int): seq<PlayerId> {
    if k >= 0 then s[Min(k, |s|)..]
    else if |s| + k <= 0 then s else s[|s| + k..]
  }

  /** What remains of `players` after `steps` passes of `players = players[pod_size:]`. */
  function Remaining(players: seq<PlayerId>, podSize: int, steps: nat): seq<PlayerId> {
    if steps == 0 then players else Remaining(SliceFrom(players, podSize), podSize, steps - 1)
  }

  /** For a positive size one pass of the loop as written cuts exactly the first pod of `Pods`. */
  lemma SlicesMatchPods(players: seq<PlayerId>, podSize: int, first: int)
    requires podSize >= 1 && players != []
    ensures Pods(players, podSize, first)
         == [NewGame(first, SliceTo(players, podSize))] + Pods(SliceFrom(players, podSize), podSize, first + 1)
  {
  }

  /**
   * For `pod_size <= 0` the list never empties, so `while players:` never
   * ends on a non-empty roster.
   */
  lemma {:induction false} NonPositivePodSizeNeverEmpties(players: seq<PlayerId>, podSize: int, steps: nat)
    requires podSize <= 0 && players != []
    ensures Remaining(players, podSize, steps) != []
    decreases steps
  {
    if steps > 0 {
      NonPositivePodSizeNeverEmpties(SliceFrom(players, podSize), podSize, steps - 1);
    }
  }
}
