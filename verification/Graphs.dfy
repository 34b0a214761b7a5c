/** Finite directed graphs, given as a map from each vertex to its successors.

    Two readings of acyclicity are used by the planner: no closed walk (what a
    reader means by "no cycle") and every nonempty vertex set has a sink (what
    the greedy scheduling loops rely on). They are proved equivalent here. */
module Graphs {
  ghost predicate IsWalk<T>(g: map<T, set<T>>, walk: seq<T>) {
    && |walk| > 0
    && (forall i :: 0 <= i < |walk| ==> walk[i] in g)
    && (forall i :: 0 <= i < |walk| - 1 ==> walk[i + 1] in g[walk[i]])
  }

  /** `to` is reached from `from` by at least one edge. */
  ghost predicate Reaches<T(!new)>(g: map<T, set<T>>, from: T, to: T) {
    exists walk :: IsWalk(g, walk) && |walk| >= 2 && walk[0] == from && walk[|walk| - 1] == to
  }

  /** `to` is `from` itself or is reached from it. */
  ghost predicate Connects<T(!new)>(g: map<T, set<T>>, from: T, to: T) {
    exists walk :: IsWalk(g, walk) && walk[0] == from && walk[|walk| - 1] == to
  }

  ghost predicate Acyclic<T(!new)>(g: map<T, set<T>>) {
    forall v :: v in g ==> !Reaches(g, v, v)
  }

  /** No edge leaves the vertex set of the map. */
  ghost predicate Closed<T>(g: map<T, set<T>>) {
    forall v :: v in g ==> g[v] <= g.Keys
  }

  ghost predicate IsSink<T>(g: map<T, set<T>>, within: set<T>, v: T) {
    v in within && v in g && forall d :: d in g[v] ==> d !in within
  }

  ghost predicate HasSinks<T(!new)>(g: map<T, set<T>>) {
    forall x: set<T> :: x != {} && x <= g.Keys ==> exists v :: IsSink(g, x, v)
  }

  ghost function Elements<T>(s: seq<T>): set<T> {
    set v | v in s
  }

  /** In a set without a sink, a walk of distinct vertices either closes or
      can be made longer, so the set holds a cycle. */
  lemma {:induction false} SinklessSetHasCycle<T(!new)>(g: map<T, set<T>>, x: set<T>, walk: seq<T>)
    requires x <= g.Keys
    requires forall v :: v in x ==> !IsSink(g, x, v)
    requires IsWalk(g, walk) && forall i :: 0 <= i < |walk| ==> walk[i] in x
    ensures !Acyclic(g)
    decreases x - Elements(walk)
  {
    var last := walk[|walk| - 1];
    assert !IsSink(g, x, last);
    var next :| next in g[last] && next in x;
    var longer := walk + [next];
    assert IsWalk(g, longer);
    if next in walk {
      var i :| 0 <= i < |walk| && walk[i] == next;
      var cycle := longer[i..];
      assert forall k :: 0 <= k < |cycle| ==> cycle[k] == longer[i + k];
      forall k | 0 <= k < |cycle| - 1 ensures cycle[k + 1] in g[cycle[k]] {
        assert longer[i + k + 1] in g[longer[i + k]];
      }
      assert IsWalk(g, cycle) && cycle[0] == next && cycle[|cycle| - 1] == next;
      assert Reaches(g, next, next);
    } else {
      assert next in x - Elements(walk) && next !in x - Elements(longer);
      assert x - Elements(longer) < x - Elements(walk);
      SinklessSetHasCycle(g, x, longer);
    }
  }

  lemma {:induction false} AcyclicHasSinks<T(!new)>(g: map<T, set<T>>)
    requires Acyclic(g)
    ensures HasSinks(g)
  {
    forall x: set<T> | x != {} && x <= g.Keys ensures exists v :: IsSink(g, x, v) {
      if forall v :: v in x ==> !IsSink(g, x, v) {
        var start :| start in x;
        SinklessSetHasCycle(g, x, [start]);
      }
    }
  }

  lemma {:induction false} ClosedWalkHasNoSink<T(!new)>(g: map<T, set<T>>, walk: seq<T>, v: T)
    requires IsWalk(g, walk) && |walk| >= 2 && walk[0] == walk[|walk| - 1]
    ensures !IsSink(g, Elements(walk), v)
  {
    if v in walk {
      var i :| 0 <= i < |walk| && walk[i] == v;
      var next := if i < |walk| - 1 then walk[i + 1] else walk[1];
      assert next in g[v] && next in Elements(walk);
    }
  }

  lemma {:induction false} SinksAcyclic<T(!new)>(g: map<T, set<T>>)
    requires HasSinks(g)
    ensures Acyclic(g)
  {
    forall v, walk | v in g && IsWalk(g, walk) && |walk| >= 2
      ensures !(walk[0] == v && walk[|walk| - 1] == v)
    {
      if walk[0] == v && walk[|walk| - 1] == v {
        var x := Elements(walk);
        assert v in x && x <= g.Keys;
        var sink :| IsSink(g, x, sink);
        ClosedWalkHasNoSink(g, walk, sink);
      }
    }
  }

  /** Among labelled indices, one whose label has no edge to another's label. */
  lemma {:induction false} MinimalIndex<T(!new)>(g: map<T, set<T>>, labels: seq<T>, chosen: set<nat>, some: nat)
    returns (i: nat)
    requires HasSinks(g) && some in chosen
    requires forall k :: k in chosen ==> k < |labels| && labels[k] in g
    ensures i in chosen && forall k :: k in chosen ==> labels[k] !in g[labels[i]]
  {
    var x := set k | k in chosen :: labels[k];
    assert labels[some] in x && x <= g.Keys;
    var sink :| IsSink(g, x, sink);
    i :| i in chosen && labels[i] == sink;
  }

  /** A graph with fewer edges and vertices keeps acyclicity. */
  lemma {:induction false} SubgraphAcyclic<T(!new)>(small: map<T, set<T>>, big: map<T, set<T>>)
    requires Acyclic(big)
    requires small.Keys <= big.Keys
    requires forall v :: v in small ==> small[v] <= big[v]
    ensures Acyclic(small)
  {
    forall v | v in small ensures !Reaches(small, v, v) {
      if Reaches(small, v, v) {
        var walk :| IsWalk(small, walk) && |walk| >= 2 && walk[0] == v && walk[|walk| - 1] == v;
        assert forall i :: 0 <= i < |walk| - 1 ==> walk[i + 1] in small[walk[i]];
        assert IsWalk(big, walk);
        assert false;
      }
    }
  }

  lemma {:induction false} JoinWalks<T(!new)>(g: map<T, set<T>>, left: seq<T>, right: seq<T>) returns (walk: seq<T>)
    requires IsWalk(g, left) && IsWalk(g, right) && left[|left| - 1] == right[0]
    ensures IsWalk(g, walk) && walk[0] == left[0] && walk[|walk| - 1] == right[|right| - 1]
    ensures |walk| == |left| + |right| - 1
  {
    walk := left + right[1..];
    forall i | 0 <= i < |walk| - 1 ensures walk[i + 1] in g[walk[i]] {
      if i < |left| - 1 {
        assert walk[i] == left[i] && walk[i + 1] == left[i + 1];
      } else {
        assert walk[i] == right[i - |left| + 1] && walk[i + 1] == right[i - |left| + 2];
      }
    }
  }

  lemma {:induction false} StepConnects<T(!new)>(g: map<T, set<T>>, a: T, b: T, c: T)
    requires a in g && b in g[a] && Connects(g, b, c)
    ensures Connects(g, a, c)
  {
    var right :| IsWalk(g, right) && right[0] == b && right[|right| - 1] == c;
    assert IsWalk(g, [a, b]);
    var walk := JoinWalks(g, [a, b], right);
  }

  lemma {:induction false} StepReaches<T(!new)>(g: map<T, set<T>>, a: T, b: T, c: T)
    requires b in g && c in g && Reaches(g, a, b) && c in g[b]
    ensures Reaches(g, a, c)
  {
    var left :| IsWalk(g, left) && |left| >= 2 && left[0] == a && left[|left| - 1] == b;
    assert IsWalk(g, [b, c]);
    var walk := JoinWalks(g, left, [b, c]);
  }

  lemma {:induction false} EdgeReaches<T(!new)>(g: map<T, set<T>>, a: T, b: T)
    requires a in g && b in g && b in g[a]
    ensures Reaches(g, a, b)
  {
    var walk := [a, b];
    assert IsWalk(g, walk);
  }

  lemma {:induction false} ConnectsSelf<T(!new)>(g: map<T, set<T>>, a: T)
    requires a in g
    ensures Connects(g, a, a)
  {
    assert IsWalk(g, [a]);
  }

  lemma {:induction false} ConnectsThen<T(!new)>(g: map<T, set<T>>, a: T, b: T, c: T)
    requires Connects(g, a, b) && b in g && c in g && c in g[b]
    ensures Connects(g, a, c)
  {
    var left :| IsWalk(g, left) && left[0] == a && left[|left| - 1] == b;
    assert IsWalk(g, [b, c]);
    var walk := JoinWalks(g, left, [b, c]);
  }

  /** A set closed under edges keeps every vertex reached from inside it. */
  lemma {:induction false} ClosedSetKeepsWalk<T(!new)>(g: map<T, set<T>>, x: set<T>, walk: seq<T>)
    requires IsWalk(g, walk) && walk[0] in x
    requires forall v :: v in x && v in g ==> g[v] * g.Keys <= x
    ensures walk[|walk| - 1] in x
    decreases |walk|
  {
    if |walk| > 1 {
      assert walk[1] in g[walk[0]];
      var tail := walk[1..];
      forall i | 0 <= i < |tail| - 1 ensures tail[i + 1] in g[tail[i]] {
        assert walk[i + 2] in g[walk[i + 1]];
      }
      ClosedSetKeepsWalk(g, x, tail);
    }
  }
}
