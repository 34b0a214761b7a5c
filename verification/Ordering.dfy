/** The greedy scheduling rule the planner applies twice (to flattened nodes
    and to services): repeatedly take the first remaining key, in the given
    order, all of whose dependencies are already placed. */
module Ordering {
  import opened Wrappers
  import opened Graphs

  predicate Ready<K>(deps: map<K, set<K>>, placed: set<K>, key: K)
    requires key in deps
  {
    deps[key] <= placed
  }

  predicate Declared<K>(deps: map<K, set<K>>, keys: seq<K>) {
    forall k <- keys :: k in deps
  }

  /** Position of the first ready key. */
  function FirstReady<K>(remaining: seq<K>, deps: map<K, set<K>>, placed: set<K>): (r: Option<nat>)
    requires Declared(deps, remaining)
    ensures r.Some? ==>
      && r.value < |remaining|
      && Ready(deps, placed, remaining[r.value])
      && forall j :: 0 <= j < r.value ==> !Ready(deps, placed, remaining[j])
    ensures r.None? ==> forall j :: 0 <= j < |remaining| ==> !Ready(deps, placed, remaining[j])
  {
    if remaining == [] then None
    else if Ready(deps, placed, remaining[0]) then Some(0)
    else
      match FirstReady(remaining[1..], deps, placed)
      case None => None
      case Some(i) => Some(i + 1)
  }

  function Without<K>(s: seq<K>, i: nat): (r: seq<K>)
    requires i < |s|
    ensures |r| == |s| - 1
  {
    s[..i] + s[i + 1..]
  }

  /** The whole order, or the keys left when none of them can become ready. */
  function Order<K>(remaining: seq<K>, deps: map<K, set<K>>, placed: set<K>): Result<seq<K>, seq<K>>
    requires Declared(deps, remaining)
    decreases |remaining|
  {
    if remaining == [] then Ok([])
    else
      match FirstReady(remaining, deps, placed)
      case None => Err(remaining)
      case Some(i) =>
        Behind([remaining[i]], Order(Without(remaining, i), deps, placed + {remaining[i]}))
  }

  function Behind<K>(ordered: seq<K>, rest: Result<seq<K>, seq<K>>): Result<seq<K>, seq<K>> {
    match rest
    case Err(stuck) => Err(stuck)
    case Ok(later) => Ok(ordered + later)
  }

  lemma {:induction false} BehindOne<K>(ordered: seq<K>, key: K, rest: Result<seq<K>, seq<K>>)
    ensures Behind(ordered, Behind([key], rest)) == Behind(ordered + [key], rest)
  {
    if rest.Ok? {
      assert ordered + ([key] + rest.value) == (ordered + [key]) + rest.value;
    }
  }

  lemma {:induction false} BehindNothing<K>(rest: Result<seq<K>, seq<K>>)
    ensures Behind([], rest) == rest
  {
    if rest.Ok? { assert [] + rest.value == rest.value; }
  }

  method Schedule<K(==)>(keys: seq<K>, deps: map<K, set<K>>) returns (r: Result<seq<K>, seq<K>>)
    requires Declared(deps, keys)
    ensures r == Order(keys, deps, {})
  {
    var remaining, placed, ordered := keys, {}, [];
    BehindNothing(Order(keys, deps, {}));
    while remaining != []
      invariant Declared(deps, remaining)
      invariant Order(keys, deps, {}) == Behind(ordered, Order(remaining, deps, placed))
      decreases |remaining|
    {
      var first := FirstReady(remaining, deps, placed);
      if first == None { return Err(remaining); }
      var key, left := remaining[first.value], Without(remaining, first.value);
      BehindOne(ordered, key, Order(left, deps, placed + {key}));
      ordered, placed, remaining := ordered + [key], placed + {key}, left;
    }
    assert ordered + [] == ordered;
    return Ok(ordered);
  }

  /** Every key of `order` has its dependencies placed before it. */
  ghost predicate Respects<K>(order: seq<K>, deps: map<K, set<K>>, placed: set<K>) {
    forall i :: 0 <= i < |order| ==> order[i] in deps && deps[order[i]] <= placed + Elements(order[..i])
  }

  lemma {:induction false} OrderIsPermutation<K>(remaining: seq<K>, deps: map<K, set<K>>, placed: set<K>)
    requires Declared(deps, remaining)
    requires Order(remaining, deps, placed).Ok?
    ensures multiset(Order(remaining, deps, placed).value) == multiset(remaining)
    decreases |remaining|
  {
    if remaining == [] {
    } else {
      var i := FirstReady(remaining, deps, placed).value;
      var left := Without(remaining, i);
      OrderIsPermutation(left, deps, placed + {remaining[i]});
      assert remaining == remaining[..i] + [remaining[i]] + remaining[i + 1..];
      assert multiset(remaining) == multiset([remaining[i]]) + multiset(left);
      var rest := Order(left, deps, placed + {remaining[i]}).value;
      assert multiset([remaining[i]] + rest) == multiset([remaining[i]]) + multiset(rest);
    }
  }

  lemma {:induction false} OrderRespects<K>(remaining: seq<K>, deps: map<K, set<K>>, placed: set<K>)
    requires Declared(deps, remaining)
    requires Order(remaining, deps, placed).Ok?
    ensures Respects(Order(remaining, deps, placed).value, deps, placed)
    decreases |remaining|
  {
    if remaining == [] {
    } else {
      var i := FirstReady(remaining, deps, placed).value;
      var key := remaining[i];
      OrderRespects(Without(remaining, i), deps, placed + {key});
      var rest := Order(Without(remaining, i), deps, placed + {key}).value;
      var order := [key] + rest;
      forall k | 0 <= k < |order|
        ensures order[k] in deps && deps[order[k]] <= placed + Elements(order[..k])
      {
        if k > 0 {
          assert order[k] == rest[k - 1] && order[..k] == [key] + rest[..k - 1];
          assert Elements(order[..k]) == {key} + Elements(rest[..k - 1]);
        }
      }
    }
  }

  /** Each pick is the earliest ready key of the given order: a key given
      before `order[i]` and not placed by then was still waiting. */
  lemma {:induction false} OrderTakesEarliest<K>(
    remaining: seq<K>, deps: map<K, set<K>>, placed: set<K>, order: seq<K>, i: nat, a: nat, b: nat)
    requires Declared(deps, remaining)
    requires forall j, k :: 0 <= j < k < |remaining| ==> remaining[j] != remaining[k]
    requires Order(remaining, deps, placed) == Ok(order)
    requires i < |order| && a < b < |remaining| && remaining[b] == order[i]
    requires remaining[a] !in order[..i]
    ensures !Ready(deps, placed + Elements(order[..i]), remaining[a])
    decreases i
  {
    var at := FirstReady(remaining, deps, placed).value;
    if i == 0 {
      assert order[0] == remaining[at];
    } else {
      var key, left := remaining[at], Without(remaining, at);
      var rest := Order(left, deps, placed + {key}).value;
      assert order[..i] == [key] + rest[..i - 1];
      OrderMembers(left, deps, placed + {key}, i - 1);
      assert rest[i - 1] == order[i];
      assert remaining[a] != key;
      var a', b' := Shifted(remaining, at, a), Shifted(remaining, at, b);
      var k :| 0 <= k < |left| && left[k] == order[i];
      assert left[k] == remaining[if k < at then k else k + 1];
      assert remaining[b] != key;
      OrderTakesEarliest(left, deps, placed + {key}, rest, i - 1, a', b');
      assert placed + {key} + Elements(rest[..i - 1]) == placed + Elements(order[..i]);
    }
  }

  function Shifted<K>(s: seq<K>, at: nat, i: nat): (r: nat)
    requires at < |s| && i < |s|
    ensures i != at ==> r < |s| - 1 && Without(s, at)[r] == s[i]
  {
    if i <= at then i else i - 1
  }

  lemma {:induction false} OrderMembers<K>(remaining: seq<K>, deps: map<K, set<K>>, placed: set<K>, i: nat)
    requires Declared(deps, remaining)
    requires Order(remaining, deps, placed).Ok? && i < |Order(remaining, deps, placed).value|
    ensures Order(remaining, deps, placed).value[i] in remaining
  {
    var order := Order(remaining, deps, placed).value;
    OrderIsPermutation(remaining, deps, placed);
    assert order[i] in multiset(order);
  }

  /** With sinks everywhere, the greedy rule never gets stuck. */
  lemma {:induction false} SinksOrder<K(!new)>(remaining: seq<K>, deps: map<K, set<K>>, placed: set<K>)
    requires Declared(deps, remaining)
    requires HasSinks(deps)
    requires forall k :: k in remaining ==> deps[k] <= placed + Elements(remaining)
    ensures Order(remaining, deps, placed).Ok?
    decreases |remaining|
  {
    if remaining == [] {
    } else {
      var x := Elements(remaining);
      assert remaining[0] in x && x <= deps.Keys;
      var sink :| IsSink(deps, x, sink);
      assert Ready(deps, placed, sink);
      var j :| 0 <= j < |remaining| && remaining[j] == sink;
      var i := FirstReady(remaining, deps, placed).value;
      var left := Without(remaining, i);
      assert Elements(remaining) <= {remaining[i]} + Elements(left) by {
        forall k | k in remaining ensures k in {remaining[i]} + Elements(left) {
          var at :| 0 <= at < |remaining| && remaining[at] == k;
          if at < i { assert left[at] == k; } else if at > i { assert left[at - 1] == k; }
        }
      }
      SinksOrder(left, deps, placed + {remaining[i]});
    }
  }

  lemma {:induction false} FirstMember<K>(order: seq<K>, x: set<K>, at: nat) returns (first: nat)
    requires at < |order| && order[at] in x
    ensures first <= at && order[first] in x && Elements(order[..first]) !! x
  {
    if i: nat :| i < at && order[i] in x {
      first := FirstMember(order, x, i);
    } else {
      first := at;
    }
  }

  /** A respected order rules out every closed walk. */
  lemma {:induction false} RespectedOrderAcyclic<K(!new)>(order: seq<K>, deps: map<K, set<K>>)
    requires Respects(order, deps, {})
    requires deps.Keys == Elements(order)
    ensures Acyclic(deps)
  {
    forall x: set<K> | x != {} && x <= deps.Keys ensures exists v :: IsSink(deps, x, v) {
      var some :| some in x;
      var at :| 0 <= at < |order| && order[at] == some;
      var first := FirstMember(order, x, at);
      assert IsSink(deps, x, order[first]);
    }
    SinksAcyclic(deps);
  }

  /** The greedy rule completes exactly on acyclic dependencies. */
  lemma {:induction false} OrderIffAcyclic<K(!new)>(keys: seq<K>, deps: map<K, set<K>>)
    requires deps.Keys == Elements(keys) && Closed(deps)
    ensures Order(keys, deps, {}).Ok? <==> Acyclic(deps)
  {
    if Acyclic(deps) {
      AcyclicHasSinks(deps);
      SinksOrder(keys, deps, {});
    }
    if Order(keys, deps, {}).Ok? {
      var order := Order(keys, deps, {}).value;
      OrderRespects(keys, deps, {});
      OrderIsPermutation(keys, deps, {});
      assert forall k :: k in order <==> k in multiset(order);
      assert Elements(order) == Elements(keys) by {
        forall k ensures k in order <==> k in keys {
          assert k in keys <==> k in multiset(keys);
        }
      }
      RespectedOrderAcyclic(order, deps);
    }
  }
}
