/** The transitive closure of a finite link relation, cycles included. */
module Closure {

  /** The successors of each node. */
  type Graph<!K> = map<K, set<K>>

  ghost predicate Arc<K>(g: Graph<K>, x: K, y: K) {
    x in g && y in g[x]
  }

  ghost predicate IsPath<K>(g: Graph<K>, from: set<K>, path: seq<K>) {
    && path != []
    && path[0] in from
    && forall i :: 0 <= i < |path| - 1 ==> Arc(g, path[i], path[i + 1])
  }

  /** The target can be reached by at least one link, the first of which leads into `from`. */
  ghost predicate Connected<K(!new)>(g: Graph<K>, from: set<K>, target: K) {
    exists path :: IsPath(g, from, path) && path[|path| - 1] == target
  }

  ghost predicate Closed<K>(g: Graph<K>, nodes: set<K>) {
    forall x :: x in nodes && x in g ==> g[x] <= nodes
  }

  lemma {:induction false} ClosedSetHoldsPaths<K>(g: Graph<K>, from: set<K>, nodes: set<K>, path: seq<K>)
    requires IsPath(g, from, path) && from <= nodes && Closed(g, nodes)
    ensures path[|path| - 1] in nodes
    decreases |path|
  {
    if |path| > 1 {
      var n := |path| - 1;
      var init := path[..n];
      forall i | 0 <= i < |init| - 1 ensures Arc(g, init[i], init[i + 1]) {
        assert Arc(g, path[i], path[i + 1]);
      }
      ClosedSetHoldsPaths(g, from, nodes, init);
      assert Arc(g, path[n - 1], path[n - 1 + 1]);
    }
  }

  lemma PathBegins<K(!new)>(g: Graph<K>, from: set<K>)
    ensures forall y :: y in from ==> Connected(g, from, y)
  {
    forall y | y in from ensures Connected(g, from, y) {
      assert IsPath(g, from, [y]);
    }
  }

  lemma PathExtends<K(!new)>(g: Graph<K>, from: set<K>, x: K)
    requires Connected(g, from, x) && x in g
    ensures forall y :: y in g[x] ==> Connected(g, from, y)
  {
    var path :| IsPath(g, from, path) && path[|path| - 1] == x;
    forall y | y in g[x] ensures Connected(g, from, y) {
      var longer := path + [y];
      forall i | 0 <= i < |longer| - 1 ensures Arc(g, longer[i], longer[i + 1]) {
        if i < |path| - 1 {
          assert Arc(g, path[i], path[i + 1]);
        }
      }
      assert IsPath(g, from, longer);
    }
  }

  /** Each relation is the other one read backwards. */
  ghost predicate Inverse<K(!new)>(g: Graph<K>, h: Graph<K>) {
    && g.Keys == h.Keys
    && forall x, y :: x in g && y in h ==> (Arc(g, x, y) <==> Arc(h, y, x))
  }

  function Backwards<K>(path: seq<K>): seq<K> {
    seq(|path|, i requires 0 <= i < |path| => path[|path| - 1 - i])
  }

  lemma PathsReverse<K(!new)>(g: Graph<K>, h: Graph<K>, start: K, end: K)
    requires Inverse(g, h) && start in h && end in g
    requires Connected(h, h[start], end)
    ensures Connected(g, g[end], start)
  {
    var path :| IsPath(h, h[start], path) && path[|path| - 1] == end;
    var n := |path| - 1;
    var all := [start] + path;
    forall i | 0 <= i < |all| - 1 ensures Arc(h, all[i], all[i + 1]) && Arc(g, all[i + 1], all[i]) {
      if i > 0 {
        assert Arc(h, path[i - 1], path[i - 1 + 1]);
      }
      if i + 1 < |all| - 1 {
        assert Arc(h, path[i], path[i + 1]);
      }
    }
    var back := Backwards([start] + path[..n]);
    forall i | 0 <= i < |back| - 1 ensures Arc(g, back[i], back[i + 1]) {
      assert back[i] == all[n - i] && back[i + 1] == all[n - i - 1];
      assert Arc(g, all[n - i - 1 + 1], all[n - i - 1]);
    }
    assert back[0] == all[n] && all[n + 1] == end;
    assert Arc(g, all[n + 1], all[n]);
    assert IsPath(g, g[end], back) && back[|back| - 1] == start;
  }

  /** Inverse relations connect the same pairs, read in opposite directions. */
  lemma BothWaysAgree<K(!new)>(g: Graph<K>, h: Graph<K>, x: K, y: K)
    requires Inverse(g, h) && x in g && y in g
    ensures Connected(h, h[x], y) <==> Connected(g, g[y], x)
  {
    if Connected(h, h[x], y) {
      PathsReverse(g, h, x, y);
    }
    if Connected(g, g[y], x) {
      PathsReverse(h, g, y, x);
    }
  }

  /** A search in progress: what was seen or waits is connected,
    and what is seen leads only to what is seen or waits. */
  ghost predicate Searching<K(!new)>(g: Graph<K>, from: set<K>, seen: set<K>, front: set<K>) {
    && (forall k :: k in front + seen ==> Connected(g, from, k))
    && from <= seen + front
    && forall k :: k in seen && k in g ==> g[k] <= seen + front
  }

  lemma SearchBegins<K(!new)>(g: Graph<K>, from: set<K>)
    ensures Searching(g, from, {}, from)
  {
    PathBegins(g, from);
  }

  lemma SearchAdvances<K(!new)>(g: Graph<K>, from: set<K>, seen: set<K>, key: K, front: set<K>)
    requires Searching(g, from, seen, {key} + front)
    ensures Connected(g, from, key)
    ensures key in seen ==> Searching(g, from, seen, front)
    ensures key !in seen ==> Searching(g, from, seen + {key}, front + if key in g then g[key] else {})
  {
    assert key in {key} + front + seen;
    if key in g {
      PathExtends(g, from, key);
    }
  }

  lemma SearchEnds<K(!new)>(g: Graph<K>, from: set<K>, seen: set<K>, target: K)
    requires Searching(g, from, seen, {}) && target !in seen
    ensures !Connected(g, from, target)
  {
    if Connected(g, from, target) {
      var path :| IsPath(g, from, path) && path[|path| - 1] == target;
      ClosedSetHoldsPaths(g, from, seen, path);
    }
  }
}
