/** The order of the environments: what the check makes of the order typed. */
module EnvironmentOrder {
  import opened Strings
  import opened EnvironmentText
  import opened EnvironmentReading
  import opened EnvironmentCheck
  import opened EnvironmentApps
  import opened EnvironmentStore

  // ------------------------------------------------------------------ sorting

  /** An environment goes after all of its order or a smaller one, and before the others. */
  lemma {:induction false} InsertIs(e: Environment, sorted: seq<Environment>) returns (k: nat)
    ensures k <= |sorted| && Insert(e, sorted) == sorted[..k] + [e] + sorted[k..]
    ensures k > 0 ==> sorted[k - 1].order <= e.order
    ensures forall i :: k <= i < |sorted| ==> sorted[i].order > e.order
  {
    if sorted == [] || sorted[|sorted| - 1].order <= e.order {
      k := |sorted|;
    } else {
      var front, last := sorted[..|sorted| - 1], sorted[|sorted| - 1];
      k := InsertIs(e, front);
      assert sorted == front + [last];
      assert sorted[..k] == front[..k] && sorted[k..] == front[k..] + [last];
    }
  }

  /** Two of the same order come as they come in the list typed. */
  ghost predicate IsStable(es: seq<Environment>, r: seq<Environment>) {
    forall i, j :: 0 <= i < j < |r| && r[i].order == r[j].order ==> ComeInTurn(es, r[i], r[j])
  }

  ghost predicate ComeInTurn(es: seq<Environment>, e: Environment, f: Environment) {
    exists a, b :: 0 <= a < b < |es| && es[a] == e && es[b] == f
  }

  lemma InTurnOfMore(es: seq<Environment>, last: Environment, e: Environment, f: Environment)
    ensures ComeInTurn(es, e, f) ==> ComeInTurn(es + [last], e, f)
    ensures e in es && f == last ==> ComeInTurn(es + [last], e, f)
  {
    var more := es + [last];
    if ComeInTurn(es, e, f) {
      var a, b :| 0 <= a < b < |es| && es[a] == e && es[b] == f;
      assert more[a] == e && more[b] == f;
    }
    if e in es && f == last {
      var a :| 0 <= a < |es| && es[a] == e;
      assert more[a] == e && more[|es|] == f;
    }
  }

  lemma {:induction false} InsertSorts(e: Environment, sorted: seq<Environment>)
    requires Ascending(sorted)
    ensures Ascending(Insert(e, sorted)) && multiset(Insert(e, sorted)) == multiset(sorted) + multiset{e}
  {
    if sorted != [] {
      var front, last := sorted[..|sorted| - 1], sorted[|sorted| - 1];
      assert sorted == front + [last];
      if last.order > e.order {
        InsertSorts(e, front);
        LastIsLargest(e, front, last);
      }
    }
  }

  lemma LastIsLargest(e: Environment, front: seq<Environment>, last: Environment)
    requires Ascending(front + [last]) && Ascending(Insert(e, front)) && e.order < last.order
    requires multiset(Insert(e, front)) == multiset(front) + multiset{e}
    ensures Ascending(Insert(e, front) + [last])
  {
    var r := Insert(e, front);
    forall i | 0 <= i < |r| ensures r[i].order <= last.order {
      assert r[i] in multiset(r);
      if r[i] in front {
        var m :| 0 <= m < |front| && front[m] == r[i];
        assert (front + [last])[m].order <= (front + [last])[|front|].order;
      }
    }
  }

  /** A pair of the same order after the insertion was there before, or ends with what is inserted. */
  lemma InsertedPair(e: Environment, sorted: seq<Environment>, i: nat, j: nat)
    requires i < j < |sorted| + 1 && Insert(e, sorted)[i].order == Insert(e, sorted)[j].order
    ensures var r := Insert(e, sorted);
      || (r[j] == e && r[i] in sorted)
      || exists m, n :: 0 <= m < n < |sorted| && sorted[m] == r[i] && sorted[n] == r[j]
  {
    var k := InsertIs(e, sorted);
    var r := Insert(e, sorted);
    var m, n := if i < k then i else i - 1, if j < k then j else j - 1;
    if j == k {
      assert r[i] == sorted[i];
    } else {
      assert r[j] == sorted[n];
      assert i != k;
      assert sorted[m] == r[i];
    }
  }

  lemma InsertedIsStable(es: seq<Environment>, e: Environment, sorted: seq<Environment>)
    requires IsStable(es, sorted) && forall f :: f in sorted ==> f in es
    ensures IsStable(es + [e], Insert(e, sorted))
  {
    var r := Insert(e, sorted);
    forall i, j | 0 <= i < j < |r| && r[i].order == r[j].order ensures ComeInTurn(es + [e], r[i], r[j]) {
      InsertedPair(e, sorted, i, j);
      InTurnOfMore(es, e, r[i], r[j]);
      if !(r[j] == e && r[i] in sorted) {
        var m, n :| 0 <= m < n < |sorted| && sorted[m] == r[i] && sorted[n] == r[j];
        assert ComeInTurn(es, sorted[m], sorted[n]);
      }
    }
  }

  /** The environments end in ascending order, none lost or doubled, those of the same order as they were typed. */
  lemma {:induction false} InOrderSorts(es: seq<Environment>)
    ensures Ascending(InOrder(es)) && IsStable(es, InOrder(es))
    ensures multiset(InOrder(es)) == multiset(es)
  {
    if es != [] {
      var front, last := es[..|es| - 1], es[|es| - 1];
      InOrderSorts(front);
      assert es == front + [last];
      forall f | f in InOrder(front) ensures f in front {
        assert f in multiset(InOrder(front));
      }
      InsertSorts(last, InOrder(front));
      InsertedIsStable(front, last, InOrder(front));
    }
  }

  // ------------------------------------------------------------------ where an environment ends

  predicate AreDistinct(es: seq<Environment>) {
    forall a, b :: 0 <= a < b < |es| ==> es[a] != es[b]
  }

  /** One comes before another exactly when its order is smaller, or is the same and it was typed earlier. */
  lemma ComesBeforeExactlyWhen(es: seq<Environment>, a: nat, b: nat, i: nat, j: nat)
    requires AreDistinct(es) && a < |es| && b < |es| && a != b && i < |es| && j < |es|
    requires InOrder(es)[i] == es[a] && InOrder(es)[j] == es[b]
    ensures i < j <==> es[a].order < es[b].order || (es[a].order == es[b].order && a < b)
  {
    InOrderSorts(es);
    if i < j && es[a].order == es[b].order {
      OnlyTurn(es, a, b);
    }
    if j < i && es[a].order == es[b].order {
      OnlyTurn(es, b, a);
    }
  }

  lemma OnlyTurn(es: seq<Environment>, a: nat, b: nat)
    requires AreDistinct(es) && a < |es| && b < |es| && ComeInTurn(es, es[a], es[b])
    ensures a < b
  {
    var c, d :| 0 <= c < d < |es| && es[c] == es[a] && es[d] == es[b];
  }

  /** What the check makes of an environment as typed, at its place in the result. */
  predicate IsReadAs(e: Environment, r: Environment, i: nat) {
    && r.name == Lower(Trim(e.name))
    && r.title == (if Trim(e.title) == "" then r.name else TextOf(e.title))
    && r.kind == (if Trim(e.kind) == "" then "autre" else Lower(TextOf(e.kind)))
    && (if Trim(e.color) == "" then r.color == "" else IsColorOf(TextOf(e.color), r.color))
    && r.hidden == e.hidden && r.order == i
  }

  lemma SourceIsReadAs(e: Environment, i: int)
    requires ProblemOf(e) == NoProblem && i >= 0
    ensures IsReadAs(e, CleanEnvironment(ReadSource(e), i), i)
  {
    BlankIsEmpty(e.title);
    BlankIsEmpty(e.kind);
    BlankIsEmpty(e.color);
    if TextOf(e.color) != "" {
      ColorIsKept(TextOf(e.color));
    }
  }

  lemma AcceptedAreDistinct(s: Settings)
    requires CheckSettings(s).Accepted?
    ensures AreDistinct(s.environments)
    ensures forall i, j :: 0 <= i < j < |s.environments| ==>
      NameOf(InOrder(s.environments)[i].name) != NameOf(InOrder(s.environments)[j].name)
  {
    var es, sorted := s.environments, InOrder(s.environments);
    CheckIsExact(s);
    GoodNames(ReadSources(sorted));
    InOrderSorts(es);
    forall i, j | 0 <= i < j < |sorted| ensures NameOf(sorted[i].name) != NameOf(sorted[j].name) {
      assert ReadSources(sorted)[i].definition.name != ReadSources(sorted)[j].definition.name;
    }
    forall a, b | 0 <= a < b < |es| ensures es[a] != es[b] {
      if es[a] == es[b] {
        TwiceIsTwo(es, a, b);
        OnceIsOne(sorted, es[a]);
      }
    }
  }

  lemma TwiceIsTwo(es: seq<Environment>, a: nat, b: nat)
    requires a < b < |es| && es[a] == es[b]
    ensures multiset(es)[es[a]] >= 2
  {
    assert es == es[..b] + [es[b]] + es[b + 1..];
    assert es[..b][a] == es[a];
  }

  lemma {:induction false} OnceIsOne(sorted: seq<Environment>, e: Environment)
    requires forall i, j :: 0 <= i < j < |sorted| ==> sorted[i] != sorted[j]
    ensures multiset(sorted)[e] <= 1
  {
    if sorted != [] {
      var front, last := sorted[..|sorted| - 1], sorted[|sorted| - 1];
      OnceIsOne(front, e);
      assert sorted == front + [last];
      if last == e {
        assert e !in front;
      }
    }
  }

  /** The result has each environment typed, read as it should be, at one place. */
  lemma ResultHolds(s: Settings, a: nat) returns (i: nat)
    requires CheckSettings(s).Accepted? && a < |s.environments|
    ensures var r := CheckSettings(s).settings.environments;
      |r| == |s.environments| && i < |r| && IsReadAs(s.environments[a], r[i], i)
    ensures InOrder(s.environments)[i] == s.environments[a]
  {
    var es, sorted := s.environments, InOrder(s.environments);
    CheckIsExact(s);
    InOrderSorts(es);
    assert es[a] in multiset(sorted);
    i :| 0 <= i < |sorted| && sorted[i] == es[a];
    assert ReadSources(sorted)[i] == ReadSource(es[a]);
    SourceIsReadAs(es[a], i);
  }

  /**
   In what the check accepts, the environment typed at a comes before the one typed at b exactly when its order is
   smaller, or is the same and it was typed earlier.
   */
  lemma ResultIsInOrder(s: Settings, a: nat, b: nat, i: nat, j: nat)
    requires CheckSettings(s).Accepted? && a < |s.environments| && b < |s.environments| && a != b
    requires i < |CheckSettings(s).settings.environments| && j < |CheckSettings(s).settings.environments|
    requires CheckSettings(s).settings.environments[i].name == Lower(Trim(s.environments[a].name))
    requires CheckSettings(s).settings.environments[j].name == Lower(Trim(s.environments[b].name))
    ensures var e, f := s.environments[a], s.environments[b];
      i < j <==> e.order < f.order || (e.order == f.order && a < b)
  {
    var sorted := InOrder(s.environments);
    var m := ResultHolds(s, a);
    var n := ResultHolds(s, b);
    AcceptedAreDistinct(s);
    CheckIsExact(s);
    assert ReadSources(sorted)[i].definition.name == NameOf(sorted[i].name);
    assert ReadSources(sorted)[j].definition.name == NameOf(sorted[j].name);
    ComesBeforeExactlyWhen(s.environments, a, b, m, n);
  }
}
