/** Which errors a rule has already seen: a fingerprint is new at most once per rule and process. */
module KnownErrors {
  import opened Wrappers

  type Fingerprint = string

  /** An error group of the evaluation window, with its status. */
  datatype Group = Group(fingerprint: Fingerprint, regressed: bool, ignored: bool)

  datatype Kind = New | Regression

  datatype Report = Report(fingerprint: Fingerprint, kind: Kind)

  /** `baseline`: everything known to the process apart from what a given rule has seen. */
  datatype Memory = Memory(baseline: Option<set<Fingerprint>>, byRule: map<string, set<Fingerprint>>)

  /** One evaluation of an error rule; `stored`: what the storage holds, asked for only once. */
  datatype Call = Call(rule: string, groups: seq<Group>, includeRegressions: bool, preview: bool,
      stored: set<Fingerprint>)

  predicate SeenBySome(byRule: map<string, set<Fingerprint>>, f: Fingerprint) {
    exists r :: r in byRule && f in byRule[r]
  }

  /** The memory after the rule's set is asked for. */
  ghost predicate Opened(m: Memory, rule: string, stored: set<Fingerprint>, m': Memory) {
    if rule in m.byRule then m' == m
    else
      && m'.baseline.Some? && m'.byRule == m.byRule[rule := m'.baseline.value]
      && forall f ::
           f in m'.baseline.value
           <==> SeenBySome(m.byRule, f) || f in (if m.baseline.Some? then m.baseline.value else stored)
  }

  function Judge(known: set<Fingerprint>, g: Group, includeRegressions: bool): seq<Report> {
    if g.ignored then []
    else if g.fingerprint !in known then [Report(g.fingerprint, New)]
    else if includeRegressions && g.regressed then [Report(g.fingerprint, Regression)]
    else []
  }

  /** What the groups give, in order, and the set the rule ends with. */
  function Scan(known: set<Fingerprint>, groups: seq<Group>, includeRegressions: bool, preview: bool):
      (seq<Report>, set<Fingerprint>) {
    if groups == [] then ([], known)
    else
      var g := groups[|groups| - 1];
      var (reports, k) := Scan(known, groups[..|groups| - 1], includeRegressions, preview);
      (reports + Judge(k, g, includeRegressions), if preview then k else k + {g.fingerprint})
  }

  ghost predicate Evaluates(m: Memory, c: Call, reports: seq<Report>, m': Memory) {
    exists o :: EvaluatesVia(m, c, o, reports, m')
  }

  ghost predicate EvaluatesVia(m: Memory, c: Call, o: Memory, reports: seq<Report>, m': Memory) {
    && Opened(m, c.rule, c.stored, o) && c.rule in o.byRule
    && var (rs, known) := Scan(o.byRule[c.rule], c.groups, c.includeRegressions, c.preview);
    && reports == rs
    && m' == o.(byRule := o.byRule[c.rule := known])
  }

  class ErrorMemory {
    var memory: Memory

    constructor ()
      ensures memory == Memory(None, map[])
    {
      memory := Memory(None, map[]);
    }

    /** KnownErrors: a rule seen for the first time starts with what the process knows by then. */
    method Known(rule: string, stored: set<Fingerprint>) returns (known: set<Fingerprint>)
      modifies this
      ensures Opened(old(memory), rule, stored, memory)
      ensures rule in memory.byRule && known == memory.byRule[rule]
    {
      if rule in memory.byRule { return memory.byRule[rule]; }
      var all := if memory.baseline.Some? then memory.baseline.value else stored;
      var rest := memory.byRule.Keys;
      while rest != {}
        invariant rest <= memory.byRule.Keys && memory == old(memory)
        invariant forall f :: f in all <==>
          (exists r :: r in memory.byRule && r !in rest && f in memory.byRule[r])
          || f in (if memory.baseline.Some? then memory.baseline.value else stored)
        decreases rest
      {
        var r :| r in rest;
        all := all + memory.byRule[r];
        rest := rest - {r};
      }
      memory := Memory(Some(all), memory.byRule[rule := all]);
      known := all;
    }

    method Evaluate(c: Call) returns (reports: seq<Report>)
      modifies this
      ensures Evaluates(old(memory), c, reports, memory)
    {
      var known := Known(c.rule, c.stored);
      ghost var begun := memory;
      reports := [];
      for i := 0 to |c.groups|
        invariant Scan(begun.byRule[c.rule], c.groups[..i], c.includeRegressions, c.preview) == (reports, known)
        invariant memory == begun.(byRule := begun.byRule[c.rule := known])
      {
        assert c.groups[..i + 1][..i] == c.groups[..i];
        var g := c.groups[i];
        reports := reports + Judge(known, g, c.includeRegressions);
        if !c.preview {
          known := known + {g.fingerprint};
          memory := memory.(byRule := memory.byRule[c.rule := known]);
        }
      }
      assert c.groups[..|c.groups|] == c.groups;
      assert EvaluatesVia(old(memory), c, begun, reports, memory);
    }
  }

  // ------------------------------------------------------------------ runs

  /** A run of the process: the calls, the memory before each, and what each reported. */
  datatype Trace = Trace(calls: seq<Call>, memories: seq<Memory>, reports: seq<seq<Report>>)

  ghost predicate Run(t: Trace) {
    && |t.memories| == |t.calls| + 1 && |t.reports| == |t.calls|
    && t.memories[0] == Memory(None, map[])
    && forall i :: 0 <= i < |t.calls| ==> Evaluates(t.memories[i], t.calls[i], t.reports[i], t.memories[i + 1])
  }

  ghost function KnownTo(m: Memory, rule: string): set<Fingerprint> {
    if rule in m.byRule then m.byRule[rule] else {}
  }

  lemma {:induction false} ScanGrows(known: set<Fingerprint>, groups: seq<Group>, includeRegressions: bool,
      preview: bool)
    ensures var (reports, k) := Scan(known, groups, includeRegressions, preview);
            && known <= k
            && (!preview ==> forall g :: g in groups ==> g.fingerprint in k)
            && (forall r :: r in reports && r.kind == New ==>
                              r.fingerprint !in known && exists g :: g in groups && g.fingerprint == r.fingerprint)
  {
    if groups != [] {
      var init, g := groups[..|groups| - 1], groups[|groups| - 1];
      ScanGrows(known, init, includeRegressions, preview);
      assert groups == init + [g];
    }
  }

  function FirstOf(groups: seq<Group>, f: Fingerprint): Option<Group> {
    if groups == [] then None
    else
      var first := FirstOf(groups[..|groups| - 1], f);
      if first.Some? then first
      else if groups[|groups| - 1].fingerprint == f then Some(groups[|groups| - 1])
      else None
  }

  /** A call announces a fingerprint as new once if it is unknown and not ignored when first met, and else never. */
  lemma {:induction false} ScanReportsFirstSight(known: set<Fingerprint>, groups: seq<Group>, includeRegressions: bool,
      f: Fingerprint)
    ensures var (reports, k) := Scan(known, groups, includeRegressions, false);
            var first := FirstOf(groups, f);
            && Count(reports, f) == (if f !in known && first.Some? && !first.value.ignored then 1 else 0)
            && (f in k <==> f in known || first.Some?)
  {
    if groups != [] {
      var init, g := groups[..|groups| - 1], groups[|groups| - 1];
      ScanReportsFirstSight(known, init, includeRegressions, f);
      var (reports, k) := Scan(known, init, includeRegressions, false);
      CountJudged(reports, k, g, includeRegressions, f);
    }
  }

  lemma CountJudged(reports: seq<Report>, known: set<Fingerprint>, g: Group, includeRegressions: bool, f: Fingerprint)
    ensures Count(reports + Judge(known, g, includeRegressions), f)
         == Count(reports, f) + if g.fingerprint == f && !g.ignored && f !in known then 1 else 0
  {
    var j := Judge(known, g, includeRegressions);
    if j == [] {
      assert reports + j == reports;
    } else {
      assert (reports + j)[..|reports|] == reports;
    }
  }

  /** How many regressions of a fingerprint are announced. */
  function Regressions(reports: seq<Report>, f: Fingerprint): nat {
    if reports == [] then 0
    else Regressions(reports[..|reports| - 1], f) + if reports[|reports| - 1] == Report(f, Regression) then 1 else 0
  }

  predicate IsAmong(f: Fingerprint, groups: seq<Group>) {
    exists k :: 0 <= k < |groups| && groups[k].fingerprint == f
  }

  lemma AmongOneMore(f: Fingerprint, init: seq<Group>, g: Group)
    ensures IsAmong(f, init + [g]) <==> IsAmong(f, init) || g.fingerprint == f
  {
    var all := init + [g];
    if IsAmong(f, init) {
      var k :| 0 <= k < |init| && init[k].fingerprint == f;
      assert all[k].fingerprint == f;
    }
    assert all[|init|] == g;
  }

  /** The groups of a fingerprint that are regressed and not ignored; `after`: those after the first of them only. */
  function Regressed(groups: seq<Group>, f: Fingerprint, after: bool): nat {
    if groups == [] then 0
    else
      var init, g := groups[..|groups| - 1], groups[|groups| - 1];
      Regressed(init, f, after)
      + if g.fingerprint == f && g.regressed && !g.ignored && (after ==> IsAmong(f, init)) then 1 else 0
  }

  lemma {:induction false} ScanKnows(known: set<Fingerprint>, groups: seq<Group>, includeRegressions: bool,
      preview: bool, f: Fingerprint)
    ensures f in Scan(known, groups, includeRegressions, preview).1 <==>
      f in known || (!preview && IsAmong(f, groups))
  {
    if groups != [] {
      var init, g := groups[..|groups| - 1], groups[|groups| - 1];
      ScanKnows(known, init, includeRegressions, preview, f);
      AmongOneMore(f, init, g);
      assert groups == init + [g];
    }
  }

  /**
   A call announces as regressions exactly the regressed groups that are not ignored and whose fingerprint is known,
   and none where the rule leaves regressions out; within one call the first group of an unknown one makes it known.
   */
  lemma {:induction false} ScanReportsRegressions(known: set<Fingerprint>, groups: seq<Group>, includeRegressions: bool,
      preview: bool, f: Fingerprint)
    ensures Regressions(Scan(known, groups, includeRegressions, preview).0, f) ==
      if !includeRegressions || (preview && f !in known) then 0 else Regressed(groups, f, f !in known)
  {
    hide Judge, IsAmong;
    if groups != [] {
      var init, g := groups[..|groups| - 1], groups[|groups| - 1];
      ScanReportsRegressions(known, init, includeRegressions, preview, f);
      ScanKnows(known, init, includeRegressions, preview, f);
      var (reports, k) := Scan(known, init, includeRegressions, preview);
      OneMoreRegression(reports, k, g, includeRegressions, f);
    }
  }

  lemma OneMoreRegression(reports: seq<Report>, known: set<Fingerprint>, g: Group, includeRegressions: bool,
      f: Fingerprint)
    ensures Regressions(reports + Judge(known, g, includeRegressions), f) == Regressions(reports, f)
      + if includeRegressions && g.fingerprint == f && g.regressed && !g.ignored && f in known then 1 else 0
  {
    var j := Judge(known, g, includeRegressions);
    if j == [] {
      assert reports + j == reports;
    } else {
      assert (reports + j)[..|reports|] == reports;
    }
  }

  /** How often a fingerprint is announced as new. */
  function Count(reports: seq<Report>, f: Fingerprint): nat {
    if reports == [] then 0
    else Count(reports[..|reports| - 1], f) + if reports[|reports| - 1] == Report(f, New) then 1 else 0
  }

  lemma {:induction false} CountZero(reports: seq<Report>, f: Fingerprint)
    ensures Count(reports, f) == 0 <==> Report(f, New) !in reports
  {
    if reports != [] {
      CountZero(reports[..|reports| - 1], f);
      assert reports == reports[..|reports| - 1] + [reports[|reports| - 1]];
    }
  }

  lemma MemoryGrows(m: Memory, c: Call, reports: seq<Report>, m': Memory)
    requires Evaluates(m, c, reports, m')
    ensures forall r :: KnownTo(m, r) <= KnownTo(m', r)
    ensures m.baseline.Some? ==> m'.baseline.Some? && m.baseline.value <= m'.baseline.value
    ensures forall r :: r in m.byRule ==> r in m'.byRule
  {
    var o :| EvaluatesVia(m, c, o, reports, m');
    ScanGrows(o.byRule[c.rule], c.groups, c.includeRegressions, c.preview);
  }

  lemma {:induction false} KnownForGood(t: Trace, i: nat, j: nat, rule: string)
    requires Run(t) && i <= j <= |t.calls|
    ensures KnownTo(t.memories[i], rule) <= KnownTo(t.memories[j], rule)
    decreases j
  {
    if i < j {
      KnownForGood(t, i, j - 1, rule);
      assert Evaluates(t.memories[j - 1], t.calls[j - 1], t.reports[j - 1], t.memories[j - 1 + 1]);
      MemoryGrows(t.memories[j - 1], t.calls[j - 1], t.reports[j - 1], t.memories[j]);
    }
  }

  lemma ReportedAreKnownAfter(m: Memory, c: Call, reports: seq<Report>, m': Memory, f: Fingerprint)
    requires Evaluates(m, c, reports, m')
    ensures f in KnownTo(m, c.rule) ==> Report(f, New) !in reports
    ensures Report(f, New) in reports && !c.preview ==> f in KnownTo(m', c.rule)
  {
    var o :| EvaluatesVia(m, c, o, reports, m');
    ScanGrows(o.byRule[c.rule], c.groups, c.includeRegressions, c.preview);
  }

  /** Once announced as new to a rule, a fingerprint is never announced as new to it again, whatever other rules do. */
  lemma NewAtMostOnce(t: Trace, i: nat, j: nat, f: Fingerprint)
    requires Run(t) && i < |t.calls| && j < |t.calls|
    requires t.calls[i].rule == t.calls[j].rule && !t.calls[i].preview
    requires Report(f, New) in t.reports[i]
    ensures i < j ==> Report(f, New) !in t.reports[j]
    ensures Count(t.reports[i], f) == 1
  {
    assert Evaluates(t.memories[i], t.calls[i], t.reports[i], t.memories[i + 1]);
    ReportedAreKnownAfter(t.memories[i], t.calls[i], t.reports[i], t.memories[i + 1], f);
    if i < j {
      KnownForGood(t, i + 1, j, t.calls[i].rule);
      assert Evaluates(t.memories[j], t.calls[j], t.reports[j], t.memories[j + 1]);
      ReportedAreKnownAfter(t.memories[j], t.calls[j], t.reports[j], t.memories[j + 1], f);
    }
    var o :| EvaluatesVia(t.memories[i], t.calls[i], o, t.reports[i], t.memories[i + 1]);
    ScanReportsFirstSight(o.byRule[t.calls[i].rule], t.calls[i].groups, t.calls[i].includeRegressions, f);
    CountZero(t.reports[i], f);
  }

  /** A rule that is evaluated for the first time knows by then what any rule has seen, and announces none of it. */
  lemma LateRuleKnows(t: Trace, i: nat, j: nat, f: Fingerprint)
    requires Run(t) && i < j < |t.calls| && !t.calls[i].preview && IsAmong(f, t.calls[i].groups)
    requires forall k :: 0 <= k < j ==> t.calls[k].rule != t.calls[j].rule
    ensures Report(f, New) !in t.reports[j]
  {
    var rule := t.calls[i].rule;
    assert Evaluates(t.memories[i], t.calls[i], t.reports[i], t.memories[i + 1]);
    SeenIsKnown(t.memories[i], t.calls[i], t.reports[i], t.memories[i + 1], f);
    KnownForGood(t, i + 1, j, rule);
    OnlyCalledAreThere(t, j, t.calls[j].rule);
    assert Evaluates(t.memories[j], t.calls[j], t.reports[j], t.memories[j + 1]);
    FirstCallKnows(t.memories[j], t.calls[j], t.reports[j], t.memories[j + 1], rule, f);
  }

  lemma SeenIsKnown(m: Memory, c: Call, reports: seq<Report>, m': Memory, f: Fingerprint)
    requires Evaluates(m, c, reports, m') && !c.preview && IsAmong(f, c.groups)
    ensures f in KnownTo(m', c.rule)
  {
    var o :| EvaluatesVia(m, c, o, reports, m');
    ScanKnows(o.byRule[c.rule], c.groups, c.includeRegressions, c.preview, f);
  }

  lemma {:induction false} OnlyCalledAreThere(t: Trace, j: nat, rule: string)
    requires Run(t) && j <= |t.calls| && forall k :: 0 <= k < j ==> t.calls[k].rule != rule
    ensures rule !in t.memories[j].byRule
  {
    if j > 0 {
      OnlyCalledAreThere(t, j - 1, rule);
      assert Evaluates(t.memories[j - 1], t.calls[j - 1], t.reports[j - 1], t.memories[j - 1 + 1]);
      var o :| EvaluatesVia(t.memories[j - 1], t.calls[j - 1], o, t.reports[j - 1], t.memories[j]);
    }
  }

  lemma FirstCallKnows(m: Memory, c: Call, reports: seq<Report>, m': Memory, rule: string, f: Fingerprint)
    requires Evaluates(m, c, reports, m') && c.rule !in m.byRule && f in KnownTo(m, rule)
    ensures Report(f, New) !in reports
  {
    var o :| EvaluatesVia(m, c, o, reports, m');
    assert SeenBySome(m.byRule, f) by {
      assert rule in m.byRule && f in m.byRule[rule];
    }
    assert f in o.baseline.value && f in o.byRule[c.rule];
    ScanGrows(o.byRule[c.rule], c.groups, c.includeRegressions, c.preview);
  }

  /** From the first call on, the baseline and every rule's set hold what the storage held at that call. */
  lemma {:induction false} BaselineIsKnown(t: Trace, i: nat)
    requires Run(t) && 0 < i <= |t.calls|
    ensures t.memories[i].baseline.Some? && t.calls[0].stored <= t.memories[i].baseline.value
    ensures forall r :: r in t.memories[i].byRule ==> t.calls[0].stored <= t.memories[i].byRule[r]
  {
    assert Evaluates(t.memories[i - 1], t.calls[i - 1], t.reports[i - 1], t.memories[i - 1 + 1]);
    var m, c, m' := t.memories[i - 1], t.calls[i - 1], t.memories[i];
    if i > 1 {
      BaselineIsKnown(t, i - 1);
    }
    var o :| EvaluatesVia(m, c, o, t.reports[i - 1], m');
    ScanGrows(o.byRule[c.rule], c.groups, c.includeRegressions, c.preview);
  }

  /** What was in storage when the process first looked is never announced as new, to any rule. */
  lemma StartIsNeverNew(t: Trace, i: nat, f: Fingerprint)
    requires Run(t) && i < |t.calls| && f in t.calls[0].stored
    ensures Report(f, New) !in t.reports[i]
  {
    assert Evaluates(t.memories[i], t.calls[i], t.reports[i], t.memories[i + 1]);
    var o :| EvaluatesVia(t.memories[i], t.calls[i], o, t.reports[i], t.memories[i + 1]);
    if i > 0 {
      BaselineIsKnown(t, i);
    }
    ScanGrows(o.byRule[t.calls[i].rule], t.calls[i].groups, t.calls[i].includeRegressions, t.calls[i].preview);
  }
}
