/**
 The environments that the automatic grouping makes, the order of the values it adds, and its two counts.
 */
module EnvironmentFamilies {
  import opened Strings
  import opened EnvironmentText
  import opened EnvironmentCheck
  import opened EnvironmentStore
  import opened EnvironmentSuggestion
  import opened EnvironmentProposal
  import opened EnvironmentForecast

  // ------------------------------------------------------------------ which family a value is of

  /** A value is of the first family that lists it as it is compared. */
  lemma FamilyIsTheFirst(v: string, f: nat)
    requires f < |FAMILIES|
    ensures FamilyOf(v) == f <==>
      Simplify(v) in FAMILIES[f].values && forall g :: 0 <= g < f ==> Simplify(v) !in FAMILIES[g].values
  {
    FromIsTheFirst(Simplify(v), 0, f);
  }

  lemma {:induction false} FromIsTheFirst(word: string, from: nat, f: nat)
    requires from <= f < |FAMILIES|
    ensures FamilyFrom(word, from) == f <==>
      word in FAMILIES[f].values && forall g :: from <= g < f ==> word !in FAMILIES[g].values
    decreases f - from
  {
    if from < f && word !in FAMILIES[from].values {
      FromIsTheFirst(word, from + 1, f);
    }
  }

  lemma NothingIsSimplified()
    ensures Simplified("") == ""
  {
  }

  lemma SimplifiedOfFirst(c: char, s: string)
    ensures Simplified([c] + s) == Simplified([c]) + Simplified(s)
  {
    hide WithoutAccent, IsSeparator;
    assert ([c] + s)[1..] == s && [c][1..] == "";
  }

  lemma {:induction false} SimplifiedOfMore(a: string, b: string)
    ensures Simplified(a + b) == Simplified(a) + Simplified(b)
  {
    NothingIsSimplified();
    hide Simplified;
    if a == "" {
      assert a + b == b;
    } else {
      SimplifiedOfMore(a[1..], b);
      SimplifiedOfFirst(a[0], a[1..]);
      SimplifiedOfFirst(a[0], a[1..] + b);
      assert [a[0]] + a[1..] == a && [a[0]] + (a[1..] + b) == a + b;
    }
  }

  /** What each character is compared as: separators as nothing, accented small letters as those without accent. */
  function ComparedAs(c: char): string {
    if c in "-_. " then "" else if c in "\U{e9}\U{e8}\U{ea}\U{eb}" then "e" else if c in "\U{e0}\U{e2}\U{e4}" then "a"
    else if c in "\U{ee}\U{ef}" then "i" else if c in "\U{f4}\U{f6}" then "o"
    else if c in "\U{f9}\U{fb}\U{fc}" then "u" else if c in "\U{e7}" then "c"
    else [c]
  }

  /** Texts are compared character by character. */
  lemma {:induction false} SimplifiedIs(a: string, c: char, b: string)
    ensures Simplified(a + [c] + b) == Simplified(a) + ComparedAs(c) + Simplified(b)
  {
    SimplifiedOfMore(a + [c], b);
    SimplifiedOfMore(a, [c]);
    assert [c][1..] == "";
    assert Simplified([c]) == ComparedAs(c);
  }

  // ------------------------------------------------------------------ the copy of the draft, and its owners

  lemma {:induction false} TrimmedTextsOfMore(a: seq<string>, b: seq<string>)
    ensures TrimmedTexts(a + b) == TrimmedTexts(a) + TrimmedTexts(b)
  {
    hide Trim;
    if a == [] {
      assert a + b == b;
    } else {
      TrimmedTextsOfMore(a[1..], b);
      assert (a + b)[1..] == a[1..] + b && (a + b)[0] == a[0];
      var first := if Trim(a[0]) == "" then [] else [Trim(a[0])];
      assert TrimmedTexts(a + b) == first + TrimmedTexts(a[1..] + b);
      assert first + (TrimmedTexts(a[1..]) + TrimmedTexts(b)) == first + TrimmedTexts(a[1..]) + TrimmedTexts(b);
    }
  }

  lemma {:induction false} CopiesOfMore(a: seq<Environment>, b: seq<Environment>)
    ensures Copies(a + b) == Copies(a) + Copies(b)
  {
    hide CopyOf, Trim;
    if a == [] {
      assert a + b == b;
    } else {
      CopiesOfMore(a[1..], b);
      assert (a + b)[1..] == a[1..] + b && (a + b)[0] == a[0];
      var first := if Trim(a[0].name) == "" then [] else [CopyOf(a[0])];
      assert Copies(a + b) == first + Copies(a[1..] + b);
      assert first + (Copies(a[1..]) + Copies(b)) == first + Copies(a[1..]) + Copies(b);
    }
  }

  predicate IsCopyOf(e: Environment, c: Environment) {
    && c.(name := e.name, aliases := e.aliases) == e
    && c.name == Trim(e.name) && c.aliases == TrimmedTexts(e.aliases)
  }

  /**
   The copy has, in order, an environment for each one whose name is not blank, with all it has: its name trimmed,
   and its aliases, in order, those that are not blank, trimmed.
   */
  lemma CopiesAre(before: seq<Environment>, e: Environment, after: seq<Environment>, first: seq<string>, alias: string)
    ensures Trim(e.name) == "" ==> Copies(before + [e] + after) == Copies(before) + Copies(after)
    ensures Trim(e.name) != "" ==>
      exists c :: IsCopyOf(e, c) && Copies(before + [e] + after) == Copies(before) + [c] + Copies(after)
    ensures TrimmedTexts(first + [alias]) ==
      TrimmedTexts(first) + if Trim(alias) == "" then [] else [Trim(alias)]
  {
    CopiesOfMore(before + [e], after);
    CopiesOfMore(before, [e]);
    TrimmedTextsOfMore(first, [alias]);
    assert [e][1..] == [] && [alias][1..] == [];
    assert IsCopyOf(e, CopyOf(e));
    assert Copies([e]) == if Trim(e.name) == "" then [] else [CopyOf(e)];
    assert Copies(before) + [] == Copies(before);
  }

  predicate IsNamed(e: Environment, key: string) {
    Lower(e.name) == key
  }

  predicate HasAlias(e: Environment, key: string) {
    exists k :: 0 <= k < |e.aliases| && Lower(e.aliases[k]) == key
  }

  lemma {:induction false} NamesOwn(es: seq<Environment>, n: nat, key: string)
    requires n <= |es|
    ensures var r := OwnNames(es, n);
      && (key in r ==> r[key] < n && IsNamed(es[r[key]], key))
      && (forall i :: 0 <= i < n && IsNamed(es[i], key) ==> key in r && r[key] <= i)
  {
    if n > 0 {
      NamesOwn(es, n - 1, key);
    }
  }

  lemma {:induction false} AliasesOwn(owners: map<string, nat>, e: Environment, n: nat, i: nat, key: string)
    requires n <= |e.aliases|
    ensures var r := OwnAliases(owners, e.aliases, n, i);
      && (key in owners ==> key in r && r[key] == owners[key])
      && (key !in owners && key in r ==> r[key] == i)
      && (key !in owners ==> (key in r <==> exists k :: 0 <= k < n && Lower(e.aliases[k]) == key))
  {
    if n > 0 {
      AliasesOwn(owners, e, n - 1, i, key);
    }
  }

  lemma {:induction false} FirstOwns(es: seq<Environment>, n: nat, key: string)
    requires n <= |es|
    ensures var r, names := OwnAll(es, n), OwnNames(es, |es|);
      if key in names then key in r && r[key] == names[key]
      else
        && (key in r ==> r[key] < n && HasAlias(es[r[key]], key))
        && (forall i :: 0 <= i < n && HasAlias(es[i], key) ==> key in r && r[key] <= i)
  {
    hide OwnNames;
    if n > 0 {
      FirstOwns(es, n - 1, key);
      AliasesOwn(OwnAll(es, n - 1), es[n - 1], |es[n - 1].aliases|, n - 1, key);
    }
  }

  /** A value is owned by the first environment of that name, else by the first that has it as an alias. */
  lemma OwnersAre(es: seq<Environment>, key: string, i: nat)
    ensures key in OwnersOf(es) && OwnersOf(es)[key] == i <==>
      && i < |es|
      && if exists j :: 0 <= j < |es| && IsNamed(es[j], key) then
           IsNamed(es[i], key) && forall j :: 0 <= j < i ==> !IsNamed(es[j], key)
         else HasAlias(es[i], key) && forall j :: 0 <= j < i ==> !HasAlias(es[j], key)
  {
    NamesOwn(es, |es|, key);
    FirstOwns(es, |es|, key);
    hide OwnNames, OwnAll, IsNamed, HasAlias;
  }

  // ------------------------------------------------------------------ environments without their aliases

  function Bare(es: seq<Environment>): seq<Environment> {
    seq(|es|, i requires 0 <= i < |es| => es[i].(aliases := []))
  }

  lemma {:induction false} BareOrder(es: seq<Environment>)
    ensures NextOrder(Bare(es)) == NextOrder(es)
  {
    if |es| > 1 {
      var front := es[..|es| - 1];
      BareOrder(front);
      assert Bare(es)[..|front|] == Bare(front);
    }
  }

  lemma {:induction false} EachIsCounted(d: Draft, t: nat, values: seq<string>, n: nat)
    requires Fits(d) && t < |d.environments| && n <= |values|
    ensures var r := GroupEach(d, t, values, n);
      Bare(r.environments) == Bare(d.environments) && r.grouped == d.grouped + n && r.created == d.created
    decreases n
  {
    if n > 0 {
      EachIsCounted(d, t, values, n - 1);
      OneIsCounted(GroupEach(d, t, values, n - 1), t, values[n - 1]);
    }
  }

  lemma OneIsCounted(d: Draft, t: nat, value: string)
    requires Fits(d) && t < |d.environments|
    ensures var r := GroupValue(d, t, value);
      Bare(r.environments) == Bare(d.environments) && r.grouped == d.grouped + 1 && r.created == d.created
  {
  }

  lemma TargetIsCounted(d: Draft, family: Family)
    requires Fits(d)
    ensures var r := WithTarget(d, family);
      && Bare(r.environments) == Bare(d.environments)
           + (if family.name in d.owners then [] else [FamilyEnvironment(family, NextOrder(d.environments))])
      && r.grouped == d.grouped && r.created == d.created + if family.name in d.owners then 0 else 1
  {
  }

  lemma FamilyIsCounted(d: Draft, f: nat, values: seq<string>)
    requires Fits(d) && f < |FAMILIES|
    ensures var r, isNew := GroupFamily(d, f, values), values != [] && FAMILIES[f].name !in d.owners;
      && Bare(r.environments) == Bare(d.environments)
           + (if isNew then [FamilyEnvironment(FAMILIES[f], NextOrder(d.environments))] else [])
      && r.grouped == d.grouped + |values| && r.created == d.created + if isNew then 1 else 0
  {
    if values == [] {
      assert Bare(d.environments) + [] == Bare(d.environments);
    } else {
      var ready := WithTarget(d, FAMILIES[f]);
      TargetIsCounted(d, FAMILIES[f]);
      EachIsCounted(ready, ready.owners[FAMILIES[f].name], values, |values|);
    }
  }

  // ------------------------------------------------------------------ the environments that are made

  /** The new ones among the first n families. */
  function NewFamilies(s: Settings, received: seq<string>, n: nat): (r: seq<nat>)
    requires n <= |FAMILIES|
    ensures forall k :: 0 <= k < |r| ==> r[k] < n
  {
    if n == 0 then []
    else NewFamilies(s, received, n - 1) + if IsNew(s, received, n - 1) then [n - 1] else []
  }

  /** The environment of a family, of its name, title and kind, right after all those before it. */
  predicate IsMadeFor(e: Environment, family: Family, before: seq<Environment>) {
    && e.name == family.name && e.title == family.title && e.kind == family.kind && e.color == "" && !e.hidden
    && (forall b :: b in before ==> b.order < e.order)
    && (if before == [] then e.order == 0 else exists b :: b in before && e.order == b.order + 1)
  }

  lemma {:induction false} MaxOrderIs(es: seq<Environment>)
    requires es != []
    ensures forall e :: e in es ==> e.order <= MaxOrder(es)
    ensures exists e :: e in es && e.order == MaxOrder(es)
  {
    var front, last := es[..|es| - 1], es[|es| - 1];
    assert es == front + [last];
    if |es| > 1 {
      MaxOrderIs(front);
      var e :| e in front && e.order == MaxOrder(front);
      assert e in es;
    }
    assert last in es;
  }

  lemma MadeFor(family: Family, before: seq<Environment>)
    ensures IsMadeFor(FamilyEnvironment(family, NextOrder(before)), family, before)
  {
    if before != [] {
      MaxOrderIs(before);
    }
  }

  /** Each environment from an offset on is the one of a family. */
  predicate AreMadeFor(es: seq<Environment>, from: nat, families: seq<nat>) {
    && |es| == from + |families|
    && forall k :: 0 <= k < |families| ==>
         families[k] < |FAMILIES| && IsMadeFor(es[from + k], FAMILIES[families[k]], es[..from + k])
  }

  lemma OneMoreIsMade(es: seq<Environment>, from: nat, families: seq<nat>, f: nat)
    requires AreMadeFor(es, from, families) && f < |FAMILIES|
    ensures AreMadeFor(es + [FamilyEnvironment(FAMILIES[f], NextOrder(es))], from, families + [f])
  {
    var e := FamilyEnvironment(FAMILIES[f], NextOrder(es));
    MadeFor(FAMILIES[f], es);
    assert (es + [e])[..|es|] == es;
    forall k | 0 <= k < |families|
      ensures IsMadeFor((es + [e])[from + k], FAMILIES[families[k]], (es + [e])[..from + k])
    {
      assert (es + [e])[..from + k] == es[..from + k];
    }
  }

  function PendingOf(s: Settings, received: seq<string>): seq<string> {
    Pending(received, |received|, Start(s).owners)
  }

  /** How many pending values are of the first n families. */
  function Below(pending: seq<string>, n: nat): nat {
    if pending == [] then 0
    else Below(pending[..|pending| - 1], n) + if FamilyOf(pending[|pending| - 1]) < n then 1 else 0
  }

  lemma {:induction false} InsertedIsCounted(v: string, sorted: seq<string>)
    ensures |InsertValue(v, sorted)| == |sorted| + 1
  {
    if sorted != [] && Precedes(Upper(v), Upper(sorted[|sorted| - 1])) {
      InsertedIsCounted(v, sorted[..|sorted| - 1]);
    }
  }

  lemma {:induction false} BelowNext(pending: seq<string>, n: nat)
    ensures Below(pending, n + 1) == Below(pending, n) + |ValuesOf(pending, n)|
    ensures Below(pending, 0) == 0
  {
    hide FamilyOf, InsertValue;
    if pending != [] {
      var front := pending[..|pending| - 1];
      BelowNext(front, n);
      InsertedIsCounted(pending[|pending| - 1], ValuesOf(front, n));
    }
  }

  lemma {:induction false} AllAreBelow(pending: seq<string>)
    requires forall i :: 0 <= i < |pending| ==> IsUsual(pending[i])
    ensures Below(pending, |FAMILIES|) == |pending|
  {
    hide FamilyOf;
    if pending != [] {
      assert IsUsual(pending[|pending| - 1]);
      AllAreBelow(pending[..|pending| - 1]);
    }
  }

  /** What the grouping of the first n families has made and counted. */
  predicate HasMade(s: Settings, received: seq<string>, n: nat, d: Draft)
    requires n <= |FAMILIES|
  {
    && AreMadeFor(Bare(d.environments), |Copies(s.environments)|, NewFamilies(s, received, n))
    && d.created == |NewFamilies(s, received, n)|
    && d.grouped == Below(PendingOf(s, received), n)
  }

  lemma {:induction false} AllAreMade(s: Settings, received: seq<string>, n: nat)
    requires n <= |FAMILIES|
    ensures HasMade(s, received, n, GroupAll(Start(s), PendingOf(s, received), n))
    decreases n
  {
    NothingIsMade(s, received);
    hide HasMade, GroupFamily, IsNew, Copies, OwnersOf, Pending;
    if n > 0 {
      AllAreMade(s, received, n - 1);
      FamilyIsMade(s, received, n - 1);
    }
  }

  lemma NothingIsMade(s: Settings, received: seq<string>)
    ensures HasMade(s, received, 0, Start(s))
  {
    BelowNext(PendingOf(s, received), 0);
  }

  lemma FamilyIsMade(s: Settings, received: seq<string>, f: nat)
    requires f < |FAMILIES| && HasMade(s, received, f, GroupAll(Start(s), PendingOf(s, received), f))
    ensures HasMade(s, received, f + 1,
      GroupFamily(GroupAll(Start(s), PendingOf(s, received), f), f, ValuesOf(PendingOf(s, received), f)))
  {
    var d, pending := Start(s), PendingOf(s, received);
    var before, values := GroupAll(d, pending, f), ValuesOf(pending, f);
    NewExactlyWhen(s, received, f);
    hide GroupAll, GroupFamily, IsNew, AreMadeFor, ValuesOf, Pending, OwnersOf, Copies, Below,
      FamilyEnvironment, NextOrder;
    FamilyIsCounted(before, f, values);
    BareOrder(before.environments);
    BelowNext(pending, f);
    OneMoreIsMade(Bare(before.environments), |Copies(s.environments)|, NewFamilies(s, received, f), f);
    assert Bare(before.environments) + [] == Bare(before.environments);
    assert NewFamilies(s, received, f) + [] == NewFamilies(s, received, f);
  }

  lemma NewExactlyWhen(s: Settings, received: seq<string>, f: nat)
    requires f < |FAMILIES|
    ensures var before := GroupAll(Start(s), PendingOf(s, received), f);
      IsNew(s, received, f) <==> ValuesOf(PendingOf(s, received), f) != [] && FAMILIES[f].name !in before.owners
  {
    var d := Start(s);
    var pending := PendingOf(s, received);
    OwnersAgree(d.environments);
    PendingIsExact(received, |received|, d.owners);
    NameIsOwnedBefore(d, pending, f);
    PendingOfFamily(s, received, f);
  }

  /**
   The proposal has the environments of the draft, then one for each family that the draft does not name and of which
   it lacks a value received: of the name, title and kind of the family, and next in order. `created` counts them.
   */
  lemma NewEnvironmentsAre(s: Settings, received: seq<string>)
    ensures var es, from := Proposal(s, received).environments, |Copies(s.environments)|;
      && AreMadeFor(es, from, NewFamilies(s, received, |FAMILIES|))
      && Proposed(s, received).created == |es| - from
  {
    AllAreMade(s, received, |FAMILIES|);
    hide NewFamilies, Proposed, Copies, IsMadeFor;
    var es := Proposal(s, received).environments;
    AreMadeAlike(es, |Copies(s.environments)|, NewFamilies(s, received, |FAMILIES|));
  }

  /** Aliases do not matter. */
  lemma AreMadeAlike(es: seq<Environment>, from: nat, families: seq<nat>)
    requires AreMadeFor(Bare(es), from, families)
    ensures AreMadeFor(es, from, families)
  {
    hide IsMadeFor;
    forall k | 0 <= k < |families| ensures IsMadeFor(es[from + k], FAMILIES[families[k]], es[..from + k]) {
      assert Bare(es)[..from + k] == Bare(es[..from + k]);
      IsMadeAlike(es[from + k], FAMILIES[families[k]], es[..from + k]);
    }
  }

  lemma IsMadeAlike(e: Environment, family: Family, before: seq<Environment>)
    requires IsMadeFor(e.(aliases := []), family, Bare(before))
    ensures IsMadeFor(e, family, before)
  {
    SameOrders(before);
  }

  lemma SameOrders(es: seq<Environment>)
    ensures forall b :: b in es ==> exists c :: c in Bare(es) && c.order == b.order
    ensures forall c :: c in Bare(es) ==> exists b :: b in es && b.order == c.order
  {
    forall b | b in es ensures exists c :: c in Bare(es) && c.order == b.order {
      var i :| 0 <= i < |es| && es[i] == b;
      assert Bare(es)[i] in Bare(es);
    }
    forall c | c in Bare(es) ensures exists b :: b in es && b.order == c.order {
      var i :| 0 <= i < |es| && Bare(es)[i] == c;
      assert es[i] in es;
    }
  }

  // ------------------------------------------------------------------ how many values are grouped

  /** The usual values received that the draft has nowhere, whatever their case. */
  function Missing(s: Settings, received: seq<string>): set<string> {
    set j | 0 <= j < |received| && Trim(received[j]) != "" && IsUsual(received[j])
      && Lower(received[j]) !in Start(s).owners :: Lower(received[j])
  }

  function KeysOfAll(values: seq<string>): set<string> {
    set i | 0 <= i < |values| :: Lower(values[i])
  }

  lemma {:induction false} DistinctAreCounted(values: seq<string>)
    requires AreDistinct(values)
    ensures |KeysOfAll(values)| == |values|
  {
    if values != [] {
      var front, last := values[..|values| - 1], values[|values| - 1];
      DistinctAreCounted(front);
      assert KeysOfAll(values) == KeysOfAll(front) + {Lower(last)};
      assert Lower(last) !in KeysOfAll(front);
    }
  }

  lemma PendingAreMissing(s: Settings, received: seq<string>)
    ensures KeysOfAll(PendingOf(s, received)) == Missing(s, received)
  {
    var owners, pending := Start(s).owners, PendingOf(s, received);
    PendingIsExact(received, |received|, owners);
    forall key | key in KeysOfAll(pending) ensures key in Missing(s, received) {
      var i :| 0 <= i < |pending| && Lower(pending[i]) == key;
      var j :| 0 <= j < |received| && received[j] == pending[i];
    }
    forall key | key in Missing(s, received) ensures key in KeysOfAll(pending) {
      var j :| 0 <= j < |received| && Trim(received[j]) != "" && IsUsual(received[j])
        && Lower(received[j]) !in owners && Lower(received[j]) == key;
      PendingIsComplete(received, |received|, owners, j);
    }
  }

  /** A value is grouped as it was written first. */
  lemma {:induction false} FirstIsPending(received: seq<string>, n: nat, owners: map<string, nat>, v: string)
    requires n <= |received| && v in Pending(received, n, owners)
    ensures exists j :: IsFirstWriting(received, n, v, j)
    decreases n
  {
    hide IsPending;
    var before := Pending(received, n - 1, owners);
    if v in before {
      FirstIsPending(received, n - 1, owners, v);
      var j :| IsFirstWriting(received, n - 1, v, j);
      assert IsFirstWriting(received, n, v, j);
    } else {
      NewIsFirst(received, n, owners);
    }
  }

  lemma NewIsFirst(received: seq<string>, n: nat, owners: map<string, nat>)
    requires 0 < n <= |received| && IsPending(received[n - 1], owners, Pending(received, n - 1, owners))
    ensures IsFirstWriting(received, n, received[n - 1], n - 1)
  {
    hide FamilyOf, Trim, Lower, Pending, HasKey;
    var v := received[n - 1];
    forall k | 0 <= k < n - 1 ensures Lower(received[k]) != Lower(v) {
      if Lower(received[k]) == Lower(v) {
        FamilyOfKey(received[k], v);
        BlankAlike(received[k], v);
        PendingIsComplete(received, n - 1, owners, k);
      }
    }
  }

  predicate IsFirstWriting(received: seq<string>, n: nat, v: string, j: int)
    requires n <= |received|
  {
    0 <= j < n && received[j] == v && forall k :: 0 <= k < j ==> Lower(received[k]) != Lower(v)
  }

  lemma BlankAlike(v: string, w: string)
    requires Lower(v) == Lower(w)
    ensures Trim(v) == "" <==> Trim(w) == ""
  {
    LowerTrim(v);
    LowerTrim(w);
    assert |Lower(Trim(v))| == |Trim(v)| && |Lower(Trim(w))| == |Trim(w)|;
  }

  /** `grouped` counts the usual values received that the draft has nowhere, each once whatever its case. */
  lemma GroupedAre(s: Settings, received: seq<string>)
    ensures Proposed(s, received).grouped == |Missing(s, received)|
  {
    hide FamilyOf, Trim, Lower, OwnersOf, GroupAll, Pending;
    AllAreMade(s, received, |FAMILIES|);
    PendingIsExact(received, |received|, Start(s).owners);
    DistinctAreCounted(PendingOf(s, received));
    PendingAreMissing(s, received);
    AllAreBelow(PendingOf(s, received));
  }

  // ------------------------------------------------------------------ in which order values are grouped

  /** Not after, in capitals. */
  predicate IsNotAfter(a: string, b: string) {
    !Precedes(Upper(b), Upper(a))
  }

  lemma NotAfterTwice(a: string, b: string, c: string)
    requires IsNotAfter(a, b) && IsNotAfter(b, c)
    ensures IsNotAfter(a, c)
  {
    var x, y, z := Upper(a), Upper(b), Upper(c);
    PrecedesTotal(y, z);
    if Precedes(z, x) && Precedes(y, z) {
      PrecedesTransitive(y, z, x);
    }
  }

  predicate AreSorted(values: seq<string>) {
    forall i, j :: 0 <= i < j < |values| ==> IsNotAfter(values[i], values[j])
  }

  lemma {:induction false} InsertedAreSorted(v: string, sorted: seq<string>)
    requires AreSorted(sorted)
    ensures AreSorted(InsertValue(v, sorted))
  {
    hide IsNotAfter;
    if sorted != [] {
      var front, last := sorted[..|sorted| - 1], sorted[|sorted| - 1];
      var after := LastIsNotAfter(v, last);
      if after {
        forall i | 0 <= i < |sorted| ensures IsNotAfter(sorted[i], v) {
          if i < |front| {
            NotAfterTwice(sorted[i], last, v);
          }
        }
      } else {
        InsertedAreSorted(v, front);
        InsertedIsExact(v, front);
        var r := InsertValue(v, front);
        forall i | 0 <= i < |r| ensures IsNotAfter(r[i], last) {
          assert r[i] in r;
          if r[i] != v {
            var k :| 0 <= k < |front| && front[k] == r[i];
            assert IsNotAfter(sorted[k], sorted[|front|]);
          }
        }
      }
    }
  }

  /** How the insertion goes on: before the last, or after it. */
  lemma LastIsNotAfter(v: string, last: string) returns (after: bool)
    ensures after <==> !Precedes(Upper(v), Upper(last))
    ensures after ==> IsNotAfter(last, v)
    ensures !after ==> IsNotAfter(v, last)
  {
    PrecedesTotal(Upper(v), Upper(last));
    after := !Precedes(Upper(v), Upper(last));
  }

  lemma {:induction false} ValuesAreSorted(pending: seq<string>, f: nat)
    ensures AreSorted(ValuesOf(pending, f))
    ensures forall w :: w in ValuesOf(pending, f) ==> FamilyOf(w) == f
  {
    if pending != [] {
      hide InsertValue, AreSorted, FamilyOf;
      var front, v := pending[..|pending| - 1], pending[|pending| - 1];
      ValuesAreSorted(front, f);
      InsertedAreSorted(v, ValuesOf(front, f));
      InsertedIsExact(v, ValuesOf(front, f));
    }
  }

  /** By families, and within one in the order of the texts in capitals. */
  predicate ComesBefore(a: string, b: string) {
    FamilyOf(a) < FamilyOf(b) || (FamilyOf(a) == FamilyOf(b) && IsNotAfter(a, b))
  }

  /** The aliases after the first ones are in order. */
  predicate AreInOrder(aliases: seq<string>, first: nat) {
    forall a, b :: first <= a < b < |aliases| ==> ComesBefore(aliases[a], aliases[b])
  }

  /** How many aliases an environment had, none for a new one. */
  function Had(es: seq<Environment>, i: nat): nat {
    if i < |es| then |es[i].aliases| else 0
  }

  /** What was added is in order, and each value of it comes before those that are still to be grouped. */
  predicate AddsInOrder(before: seq<Environment>, after: seq<Environment>, rest: seq<string>) {
    forall i :: 0 <= i < |after| ==>
      AreInOrder(after[i].aliases, Had(before, i)) && AllBefore(after[i].aliases, Had(before, i), rest)
  }

  predicate AllBefore(aliases: seq<string>, first: nat, rest: seq<string>) {
    forall a, v :: first <= a < |aliases| && v in rest ==> ComesBefore(aliases[a], v)
  }

  lemma OneMoreInOrder(before: seq<Environment>, d: Draft, t: nat, value: string, rest: seq<string>)
    requires Fits(d) && t < |d.environments| && AddsInOrder(before, d.environments, [value] + rest)
    requires forall v :: v in rest ==> ComesBefore(value, v)
    ensures AddsInOrder(before, GroupValue(d, t, value).environments, rest)
  {
    hide ComesBefore;
    var es := GroupValue(d, t, value).environments;
    forall i | 0 <= i < |es|
      ensures AreInOrder(es[i].aliases, Had(before, i)) && AllBefore(es[i].aliases, Had(before, i), rest)
    {
      assert value in [value] + rest && forall v :: v in rest ==> v in [value] + rest;
      assert AreInOrder(d.environments[i].aliases, Had(before, i));
      assert AllBefore(d.environments[i].aliases, Had(before, i), [value] + rest);
    }
  }

  lemma {:induction false} EachInOrder(before: seq<Environment>, d: Draft, t: nat, values: seq<string>, n: nat)
    requires Fits(d) && t < |d.environments| && n <= |values| && AreSorted(values)
    requires (forall v, w :: v in values && w in values ==> FamilyOf(v) == FamilyOf(w))
    requires AddsInOrder(before, d.environments, values)
    ensures AddsInOrder(before, GroupEach(d, t, values, n).environments, values[n..])
    decreases n
  {
    if n == 0 {
      assert values[0..] == values;
    } else {
      hide AddsInOrder, FamilyOf, IsNotAfter, GroupValue;
      EachInOrder(before, d, t, values, n - 1);
      var value := values[n - 1];
      assert values[n - 1..] == [value] + values[n..];
      forall v | v in values[n..] ensures ComesBefore(value, v) {
        var k :| n <= k < |values| && values[k] == v;
        assert IsNotAfter(values[n - 1], values[k]);
        assert value in values && v in values;
      }
      OneMoreInOrder(before, GroupEach(d, t, values, n - 1), t, value, values[n..]);
    }
  }

  /** What was added is in order, of the first n families. */
  predicate AddsUpTo(before: seq<Environment>, after: seq<Environment>, n: nat) {
    |before| <= |after| && forall i :: 0 <= i < |after| ==>
      AreInOrder(after[i].aliases, Had(before, i)) && AreBelow(after[i].aliases, Had(before, i), n)
  }

  predicate AreBelow(aliases: seq<string>, first: nat, n: nat) {
    forall a :: first <= a < |aliases| ==> FamilyOf(aliases[a]) < n
  }

  predicate AllBelow(before: seq<Environment>, after: seq<Environment>, n: nat) {
    forall i :: 0 <= i < |after| ==> AreBelow(after[i].aliases, Had(before, i), n)
  }

  lemma {:induction false} EachBelow(before: seq<Environment>, d: Draft, t: nat, values: seq<string>, n: nat, m: nat)
    requires Fits(d) && t < |d.environments| && n <= |values| && AllBelow(before, d.environments, m)
    requires forall v :: v in values ==> FamilyOf(v) < m
    ensures AllBelow(before, GroupEach(d, t, values, n).environments, m)
    decreases n
  {
    if n > 0 {
      hide AllBelow, FamilyOf, GroupValue;
      EachBelow(before, d, t, values, n - 1, m);
      OneBelow(before, GroupEach(d, t, values, n - 1), t, values[n - 1], m);
    }
  }

  lemma OneBelow(before: seq<Environment>, d: Draft, t: nat, value: string, m: nat)
    requires Fits(d) && t < |d.environments| && AllBelow(before, d.environments, m) && FamilyOf(value) < m
    ensures AllBelow(before, GroupValue(d, t, value).environments, m)
  {
    hide FamilyOf;
    var es := GroupValue(d, t, value).environments;
    forall i | 0 <= i < |es| ensures AreBelow(es[i].aliases, Had(before, i), m) {
      assert AreBelow(d.environments[i].aliases, Had(before, i), m);
    }
  }

  lemma FamilyInOrder(before: seq<Environment>, d: Draft, f: nat, pending: seq<string>)
    requires Fits(d) && f < |FAMILIES| && AddsUpTo(before, d.environments, f)
    ensures AddsUpTo(before, GroupFamily(d, f, ValuesOf(pending, f)).environments, f + 1)
  {
    var values := ValuesOf(pending, f);
    ValuesAreSorted(pending, f);
    hide FamilyOf, ValuesOf, AreSorted, IsNotAfter;
    if values == [] {
      forall i | 0 <= i < |d.environments| ensures AreBelow(d.environments[i].aliases, Had(before, i), f + 1) {
        assert AreBelow(d.environments[i].aliases, Had(before, i), f);
      }
    } else {
      var ready := WithTarget(d, FAMILIES[f]);
      TargetInOrder(before, d, f, values);
      var t := ready.owners[FAMILIES[f].name];
      EachInOrder(before, ready, t, values, |values|);
      EachBelow(before, ready, t, values, |values|, f + 1);
      var es := GroupEach(ready, t, values, |values|).environments;
      forall i | 0 <= i < |es|
        ensures AreInOrder(es[i].aliases, Had(before, i)) && AreBelow(es[i].aliases, Had(before, i), f + 1)
      {
        assert AreInOrder(es[i].aliases, Had(before, i)) && AreBelow(es[i].aliases, Had(before, i), f + 1);
      }
    }
  }

  lemma TargetInOrder(before: seq<Environment>, d: Draft, f: nat, values: seq<string>)
    requires Fits(d) && f < |FAMILIES| && AddsUpTo(before, d.environments, f)
    requires forall v :: v in values ==> FamilyOf(v) == f
    ensures var es := WithTarget(d, FAMILIES[f]).environments;
      |before| <= |es| && AddsInOrder(before, es, values) && AllBelow(before, es, f + 1)
  {
    hide FamilyOf;
    var es := WithTarget(d, FAMILIES[f]).environments;
    forall i | 0 <= i < |es|
      ensures AreInOrder(es[i].aliases, Had(before, i)) && AllBefore(es[i].aliases, Had(before, i), values)
      ensures AreBelow(es[i].aliases, Had(before, i), f + 1)
    {
      if i < |d.environments| {
        assert es[i] == d.environments[i];
        assert AreInOrder(es[i].aliases, Had(before, i)) && AreBelow(es[i].aliases, Had(before, i), f);
      }
    }
  }

  lemma NothingIsAdded(es: seq<Environment>)
    ensures AddsUpTo(es, es, 0)
  {
  }

  lemma {:induction false} AllInOrder(d: Draft, pending: seq<string>, n: nat)
    requires Fits(d) && n <= |FAMILIES|
    ensures AddsUpTo(d.environments, GroupAll(d, pending, n).environments, n)
    decreases n
  {
    NothingIsAdded(d.environments);
    hide AddsUpTo, GroupFamily;
    if n > 0 {
      AllInOrder(d, pending, n - 1);
      FamilyInOrder(d.environments, GroupAll(d, pending, n - 1), n - 1, pending);
    }
  }

  /** The values that an environment is given come by families, and within one in the order of their capitals. */
  lemma ValuesAreGroupedInOrder(s: Settings, received: seq<string>, i: nat)
    requires i < |Proposal(s, received).environments|
    ensures AreInOrder(Proposal(s, received).environments[i].aliases, Had(Start(s).environments, i))
  {
    hide AreInOrder;
    AllInOrder(Start(s), PendingOf(s, received), |FAMILIES|);
  }
}
