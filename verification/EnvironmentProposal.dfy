/**
 What the automatic grouping keeps, and what it brings: every owner keeps what it owns, every usual value received ends
 in one environment, and grouping again changes nothing.
 */
module EnvironmentProposal {
  import opened Strings
  import opened EnvironmentText
  import opened EnvironmentCheck
  import opened EnvironmentStore
  import opened EnvironmentSuggestion
  import opened Ledger

  // ------------------------------------------------------------------ the values of an environment

  function AliasKeys(aliases: seq<string>): set<string> {
    if aliases == [] then {} else AliasKeys(aliases[..|aliases| - 1]) + {Lower(aliases[|aliases| - 1])}
  }

  /** The keys of the name and of the aliases. */
  function KeysOf(e: Environment): set<string> {
    {Lower(e.name)} + AliasKeys(e.aliases)
  }

  function AllKeys(es: seq<Environment>): seq<set<string>> {
    seq(|es|, i requires 0 <= i < |es| => KeysOf(es[i]))
  }

  /** Names for all environments, aliases for those before n. */
  function SomeKeys(es: seq<Environment>, n: nat): seq<set<string>> {
    seq(|es|, i requires 0 <= i < |es| => if i < n then KeysOf(es[i]) else {Lower(es[i].name)})
  }

  function NameKeys(es: seq<Environment>, n: nat): seq<set<string>> {
    seq(|es|, i requires 0 <= i < |es| => if i < n then {Lower(es[i].name)} else {})
  }

  lemma TryAddAgrees(owners: Owners, sets: seq<set<string>>, value: string, i: nat)
    requires Agree(owners, sets) && i < |sets|
    ensures Agree(TryAdd(owners, value, i), sets[i := sets[i] + {Lower(value)}])
  {
    AddedAgrees(owners, sets, i, Lower(value));
    if Lower(value) in owners && owners[Lower(value)] == i {
      assert owners[Lower(value) := i] == owners;
    }
  }

  lemma {:induction false} NamesAgree(es: seq<Environment>, n: nat)
    requires n <= |es|
    ensures Agree(OwnNames(es, n), NameKeys(es, n))
  {
    if n > 0 {
      NamesAgree(es, n - 1);
      var sets := NameKeys(es, n - 1);
      TryAddAgrees(OwnNames(es, n - 1), sets, es[n - 1].name, n - 1);
      assert sets[n - 1] + {Lower(es[n - 1].name)} == {Lower(es[n - 1].name)};
      assert sets[n - 1 := sets[n - 1] + {Lower(es[n - 1].name)}] == NameKeys(es, n);
    }
  }

  lemma {:induction false} AliasesAgree(owners: Owners, sets: seq<set<string>>, aliases: seq<string>, n: nat, i: nat)
    requires Agree(owners, sets) && i < |sets| && n <= |aliases|
    ensures Agree(OwnAliases(owners, aliases, n, i), sets[i := sets[i] + AliasKeys(aliases[..n])])
  {
    if n == 0 {
      assert sets[i] + AliasKeys(aliases[..0]) == sets[i];
      assert sets[i := sets[i]] == sets;
    } else {
      AliasesAgree(owners, sets, aliases, n - 1, i);
      var before := sets[i := sets[i] + AliasKeys(aliases[..n - 1])];
      TryAddAgrees(OwnAliases(owners, aliases, n - 1, i), before, aliases[n - 1], i);
      assert aliases[..n][..n - 1] == aliases[..n - 1];
      assert before[i] + {Lower(aliases[n - 1])} == sets[i] + AliasKeys(aliases[..n]);
      assert before[i := before[i] + {Lower(aliases[n - 1])}] == sets[i := sets[i] + AliasKeys(aliases[..n])];
    }
  }

  lemma {:induction false} AllAgree(es: seq<Environment>, n: nat)
    requires n <= |es|
    ensures Agree(OwnAll(es, n), SomeKeys(es, n))
  {
    if n == 0 {
      NamesAgree(es, |es|);
      assert NameKeys(es, |es|) == SomeKeys(es, 0);
    } else {
      AllAgree(es, n - 1);
      var sets, aliases := SomeKeys(es, n - 1), es[n - 1].aliases;
      AliasesAgree(OwnAll(es, n - 1), sets, aliases, |aliases|, n - 1);
      assert aliases[..|aliases|] == aliases;
      assert sets[n - 1 := sets[n - 1] + AliasKeys(aliases)] == SomeKeys(es, n);
    }
  }

  /** The owners built from environments agree with them. */
  lemma OwnersAgree(es: seq<Environment>)
    ensures Agree(OwnersOf(es), AllKeys(es))
  {
    AllAgree(es, |es|);
    assert SomeKeys(es, |es|) == AllKeys(es);
  }

  // ------------------------------------------------------------------ one value more

  /** Only aliases were added, at the end of those of each environment, and environments at the end of the list. */
  predicate IsGrown(before: seq<Environment>, after: seq<Environment>) {
    |before| <= |after| && forall i :: 0 <= i < |before| ==> HasGrown(before[i], after[i])
  }

  predicate HasGrown(before: Environment, after: Environment) {
    before.aliases <= after.aliases && after.(aliases := before.aliases) == before
  }

  lemma GrownTwice(a: seq<Environment>, b: seq<Environment>, c: seq<Environment>)
    requires IsGrown(a, b) && IsGrown(b, c)
    ensures IsGrown(a, c)
  {
    forall i | 0 <= i < |a| ensures HasGrown(a[i], c[i]) {
      assert HasGrown(a[i], b[i]) && HasGrown(b[i], c[i]);
    }
  }

  predicate IsSound(d: Draft) {
    Fits(d) && Agree(d.owners, AllKeys(d.environments))
  }

  predicate Keeps(d: Draft, r: Draft) {
    && IsSound(r) && Extends(d.owners, r.owners) && IsGrown(d.environments, r.environments)
    && (IsSole(AllKeys(d.environments)) ==> IsSole(AllKeys(r.environments)))
  }

  lemma KeepsTwice(a: Draft, b: Draft, c: Draft)
    requires Keeps(a, b) && Keeps(b, c)
    ensures Keeps(a, c)
  {
    GrownTwice(a.environments, b.environments, c.environments);
  }

  lemma GroupingAddsKey(e: Environment, value: string)
    ensures KeysOf(Grouping(e, value)) == KeysOf(e) + {Lower(value)} && HasGrown(e, Grouping(e, value))
  {
    if !SameText(value, e.name) {
      assert (e.aliases + [value])[..|e.aliases|] == e.aliases;
    }
  }

  lemma KeepsItself(d: Draft)
    requires IsSound(d)
    ensures Keeps(d, d)
  {
  }

  /** A value that nobody owns, or that the target owns, goes to the target; nothing else changes. */
  lemma ValueKeeps(d: Draft, t: nat, value: string)
    requires IsSound(d) && t < |d.environments|
    requires Lower(value) in d.owners ==> d.owners[Lower(value)] == t
    ensures Keeps(d, GroupValue(d, t, value))
  {
    var r := GroupValue(d, t, value);
    var sets := AllKeys(d.environments);
    GroupingAddsKey(d.environments[t], value);
    assert AllKeys(r.environments) == sets[t := sets[t] + {Lower(value)}];
    AddedAgrees(d.owners, sets, t, Lower(value));
    if IsSole(sets) {
      AddedIsSole(d.owners, sets, t, Lower(value));
    }
  }

  lemma TargetKeeps(d: Draft, family: Family)
    requires IsSound(d) && Lower(family.name) == family.name
    ensures Keeps(d, WithTarget(d, family))
    ensures forall key :: key in WithTarget(d, family).owners ==> key in d.owners || key == family.name
  {
    if family.name !in d.owners {
      var r := WithTarget(d, family);
      var sets := AllKeys(d.environments);
      assert KeysOf(r.environments[|d.environments|]) == {family.name};
      assert AllKeys(r.environments) == sets + [{family.name}];
      NewSetAgrees(d.owners, sets, family.name);
    }
  }

  // ------------------------------------------------------------------ pending values

  predicate AreDistinct(values: seq<string>) {
    forall i, j :: 0 <= i < j < |values| ==> Lower(values[i]) != Lower(values[j])
  }

  lemma HasKeyOfMore(values: seq<string>, more: seq<string>, key: string)
    requires HasKey(values, key)
    ensures HasKey(values + more, key)
  {
    var i :| 0 <= i < |values| && Lower(values[i]) == key;
    assert (values + more)[i] == values[i];
  }

  lemma {:induction false} PendingIsExact(received: seq<string>, n: nat, owners: Owners)
    requires n <= |received|
    ensures var p := Pending(received, n, owners);
      && AreDistinct(p)
      && (forall i :: 0 <= i < |p| ==> p[i] in received && Trim(p[i]) != "" && Lower(p[i]) !in owners && IsUsual(p[i]))
    decreases n
  {
    if n > 0 {
      PendingIsExact(received, n - 1, owners);
    }
  }

  lemma {:induction false} PendingIsComplete(received: seq<string>, n: nat, owners: Owners, j: nat)
    requires j < n <= |received| && Trim(received[j]) != "" && IsUsual(received[j])
    ensures Lower(received[j]) in owners || HasKey(Pending(received, n, owners), Lower(received[j]))
    decreases n
  {
    var before, v, key := Pending(received, n - 1, owners), received[n - 1], Lower(received[j]);
    if key !in owners {
      if j < n - 1 {
        PendingIsComplete(received, n - 1, owners, j);
        HasKeyOfMore(before, [v], key);
      } else if IsPending(v, owners, before) {
        assert (before + [v])[|before|] == v;
      }
    }
  }

  lemma {:induction false} InsertedIsExact(v: string, sorted: seq<string>)
    ensures forall w :: w in InsertValue(v, sorted) <==> w == v || w in sorted
    ensures AreDistinct(sorted) && !HasKey(sorted, Lower(v)) ==> AreDistinct(InsertValue(v, sorted))
  {
    if sorted != [] && Precedes(Upper(v), Upper(sorted[|sorted| - 1])) {
      var front, last := sorted[..|sorted| - 1], sorted[|sorted| - 1];
      InsertedIsExact(v, front);
      assert sorted == front + [last];
      if AreDistinct(sorted) && !HasKey(sorted, Lower(v)) {
        var r := InsertValue(v, front);
        assert !HasKey(front, Lower(v));
        forall i | 0 <= i < |r| ensures Lower(r[i]) != Lower(last) {
          assert r[i] in r;
          assert r[i] != v ==> r[i] in front;
        }
      }
    }
  }

  lemma {:induction false} ValuesOfAreExact(pending: seq<string>, f: nat)
    requires AreDistinct(pending)
    ensures AreDistinct(ValuesOf(pending, f))
    ensures forall w :: w in ValuesOf(pending, f) <==> w in pending && FamilyOf(w) == f
  {
    if pending != [] {
      var front, last := pending[..|pending| - 1], pending[|pending| - 1];
      ValuesOfAreExact(front, f);
      assert pending == front + [last];
      var before := ValuesOf(front, f);
      InsertedIsExact(last, before);
      forall j | 0 <= j < |before| ensures Lower(before[j]) != Lower(last) {
        assert before[j] in before;
        assert before[j] in front;
      }
    }
  }

  // ------------------------------------------------------------------ the families

  predicate AreLetters(s: string) {
    forall i :: 0 <= i < |s| ==> 'a' <= s[i] <= 'z'
  }

  lemma {:induction false} SimplifiedLetters(s: string)
    requires AreLetters(s)
    ensures Simplified(s) == s
  {
    if s != "" {
      SimplifiedLetters(s[1..]);
      assert s == [s[0]] + s[1..];
    }
  }

  lemma {:induction false} FirstFamily(word: string, g: nat, f: nat)
    requires g <= f < |FAMILIES| && word in FAMILIES[f].values
    requires forall h :: g <= h < f ==> word !in FAMILIES[h].values
    ensures FamilyFrom(word, g) == f
    decreases f - g
  {
    if g < f {
      FirstFamily(word, g + 1, f);
    }
  }

  lemma NameIsItsOwn(f: nat)
    requires f < |FAMILIES|
    ensures FAMILIES[f].name in FAMILIES[f].values
  {
    match f
    case 0 => assert FAMILIES[0].values[1] == "production";
    case 1 => assert FAMILIES[1].values[1] == "preproduction";
    case 2 => assert FAMILIES[2].values[0] == "recette";
    case 3 => assert FAMILIES[3].values[0] == "test";
    case 4 => assert FAMILIES[4].values[0] == "integration";
    case 5 => assert FAMILIES[5].values[3] == "developpement";
  }

  lemma NamesAreLetters(f: nat)
    requires f < |FAMILIES|
    ensures AreLetters(FAMILIES[f].name) && 1 <= |FAMILIES[f].name| <= 40
  {
  }

  /** The name of a family is a value of no family before it. */
  lemma NameIsNew(f: nat, g: nat)
    requires g < f < |FAMILIES|
    ensures FAMILIES[f].name !in FAMILIES[g].values
  {
    var name, values := FAMILIES[f].name, FAMILIES[g].values;
    forall i | 0 <= i < |values| ensures values[i] != name {
      assert |values[i]| == |name| ==> values[i][0] != name[0];
    }
  }

  lemma FamilyNames(f: nat)
    requires f < |FAMILIES|
    ensures FamilyFrom(FAMILIES[f].name, 0) == f
  {
    NameIsItsOwn(f);
    forall g | 0 <= g < f ensures FAMILIES[f].name !in FAMILIES[g].values {
      NameIsNew(f, g);
    }
    FirstFamily(FAMILIES[f].name, 0, f);
  }

  /** A value that is the name of a family, whatever its case, is of that family. */
  lemma NameIsOfItsFamily(v: string, f: nat)
    requires f < |FAMILIES| && Lower(v) == FAMILIES[f].name
    ensures FamilyOf(v) == f
  {
    var name := FAMILIES[f].name;
    NamesAreLetters(f);
    TrimOfTrimmed(name);
    LowerTrim(v);
    SimplifiedLetters(name);
    FamilyNames(f);
  }

  lemma LowerOfFamily(f: nat)
    requires f < |FAMILIES|
    ensures Lower(FAMILIES[f].name) == FAMILIES[f].name
  {
    NamesAreLetters(f);
    LowerLetters(FAMILIES[f].name);
  }

  lemma LowerLetters(s: string)
    requires AreLetters(s)
    ensures Lower(s) == s
  {
  }

  // ------------------------------------------------------------------ all families

  predicate AreUnowned(values: seq<string>, owners: Owners) {
    forall i :: 0 <= i < |values| ==> Lower(values[i]) !in owners
  }

  /** Each value is unowned but for the name of its family, which the target may own. */
  lemma {:induction false} EachKeeps(d: Draft, t: nat, values: seq<string>, n: nat)
    requires IsSound(d) && t < |d.environments| && n <= |values|
    requires forall i :: 0 <= i < |values| && Lower(values[i]) in d.owners ==> d.owners[Lower(values[i])] == t
    ensures Keeps(d, GroupEach(d, t, values, n))
    decreases n
  {
    if n == 0 {
      KeepsItself(d);
    } else {
      hide Keeps, GroupValue;
      EachKeeps(d, t, values, n - 1);
      OwnerOfNext(d, t, values, n - 1);
      OneMoreKeeps(d, GroupEach(d, t, values, n - 1), t, values[n - 1]);
    }
  }

  lemma OneMoreKeeps(d: Draft, before: Draft, t: nat, value: string)
    requires Keeps(d, before) && t < |before.environments|
    requires Lower(value) in before.owners ==> before.owners[Lower(value)] == t
    ensures Keeps(d, GroupValue(before, t, value))
  {
    ValueKeeps(before, t, value);
    KeepsTwice(d, before, GroupValue(before, t, value));
  }

  lemma {:induction false} EachIsOwned(d: Draft, t: nat, values: seq<string>, n: nat)
    requires Fits(d) && t < |d.environments| && n <= |values|
    ensures var r := GroupEach(d, t, values, n);
      && (forall i :: 0 <= i < n ==> Lower(values[i]) in r.owners)
      && (forall key :: key in r.owners ==> key in d.owners || HasKey(values, key))
    decreases n
  {
    if n > 0 {
      EachIsOwned(d, t, values, n - 1);
    }
  }

  lemma {:induction false} OwnerOfNext(d: Draft, t: nat, values: seq<string>, n: nat)
    requires Fits(d) && t < |d.environments| && n < |values|
    requires Lower(values[n]) in d.owners ==> d.owners[Lower(values[n])] == t
    ensures var r := GroupEach(d, t, values, n); Lower(values[n]) in r.owners ==> r.owners[Lower(values[n])] == t
  {
    OwnersOfEach(d, t, values, n, Lower(values[n]));
  }

  lemma {:induction false} OwnersOfEach(d: Draft, t: nat, values: seq<string>, n: nat, key: string)
    requires Fits(d) && t < |d.environments| && n <= |values|
    requires key in d.owners ==> d.owners[key] == t
    ensures var r := GroupEach(d, t, values, n); key in r.owners ==> r.owners[key] == t
    decreases n
  {
    if n > 0 {
      OwnersOfEach(d, t, values, n - 1, key);
    }
  }

  lemma FamilyKeeps(d: Draft, f: nat, values: seq<string>)
    requires IsSound(d) && f < |FAMILIES| && AreDistinct(values) && AreUnowned(values, d.owners)
    ensures var r := GroupFamily(d, f, values);
      && Keeps(d, r)
      && (forall i :: 0 <= i < |values| ==> Lower(values[i]) in r.owners)
      && (forall key :: key in r.owners ==> key in d.owners || key == FAMILIES[f].name || HasKey(values, key))
  {
    if values == [] {
      KeepsItself(d);
    } else {
      LowerOfFamily(f);
      TargetKeeps(d, FAMILIES[f]);
      var ready := WithTarget(d, FAMILIES[f]);
      var t := ready.owners[FAMILIES[f].name];
      EachKeeps(ready, t, values, |values|);
      EachIsOwned(ready, t, values, |values|);
      KeepsTwice(d, ready, GroupFamily(d, f, values));
    }
  }

  /** Pending values of the families from n on are still unowned; those of the families before are owned. */
  predicate IsDone(pending: seq<string>, owners: Owners, n: nat) {
    forall i :: 0 <= i < |pending| ==> (Lower(pending[i]) in owners <==> FamilyOf(pending[i]) < n)
  }

  lemma ValuesAreUnowned(pending: seq<string>, owners: Owners, f: nat)
    requires AreDistinct(pending) && IsDone(pending, owners, f)
    ensures AreUnowned(ValuesOf(pending, f), owners) && AreDistinct(ValuesOf(pending, f))
  {
    ValuesOfAreExact(pending, f);
    var values := ValuesOf(pending, f);
    forall i | 0 <= i < |values| ensures Lower(values[i]) !in owners {
      assert values[i] in values;
      assert values[i] in pending;
    }
  }

  lemma FamilyIsDone(pending: seq<string>, before: Owners, after: Owners, f: nat)
    requires f < |FAMILIES| && AreDistinct(pending) && IsDone(pending, before, f) && Extends(before, after)
    requires forall i :: 0 <= i < |ValuesOf(pending, f)| ==> Lower(ValuesOf(pending, f)[i]) in after
    requires forall key ::
               key in after
               ==> key in before || key == FAMILIES[f].name || HasKey(ValuesOf(pending, f), key)
    ensures IsDone(pending, after, f + 1)
  {
    ValuesOfAreExact(pending, f);
    forall i | 0 <= i < |pending| ensures Lower(pending[i]) in after <==> FamilyOf(pending[i]) < f + 1 {
      OneIsDone(pending, before, after, f, i);
    }
  }

  lemma KeyIsOfItsFamily(pending: seq<string>, f: nat, i: nat)
    requires AreDistinct(pending) && i < |pending| && FamilyOf(pending[i]) != f
    requires forall w :: w in ValuesOf(pending, f) <==> w in pending && FamilyOf(w) == f
    ensures !HasKey(ValuesOf(pending, f), Lower(pending[i]))
  {
    var values := ValuesOf(pending, f);
    forall j | 0 <= j < |values| ensures Lower(values[j]) != Lower(pending[i]) {
      assert values[j] in values;
      assert values[j] in pending;
    }
  }

  lemma OneIsDone(pending: seq<string>, before: Owners, after: Owners, f: nat, i: nat)
    requires f < |FAMILIES| && AreDistinct(pending) && IsDone(pending, before, f) && Extends(before, after)
             && i < |pending|
    requires forall j :: 0 <= j < |ValuesOf(pending, f)| ==> Lower(ValuesOf(pending, f)[j]) in after
    requires forall key ::
               key in after
               ==> key in before || key == FAMILIES[f].name || HasKey(ValuesOf(pending, f), key)
    requires forall w :: w in ValuesOf(pending, f) <==> w in pending && FamilyOf(w) == f
    ensures Lower(pending[i]) in after <==> FamilyOf(pending[i]) < f + 1
  {
    var v, values := pending[i], ValuesOf(pending, f);
    if FamilyOf(v) == f {
      assert v in values;
    } else if FamilyOf(v) > f && Lower(v) in after {
      KeyIsOfItsFamily(pending, f, i);
      if Lower(v) == FAMILIES[f].name {
        NameIsOfItsFamily(v, f);
      }
    }
  }

  lemma NothingIsDone(pending: seq<string>, owners: Owners)
    requires AreUnowned(pending, owners)
    ensures IsDone(pending, owners, 0)
  {
  }

  /** What grouping the values of the first n families makes of a draft. */
  predicate HasGrouped(d: Draft, pending: seq<string>, n: nat, r: Draft) {
    Keeps(d, r) && IsDone(pending, r.owners, n)
  }

  lemma {:induction false} AllKeep(d: Draft, pending: seq<string>, n: nat)
    requires IsSound(d) && n <= |FAMILIES| && AreDistinct(pending) && AreUnowned(pending, d.owners)
    ensures HasGrouped(d, pending, n, GroupAll(d, pending, n))
    decreases n
  {
    hide GroupAll, GroupFamily, HasGrouped, Agree, IsBounded, AreUnowned, AreDistinct;
    if n == 0 {
      NoneAreGrouped(d, pending);
    } else {
      AllKeep(d, pending, n - 1);
      OneFamilyMore(d, GroupAll(d, pending, n - 1), pending, n - 1);
      GroupAllStep(d, pending, n - 1);
    }
  }

  lemma NoneAreGrouped(d: Draft, pending: seq<string>)
    requires IsSound(d) && AreUnowned(pending, d.owners)
    ensures HasGrouped(d, pending, 0, GroupAll(d, pending, 0))
  {
    KeepsItself(d);
    NothingIsDone(pending, d.owners);
  }

  lemma GroupAllStep(d: Draft, pending: seq<string>, f: nat)
    requires Fits(d) && f < |FAMILIES|
    ensures GroupAll(d, pending, f + 1) == GroupFamily(GroupAll(d, pending, f), f, ValuesOf(pending, f))
  {
  }

  lemma OneFamilyMore(d: Draft, before: Draft, pending: seq<string>, f: nat)
    requires f < |FAMILIES| && AreDistinct(pending) && HasGrouped(d, pending, f, before)
    ensures HasGrouped(d, pending, f + 1, GroupFamily(before, f, ValuesOf(pending, f)))
  {
    var values := ValuesOf(pending, f);
    ValuesAreUnowned(pending, before.owners, f);
    FamilyKeeps(before, f, values);
    var r := GroupFamily(before, f, values);
    KeepsTwice(d, before, r);
    FamilyIsDone(pending, before.owners, r.owners, f);
  }

  // ------------------------------------------------------------------ who owns a new key

  /** The name of one of the first families, or a pending value of one of them. */
  predicate IsBrought(pending: seq<string>, n: nat, key: string)
    requires n <= |FAMILIES|
  {
    || (exists f :: 0 <= f < n && FAMILIES[f].name == key)
    || (exists i :: 0 <= i < |pending| && Lower(pending[i]) == key && FamilyOf(pending[i]) < n)
  }

  /** One family more takes nothing from anyone; what it adds is its name and its values. */
  lemma NextFamily(d: Draft, pending: seq<string>, f: nat)
    requires IsSound(d) && f < |FAMILIES| && AreDistinct(pending) && AreUnowned(pending, d.owners)
    ensures Extends(GroupAll(d, pending, f).owners, GroupAll(d, pending, f + 1).owners)
    ensures forall key :: key in GroupAll(d, pending, f + 1).owners ==>
      key in GroupAll(d, pending, f).owners || key == FAMILIES[f].name || HasKey(ValuesOf(pending, f), key)
  {
    AllKeep(d, pending, f);
    NextFamilyKeeps(d, GroupAll(d, pending, f), pending, f);
  }

  lemma NextFamilyKeeps(d: Draft, before: Draft, pending: seq<string>, f: nat)
    requires Keeps(d, before) && f < |FAMILIES| && AreDistinct(pending) && IsDone(pending, before.owners, f)
    ensures var r := GroupFamily(before, f, ValuesOf(pending, f));
      && Extends(before.owners, r.owners)
      && (forall key :: key in r.owners ==>
            key in before.owners || key == FAMILIES[f].name || HasKey(ValuesOf(pending, f), key))
  {
    ValuesAreUnowned(pending, before.owners, f);
    FamilyKeeps(before, f, ValuesOf(pending, f));
  }

  lemma {:induction false} NewKeysAreBrought(d: Draft, pending: seq<string>, n: nat, key: string)
    requires IsSound(d) && n <= |FAMILIES| && AreDistinct(pending) && AreUnowned(pending, d.owners)
    requires key in GroupAll(d, pending, n).owners
    ensures key in d.owners || IsBrought(pending, n, key)
    decreases n
  {
    hide GroupAll, IsBrought, Agree, IsBounded, AreUnowned, AreDistinct;
    if n == 0 {
      NothingIsGrouped(d, pending);
    } else {
      FamilyBrings(d, pending, n - 1, key);
      if key in GroupAll(d, pending, n - 1).owners {
        NewKeysAreBrought(d, pending, n - 1, key);
        BroughtByMore(pending, n - 1, key);
      }
    }
  }

  lemma NothingIsGrouped(d: Draft, pending: seq<string>)
    requires Fits(d)
    ensures GroupAll(d, pending, 0) == d
  {
  }

  lemma BroughtByMore(pending: seq<string>, f: nat, key: string)
    requires f < |FAMILIES|
    ensures IsBrought(pending, f, key) ==> IsBrought(pending, f + 1, key)
  {
  }

  lemma FamilyBrings(d: Draft, pending: seq<string>, f: nat, key: string)
    requires IsSound(d) && f < |FAMILIES| && AreDistinct(pending) && AreUnowned(pending, d.owners)
    requires key in GroupAll(d, pending, f + 1).owners
    ensures key in GroupAll(d, pending, f).owners || IsBrought(pending, f + 1, key)
  {
    hide GroupAll;
    NextFamily(d, pending, f);
    if key !in GroupAll(d, pending, f).owners && key != FAMILIES[f].name {
      ValuesAreBrought(pending, f, key);
    }
  }

  lemma ValuesAreBrought(pending: seq<string>, f: nat, key: string)
    requires f < |FAMILIES| && AreDistinct(pending) && HasKey(ValuesOf(pending, f), key)
    ensures IsBrought(pending, f + 1, key)
  {
    ValuesOfAreExact(pending, f);
    var j :| 0 <= j < |ValuesOf(pending, f)| && Lower(ValuesOf(pending, f)[j]) == key;
    var v := ValuesOf(pending, f)[j];
    assert v in ValuesOf(pending, f);
    var i :| 0 <= i < |pending| && pending[i] == v;
  }

  /** When its turn comes, the name of a family is owned only if the draft had it. */
  lemma NameIsOwnedBefore(d: Draft, pending: seq<string>, f: nat)
    requires IsSound(d) && f < |FAMILIES| && AreDistinct(pending) && AreUnowned(pending, d.owners)
    ensures FAMILIES[f].name in GroupAll(d, pending, f).owners <==> FAMILIES[f].name in d.owners
  {
    AllKeep(d, pending, f);
    var name := FAMILIES[f].name;
    if name in GroupAll(d, pending, f).owners && name !in d.owners {
      NewKeysAreBrought(d, pending, f, name);
      if g :| 0 <= g < f && FAMILIES[g].name == name {
        FamilyNames(f);
        FamilyNames(g);
      } else {
        var i :| 0 <= i < |pending| && Lower(pending[i]) == name && FamilyOf(pending[i]) < f;
        NameIsOfItsFamily(pending[i], f);
      }
    }
  }

  /** The values of a family go to the owner of its name, or to a new environment at the end. */
  lemma ValueGoesToTarget(d: Draft, f: nat, values: seq<string>, i: nat)
    requires Fits(d) && f < |FAMILIES| && AreUnowned(values, d.owners) && i < |values|
    ensures var r, key := GroupFamily(d, f, values), Lower(values[i]);
      key in r.owners && r.owners[key] == TargetOf(d, f)
  {
    var ready := WithTarget(d, FAMILIES[f]);
    var t := ready.owners[FAMILIES[f].name];
    EachIsOwned(ready, t, values, |values|);
    OwnersOfEach(ready, t, values, |values|, Lower(values[i]));
  }

  function TargetOf(d: Draft, f: nat): nat
    requires f < |FAMILIES|
  {
    if FAMILIES[f].name in d.owners then d.owners[FAMILIES[f].name] else |d.environments|
  }

  lemma {:induction false} OwnersLast(d: Draft, pending: seq<string>, m: nat, n: nat)
    requires IsSound(d) && m <= n <= |FAMILIES| && AreDistinct(pending) && AreUnowned(pending, d.owners)
    ensures Extends(GroupAll(d, pending, m).owners, GroupAll(d, pending, n).owners)
    decreases n
  {
    hide GroupAll, Extends, Agree, IsBounded, AreUnowned, AreDistinct;
    if m == n {
      ExtendsItself(GroupAll(d, pending, n).owners);
    } else {
      OwnersLast(d, pending, m, n - 1);
      NextFamily(d, pending, n - 1);
      ExtendsTwice(GroupAll(d, pending, m).owners, GroupAll(d, pending, n - 1).owners, GroupAll(d, pending, n).owners);
    }
  }

  lemma ExtendsItself(a: Owners)
    ensures Extends(a, a)
  {
  }

  lemma ExtendsTwice(a: Owners, b: Owners, c: Owners)
    requires Extends(a, b) && Extends(b, c)
    ensures Extends(a, c)
  {
  }

  /** A pending value goes to the environment that has the name of its family, or to one that the draft had not. */
  lemma OwnerOfPending(d: Draft, pending: seq<string>, i: nat)
    requires IsSound(d) && AreDistinct(pending) && AreUnowned(pending, d.owners)
    requires i < |pending| && IsUsual(pending[i])
    ensures var r, key, name := GroupAll(d, pending, |FAMILIES|), Lower(pending[i]),
            FAMILIES[FamilyOf(pending[i])].name;
      && key in r.owners
      && if name in d.owners then r.owners[key] == d.owners[name] else r.owners[key] >= |d.environments|
  {
    var f := FamilyOf(pending[i]);
    var before, values := GroupAll(d, pending, f), ValuesOf(pending, f);
    AllKeep(d, pending, f);
    NameIsOwnedBefore(d, pending, f);
    ValuesAreUnowned(pending, before.owners, f);
    ValuesOfAreExact(pending, f);
    assert pending[i] in values;
    var j :| 0 <= j < |values| && values[j] == pending[i];
    ValueGoesToTarget(before, f, values, j);
    OwnersLast(d, pending, f + 1, |FAMILIES|);
  }

  // ------------------------------------------------------------------ the proposal

  /** Each owner keeps what it owns; environments keep their place and their aliases; values stay in one environment. */
  lemma OwnershipIsKept(s: Settings, received: seq<string>)
    ensures Keeps(Start(s), Proposed(s, received))
  {
    var d := Start(s);
    OwnersAgree(d.environments);
    PendingIsExact(received, |received|, d.owners);
    AllKeep(d, Pending(received, |received|, d.owners), |FAMILIES|);
  }

  /** Every usual value received is owned. */
  lemma UsualIsOwned(s: Settings, received: seq<string>, j: nat)
    requires j < |received| && Trim(received[j]) != "" && IsUsual(received[j])
    ensures Lower(received[j]) in Proposed(s, received).owners
  {
    var d := Start(s);
    var pending := Pending(received, |received|, d.owners);
    OwnershipIsKept(s, received);
    PendingIsExact(received, |received|, d.owners);
    OwnersAgree(d.environments);
    AllKeep(d, pending, |FAMILIES|);
    PendingIsComplete(received, |received|, d.owners, j);
    if Lower(received[j]) !in d.owners {
      var i :| 0 <= i < |pending| && Lower(pending[i]) == Lower(received[j]);
      assert IsUsual(pending[i]);
    }
  }

  /** The family of a value does not depend on its case. */
  lemma FamilyOfKey(v: string, w: string)
    requires Lower(v) == Lower(w)
    ensures FamilyOf(v) == FamilyOf(w)
  {
    LowerTrim(v);
    LowerTrim(w);
  }

  /** Where a usual value received ends: where it was, with the name of its family, or in a new environment. */
  lemma OwnerOfUsual(s: Settings, received: seq<string>, j: nat)
    requires j < |received| && Trim(received[j]) != "" && IsUsual(received[j])
    ensures var d, r, key := Start(s), Proposed(s, received), Lower(received[j]);
      var name := FAMILIES[FamilyOf(received[j])].name;
      && key in r.owners
      && if key in d.owners then r.owners[key] == d.owners[key]
         else if name in d.owners then r.owners[key] == d.owners[name]
         else r.owners[key] >= |d.environments|
  {
    var d := Start(s);
    var pending := Pending(received, |received|, d.owners);
    UsualIsOwned(s, received, j);
    OwnershipIsKept(s, received);
    OwnersAgree(d.environments);
    PendingIsExact(received, |received|, d.owners);
    PendingIsComplete(received, |received|, d.owners, j);
    if Lower(received[j]) !in d.owners {
      var i :| 0 <= i < |pending| && Lower(pending[i]) == Lower(received[j]);
      FamilyOfKey(pending[i], received[j]);
      OwnerOfPending(d, pending, i);
    }
  }

  /** A key that the draft had not is the name of a family or a usual value received. */
  lemma NewKeys(s: Settings, received: seq<string>, key: string)
    requires key in Proposed(s, received).owners && key !in Start(s).owners
    ensures (exists f :: 0 <= f < |FAMILIES| && FAMILIES[f].name == key) ||
      exists j :: 0 <= j < |received| && Trim(received[j]) != "" && IsUsual(received[j]) && Lower(received[j]) == key
  {
    var d := Start(s);
    var pending := Pending(received, |received|, d.owners);
    OwnersAgree(d.environments);
    PendingIsExact(received, |received|, d.owners);
    NewKeysAreBrought(d, pending, |FAMILIES|, key);
    if i :| 0 <= i < |pending| && Lower(pending[i]) == key {
      var j :| 0 <= j < |received| && received[j] == pending[i];
    }
  }

  /** When no value of the draft is in two environments, each usual value received is in exactly one of the proposal. */
  lemma SoleValueIsGroupedOnce(s: Settings, received: seq<string>, j: nat)
    requires j < |received| && Trim(received[j]) != "" && IsUsual(received[j])
    requires IsSole(AllKeys(Copies(s.environments)))
    ensures var p := Proposed(s, received); var key := Lower(received[j]);
      && key in p.owners && p.owners[key] < |p.environments|
      && forall i :: 0 <= i < |p.environments| ==> (key in KeysOf(p.environments[i]) <==> i == p.owners[key])
  {
    var p := Proposed(s, received);
    var key := Lower(received[j]);
    UsualIsOwned(s, received, j);
    OwnershipIsKept(s, received);
    forall i | 0 <= i < |p.environments| ensures key in KeysOf(p.environments[i]) <==> i == p.owners[key] {
      OwnerIsTheOnlyOne(p.owners, AllKeys(p.environments), key, i);
    }
  }

  // ------------------------------------------------------------------ a second proposal

  /** Names and aliases are not blank and have no white space around them. */
  predicate IsTidy(e: Environment) {
    e.name != "" && IsTrimmed(e.name)
    && forall k :: 0 <= k < |e.aliases| ==> e.aliases[k] != "" && IsTrimmed(e.aliases[k])
  }

  predicate AreTidy(es: seq<Environment>) {
    forall i :: 0 <= i < |es| ==> IsTidy(es[i])
  }

  predicate AreTrimmed(texts: seq<string>) {
    forall k :: 0 <= k < |texts| ==> texts[k] != "" && IsTrimmed(texts[k])
  }

  lemma {:induction false} TrimmedTextsAreTrimmed(texts: seq<string>)
    ensures AreTrimmed(TrimmedTexts(texts))
  {
    if texts != [] {
      TrimmedTextsAreTrimmed(texts[1..]);
      TrimIsTrimmed(texts[0]);
    }
  }

  lemma {:induction false} TrimmedTextsAreKept(texts: seq<string>)
    requires AreTrimmed(texts)
    ensures TrimmedTexts(texts) == texts
  {
    if texts != [] {
      assert forall k :: 0 <= k < |texts| - 1 ==> texts[1..][k] == texts[k + 1];
      TrimmedTextsAreKept(texts[1..]);
      TrimOfTrimmed(texts[0]);
    }
  }

  lemma {:induction false} CopiesAreTidy(es: seq<Environment>)
    ensures AreTidy(Copies(es))
  {
    if es != [] {
      CopiesAreTidy(es[1..]);
      TrimIsTrimmed(es[0].name);
      TrimmedTextsAreTrimmed(es[0].aliases);
    }
  }

  lemma {:induction false} TidyIsCopied(es: seq<Environment>)
    requires AreTidy(es)
    ensures Copies(es) == es
  {
    if es != [] {
      assert IsTidy(es[0]);
      assert forall k :: 0 <= k < |es| - 1 ==> es[1..][k] == es[k + 1];
      TidyIsCopied(es[1..]);
      TrimOfTrimmed(es[0].name);
      TrimmedTextsAreKept(es[0].aliases);
    }
  }

  // A condition on environments and one on values, such that grouping such a value keeps the first.

  ghost predicate IsLasting(ok: Environment -> bool, good: string -> bool) {
    && (forall e, v :: ok(e) && good(v) ==> ok(Grouping(e, v)))
    && (forall f, order :: 0 <= f < |FAMILIES| ==> ok(FamilyEnvironment(FAMILIES[f], order)))
  }

  ghost predicate AllOk(es: seq<Environment>, ok: Environment -> bool) {
    forall i :: 0 <= i < |es| ==> ok(es[i])
  }

  ghost predicate AllGood(values: seq<string>, good: string -> bool) {
    forall k :: 0 <= k < |values| ==> good(values[k])
  }

  lemma {:induction false} EachLasts(d: Draft, t: nat, values: seq<string>, n: nat, ok: Environment -> bool,
      good: string -> bool)
    requires Fits(d) && t < |d.environments| && n <= |values|
    requires IsLasting(ok, good) && AllOk(d.environments, ok) && AllGood(values, good)
    ensures AllOk(GroupEach(d, t, values, n).environments, ok)
    decreases n
  {
    if n > 0 {
      EachLasts(d, t, values, n - 1, ok, good);
    }
  }

  lemma FamilyLasts(d: Draft, f: nat, pending: seq<string>, ok: Environment -> bool, good: string -> bool)
    requires Fits(d) && f < |FAMILIES| && AreDistinct(pending)
    requires IsLasting(ok, good) && AllOk(d.environments, ok) && AllGood(pending, good)
    ensures AllOk(GroupFamily(d, f, ValuesOf(pending, f)).environments, ok)
  {
    var values := ValuesOf(pending, f);
    ValuesOfAreExact(pending, f);
    forall k | 0 <= k < |values| ensures good(values[k]) {
      assert values[k] in values;
      assert values[k] in pending;
    }
    if values != [] {
      var ready := WithTarget(d, FAMILIES[f]);
      assert ok(FamilyEnvironment(FAMILIES[f], NextOrder(d.environments)));
      assert AllOk(ready.environments, ok);
      EachLasts(ready, ready.owners[FAMILIES[f].name], values, |values|, ok, good);
    }
  }

  lemma {:induction false} AllLast(d: Draft, pending: seq<string>, n: nat, ok: Environment -> bool,
      good: string -> bool)
    requires Fits(d) && n <= |FAMILIES| && AreDistinct(pending)
    requires IsLasting(ok, good) && AllOk(d.environments, ok) && AllGood(pending, good)
    ensures AllOk(GroupAll(d, pending, n).environments, ok)
    decreases n
  {
    hide GroupFamily, AllOk, AllGood, IsLasting, AreDistinct, IsBounded;
    if n > 0 {
      AllLast(d, pending, n - 1, ok, good);
      FamilyLasts(GroupAll(d, pending, n - 1), n - 1, pending, ok, good);
    }
  }

  /** What grouping keeps holds of the proposal. */
  lemma ProposalLasts(s: Settings, received: seq<string>, ok: Environment -> bool, good: string -> bool)
    requires IsLasting(ok, good) && AllOk(Copies(s.environments), ok)
    requires forall j :: 0 <= j < |received| && Trim(received[j]) != "" && IsUsual(received[j]) ==> good(received[j])
    ensures AllOk(Proposal(s, received).environments, ok)
  {
    var d := Start(s);
    var pending := Pending(received, |received|, d.owners);
    PendingIsExact(received, |received|, d.owners);
    forall k | 0 <= k < |pending| ensures good(pending[k]) {
      assert pending[k] in received;
    }
    AllLast(d, pending, |FAMILIES|, ok, good);
  }

  /** The values received have no white space around them. */
  predicate AreClose(received: seq<string>) {
    forall j :: 0 <= j < |received| ==> IsTrimmed(received[j])
  }

  lemma TidyLasts()
    ensures IsLasting((e: Environment) => IsTidy(e), (v: string) => v != "" && IsTrimmed(v))
  {
    forall f, order | 0 <= f < |FAMILIES| ensures IsTidy(FamilyEnvironment(FAMILIES[f], order)) {
      NamesAreLetters(f);
    }
  }

  lemma ProposalIsTidy(s: Settings, received: seq<string>)
    requires AreClose(received)
    ensures AreTidy(Proposal(s, received).environments)
  {
    var ok: Environment -> bool := e => IsTidy(e);
    var good: string -> bool := v => v != "" && IsTrimmed(v);
    CopiesAreTidy(s.environments);
    TidyLasts();
    forall j | 0 <= j < |received| && Trim(received[j]) != "" ensures good(received[j]) {
      TrimOfTrimmed(received[j]);
    }
    ProposalLasts(s, received, ok, good);
  }

  lemma {:induction false} NothingPending(received: seq<string>, n: nat, owners: Owners)
    requires n <= |received|
    requires forall j :: 0 <= j < |received| && Trim(received[j]) != "" && IsUsual(received[j]) ==>
                           Lower(received[j]) in owners
    ensures Pending(received, n, owners) == []
    decreases n
  {
    if n > 0 {
      NothingPending(received, n - 1, owners);
    }
  }

  lemma {:induction false} NothingGrouped(d: Draft, n: nat)
    requires Fits(d) && n <= |FAMILIES|
    ensures GroupAll(d, [], n) == d
    decreases n
  {
    if n > 0 {
      NothingGrouped(d, n - 1);
    }
  }

  /** Grouping what was proposed, with the same values, groups nothing, creates nothing and changes nothing. */
  lemma SecondProposalChangesNothing(s: Settings, received: seq<string>)
    requires AreClose(received)
    ensures var p := Proposal(s, received);
      && Proposal(p, received) == p
      && Proposed(p, received).grouped == 0 && Proposed(p, received).created == 0
  {
    var p, again := Proposal(s, received), Start(Proposal(s, received));
    ProposalIsTidy(s, received);
    TidyIsCopied(p.environments);
    OwnersAgree(p.environments);
    OwnershipIsKept(s, received);
    forall j | 0 <= j < |received| && Trim(received[j]) != "" && IsUsual(received[j])
      ensures Lower(received[j]) in again.owners {
      UsualIsOwned(s, received, j);
      var owner := Proposed(s, received).owners[Lower(received[j])];
      assert Lower(received[j]) in AllKeys(p.environments)[owner];
    }
    NothingPending(received, |received|, again.owners);
    NothingGrouped(again, |FAMILIES|);
  }
}
