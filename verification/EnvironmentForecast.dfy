/**
 Which environments the automatic grouping will make, told from the draft and the values received, before it is called:
 one for each family that has a value which the draft has nowhere, and whose own name the draft has nowhere either.
 */
module EnvironmentForecast {
  import opened Strings
  import opened EnvironmentText
  import opened EnvironmentCheck
  import opened EnvironmentApps
  import opened EnvironmentStore
  import opened EnvironmentSuggestion
  import opened EnvironmentProposal
  import opened EnvironmentAcceptance

  // ------------------------------------------------------------------ which families are new

  /** A usual value of the family that nobody owns in the draft. */
  predicate Brings(s: Settings, v: string, f: nat) {
    Trim(v) != "" && IsUsual(v) && Lower(v) !in Start(s).owners && FamilyOf(v) == f
  }

  predicate IsNew(s: Settings, received: seq<string>, f: nat)
    requires f < |FAMILIES|
  {
    FAMILIES[f].name !in Start(s).owners && exists j :: 0 <= j < |received| && Brings(s, received[j], f)
  }

  /** The names of the new ones among the first n families. */
  function NewNames(s: Settings, received: seq<string>, n: nat): seq<string>
    requires n <= |FAMILIES|
  {
    if n == 0 then []
    else NewNames(s, received, n - 1) + if IsNew(s, received, n - 1) then [FAMILIES[n - 1].name] else []
  }

  /** A family has pending values exactly when some value received brings it. */
  lemma PendingOfFamily(s: Settings, received: seq<string>, f: nat)
    ensures ValuesOf(Pending(received, |received|, Start(s).owners), f) != []
       <==> exists j :: 0 <= j < |received| && Brings(s, received[j], f)
  {
    var owners := Start(s).owners;
    var pending := Pending(received, |received|, owners);
    var values := ValuesOf(pending, f);
    PendingIsExact(received, |received|, owners);
    ValuesOfAreExact(pending, f);
    if values != [] {
      var v := values[0];
      assert v in values && v in pending;
      var i :| 0 <= i < |pending| && pending[i] == v;
      var j :| 0 <= j < |received| && received[j] == v;
      assert Brings(s, received[j], f);
    }
    if j: nat :| j < |received| && Brings(s, received[j], f) {
      PendingIsComplete(received, |received|, owners, j);
      var i :| 0 <= i < |pending| && Lower(pending[i]) == Lower(received[j]);
      FamilyOfKey(pending[i], received[j]);
      assert pending[i] in values;
    }
  }

  // ------------------------------------------------------------------ the names of the proposal

  function Names(es: seq<Environment>): seq<string> {
    seq(|es|, i requires 0 <= i < |es| => es[i].name)
  }

  lemma {:induction false} EachKeepsNames(d: Draft, t: nat, values: seq<string>, n: nat)
    requires Fits(d) && t < |d.environments| && n <= |values|
    ensures Names(GroupEach(d, t, values, n).environments) == Names(d.environments)
    decreases n
  {
    if n > 0 {
      EachKeepsNames(d, t, values, n - 1);
      OneKeepsNames(GroupEach(d, t, values, n - 1), t, values[n - 1]);
    }
  }

  lemma OneKeepsNames(d: Draft, t: nat, value: string)
    requires Fits(d) && t < |d.environments|
    ensures Names(GroupValue(d, t, value).environments) == Names(d.environments)
  {
  }

  lemma FamilyAddsName(d: Draft, f: nat, values: seq<string>)
    requires Fits(d) && f < |FAMILIES|
    ensures Names(GroupFamily(d, f, values).environments)
         == Names(d.environments)
            + if values != [] && FAMILIES[f].name !in d.owners then [FAMILIES[f].name] else []
  {
    if values != [] {
      var ready := WithTarget(d, FAMILIES[f]);
      TargetAddsName(d, FAMILIES[f]);
      EachKeepsNames(ready, ready.owners[FAMILIES[f].name], values, |values|);
    }
  }

  lemma TargetAddsName(d: Draft, family: Family)
    requires Fits(d)
    ensures Names(WithTarget(d, family).environments)
         == Names(d.environments) + if family.name !in d.owners then [family.name] else []
  {
  }

  lemma {:induction false} AllAddNames(s: Settings, received: seq<string>, n: nat)
    requires n <= |FAMILIES|
    ensures var pending := Pending(received, |received|, Start(s).owners);
      Names(GroupAll(Start(s), pending, n).environments) == Names(Copies(s.environments)) + NewNames(s, received, n)
    decreases n
  {
    hide Names, GroupFamily, IsNew, OwnersOf, Copies, AreDistinct, AreUnowned, IsBounded;
    var d := Start(s);
    var pending := Pending(received, |received|, d.owners);
    if n > 0 {
      AllAddNames(s, received, n - 1);
      OneFamilyAddsName(s, received, n - 1);
    }
  }

  lemma OneFamilyAddsName(s: Settings, received: seq<string>, f: nat)
    requires f < |FAMILIES|
    ensures var before := GroupAll(Start(s), Pending(received, |received|, Start(s).owners), f);
      var values := ValuesOf(Pending(received, |received|, Start(s).owners), f);
      Names(GroupFamily(before, f, values).environments)
      == Names(before.environments) + if IsNew(s, received, f) then [FAMILIES[f].name] else []
  {
    var d := Start(s);
    var pending := Pending(received, |received|, d.owners);
    OwnersAgree(d.environments);
    PendingIsExact(received, |received|, d.owners);
    NameIsOwnedBefore(d, pending, f);
    PendingOfFamily(s, received, f);
    FamilyAddsName(GroupAll(d, pending, f), f, ValuesOf(pending, f));
  }

  lemma AllNames(s: Settings, received: seq<string>)
    requires AreAccepted(s.environments)
    ensures var es, new_ := Proposal(s, received).environments, NewNames(s, received, |FAMILIES|);
      Names(es) == Names(Copies(s.environments)) + new_ && |es| == |s.environments| + |new_|
  {
    AllAddNames(s, received, |FAMILIES|);
    CopiesAreThose(s.environments);
    assert |Names(Proposal(s, received).environments)| == |Proposal(s, received).environments|;
    assert |Names(Copies(s.environments))| == |s.environments|;
  }

  /** The proposal has the environments of the draft, then one for each new family. */
  lemma ProposalNames(s: Settings, received: seq<string>)
    requires AreAccepted(s.environments)
    ensures var es, new_ := Proposal(s, received).environments, NewNames(s, received, |FAMILIES|);
      && |es| == |s.environments| + |new_|
      && EnvironmentNames(es) == EnvironmentNames(s.environments) + set n | n in new_
  {
    hide Proposal, Proposed, NewNames, EnvironmentNames, AreAccepted, NameOf, Copies, Names;
    var es, new_, old_ := Proposal(s, received).environments, NewNames(s, received, |FAMILIES|), s.environments;
    AllNames(s, received);
    forall i | 0 <= i < |es|
      ensures NameOf(es[i].name) == if i < |old_| then NameOf(old_[i].name) else new_[i - |old_|]
    {
      NameOfProposal(s, received, i);
    }
    SameNames(old_, es, new_);
  }

  lemma NameOfProposal(s: Settings, received: seq<string>, i: nat)
    requires AreAccepted(s.environments) && i < |Proposal(s, received).environments|
    requires Names(Proposal(s, received).environments)
          == Names(Copies(s.environments)) + NewNames(s, received, |FAMILIES|)
    ensures |Copies(s.environments)| == |s.environments|
    ensures NameOf(Proposal(s, received).environments[i].name)
         == if i < |s.environments| then NameOf(s.environments[i].name)
            else NewNames(s, received, |FAMILIES|)[i - |s.environments|]
  {
    var es := Proposal(s, received).environments;
    CopiesAreThose(s.environments);
    assert Names(es)[i] == es[i].name;
    if i < |s.environments| {
      TrimIsTrimmed(s.environments[i].name);
      TrimOfTrimmed(Trim(s.environments[i].name));
    } else {
      NewNamesAreNames(s, received, |FAMILIES|, i - |s.environments|);
    }
  }

  lemma {:induction false} NewNamesAreNames(s: Settings, received: seq<string>, n: nat, k: nat)
    requires n <= |FAMILIES| && k < |NewNames(s, received, n)|
    ensures NameOf(NewNames(s, received, n)[k]) == NewNames(s, received, n)[k]
  {
    hide IsNew, NameOf;
    if k < |NewNames(s, received, n - 1)| {
      NewNamesAreNames(s, received, n - 1, k);
    } else {
      FamilyNameIsName(n - 1);
    }
  }

  lemma FamilyNameIsName(f: nat)
    requires f < |FAMILIES|
    ensures NameOf(FAMILIES[f].name) == FAMILIES[f].name && TextOf(FAMILIES[f].name) == FAMILIES[f].name
  {
    NamesAreLetters(f);
    LowerOfFamily(f);
    TextOfText(FAMILIES[f].name);
  }

  lemma SameNames(before: seq<Environment>, after: seq<Environment>, more: seq<string>)
    requires |after| == |before| + |more|
    requires forall i :: 0 <= i < |after| ==>
      NameOf(after[i].name) == if i < |before| then NameOf(before[i].name) else more[i - |before|]
    ensures EnvironmentNames(after) == EnvironmentNames(before) + set n | n in more
  {
    forall n | n in EnvironmentNames(before) ensures n in EnvironmentNames(after) {
      var i :| 0 <= i < |before| && NameOf(before[i].name) == n;
      assert after[i] in after;
    }
    forall n | n in more ensures n in EnvironmentNames(after) {
      var i :| 0 <= i < |more| && more[i] == n;
      assert after[|before| + i] in after;
    }
  }

  // ------------------------------------------------------------------ the keys of each environment proposed

  /** The environment that the values of a family go to. */
  function PlaceOf(s: Settings, received: seq<string>, f: nat): nat
    requires f < |FAMILIES|
  {
    if FAMILIES[f].name in Start(s).owners then Start(s).owners[FAMILIES[f].name]
    else |Copies(s.environments)| + |NewNames(s, received, f)|
  }

  predicate IsMeantFor(s: Settings, received: seq<string>, v: string, n: nat, i: nat)
    requires n <= |FAMILIES|
  {
    exists f :: 0 <= f < n && Brings(s, v, f) && PlaceOf(s, received, f) == i
  }

  /** The keys that the first n families bring to environment i. */
  function Brought(s: Settings, received: seq<string>, n: nat, i: nat): set<string>
    requires n <= |FAMILIES|
  {
    set j | 0 <= j < |received| && IsMeantFor(s, received, received[j], n, i) :: Lower(received[j])
  }

  function KeysAt(es: seq<Environment>, i: nat): set<string> {
    if i < |es| then KeysOf(es[i]) else {}
  }

  function Lowers(values: seq<string>): set<string> {
    set v | v in values :: Lower(v)
  }

  lemma OneAddsKey(d: Draft, t: nat, value: string, i: nat)
    requires Fits(d) && t < |d.environments|
    ensures KeysAt(GroupValue(d, t, value).environments, i)
         == KeysAt(d.environments, i) + if i == t then {Lower(value)} else {}
  {
    GroupingAddsKey(d.environments[t], value);
  }

  lemma LowersNext(values: seq<string>, n: nat)
    requires n < |values|
    ensures Lowers(values[..n + 1]) == Lowers(values[..n]) + {Lower(values[n])}
  {
    assert values[..n + 1] == values[..n] + [values[n]];
  }

  lemma NoLowers(values: seq<string>)
    ensures Lowers(values[..0]) == {}
  {
  }

  lemma {:induction false} EachAddsKeys(d: Draft, t: nat, values: seq<string>, n: nat, i: nat)
    requires Fits(d) && t < |d.environments| && n <= |values|
    ensures KeysAt(GroupEach(d, t, values, n).environments, i)
         == KeysAt(d.environments, i) + if i == t then Lowers(values[..n]) else {}
    decreases n
  {
    NoLowers(values);
    hide KeysAt, Lowers, GroupValue, IsBounded;
    if n > 0 {
      EachAddsKeys(d, t, values, n - 1, i);
      OneAddsKey(GroupEach(d, t, values, n - 1), t, values[n - 1], i);
      LowersNext(values, n - 1);
    }
  }

  lemma FamilyAddsKeys(d: Draft, f: nat, values: seq<string>, i: nat)
    requires Fits(d) && f < |FAMILIES|
    ensures var own := if FAMILIES[f].name in d.owners then {} else {FAMILIES[f].name};
      KeysAt(GroupFamily(d, f, values).environments, i)
      == KeysAt(d.environments, i) + if values != [] && i == TargetOf(d, f) then Lowers(values) + own else {}
  {
    if values != [] {
      var ready := WithTarget(d, FAMILIES[f]);
      EachAddsKeys(ready, ready.owners[FAMILIES[f].name], values, |values|, i);
      assert values[..|values|] == values;
      LowerOfFamily(f);
    }
  }

  /** The values pending for a family have the keys that the received ones bring to it. */
  lemma KeysOfFamily(s: Settings, received: seq<string>, f: nat, key: string)
    requires f < |FAMILIES|
    ensures key in Lowers(ValuesOf(Pending(received, |received|, Start(s).owners), f))
       <==> exists j :: 0 <= j < |received| && Brings(s, received[j], f) && Lower(received[j]) == key
  {
    var owners := Start(s).owners;
    var pending := Pending(received, |received|, owners);
    var values := ValuesOf(pending, f);
    PendingIsExact(received, |received|, owners);
    ValuesOfAreExact(pending, f);
    if key in Lowers(values) {
      var v :| v in values && Lower(v) == key;
      var i :| 0 <= i < |pending| && pending[i] == v;
      var j :| 0 <= j < |received| && received[j] == v;
      assert Brings(s, received[j], f);
    }
    if j: nat :| j < |received| && Brings(s, received[j], f) && Lower(received[j]) == key {
      PendingIsComplete(received, |received|, owners, j);
      var i :| 0 <= i < |pending| && Lower(pending[i]) == key;
      FamilyOfKey(pending[i], received[j]);
      assert pending[i] in values;
    }
  }

  lemma BroughtNext(s: Settings, received: seq<string>, f: nat, i: nat)
    requires f < |FAMILIES|
    ensures var values := ValuesOf(Pending(received, |received|, Start(s).owners), f);
      Brought(s, received, f + 1, i)
      == Brought(s, received, f, i) + if i == PlaceOf(s, received, f) then Lowers(values) else {}
  {
    hide Brings, PlaceOf, NewNames, Pending, ValuesOf, Lowers, Start;
    var values := ValuesOf(Pending(received, |received|, Start(s).owners), f);
    forall key
      ensures key in Brought(s, received, f + 1, i)
         <==> key in Brought(s, received, f, i) || (i == PlaceOf(s, received, f) && key in Lowers(values))
    {
      KeysOfFamily(s, received, f, key);
      if key in Brought(s, received, f, i) {
        var j :| 0 <= j < |received| && IsMeantFor(s, received, received[j], f, i) && Lower(received[j]) == key;
        var g :| 0 <= g < f && Brings(s, received[j], g) && PlaceOf(s, received, g) == i;
        assert IsMeantFor(s, received, received[j], f + 1, i);
      }
      if i == PlaceOf(s, received, f) && key in Lowers(values) {
        var j :| 0 <= j < |received| && Brings(s, received[j], f) && Lower(received[j]) == key;
        assert IsMeantFor(s, received, received[j], f + 1, i);
      }
      if key in Brought(s, received, f + 1, i) {
        var j :| 0 <= j < |received| && IsMeantFor(s, received, received[j], f + 1, i) && Lower(received[j]) == key;
        var g :| 0 <= g < f + 1 && Brings(s, received[j], g) && PlaceOf(s, received, g) == i;
        assert g < f ==> IsMeantFor(s, received, received[j], f, i);
      }
    }
  }

  /** Where a family goes when its turn comes is where it was foretold to go. */
  lemma PlaceIsTarget(s: Settings, received: seq<string>, f: nat)
    requires f < |FAMILIES|
    ensures var before := GroupAll(Start(s), Pending(received, |received|, Start(s).owners), f);
      && (FAMILIES[f].name in before.owners <==> FAMILIES[f].name in Start(s).owners)
      && TargetOf(before, f) == PlaceOf(s, received, f)
  {
    var d := Start(s);
    var pending := Pending(received, |received|, d.owners);
    var before := GroupAll(d, pending, f);
    OwnersAgree(d.environments);
    PendingIsExact(received, |received|, d.owners);
    NameIsOwnedBefore(d, pending, f);
    AllKeep(d, pending, f);
    AllAddNames(s, received, f);
    assert |Names(before.environments)| == |before.environments|;
    assert |Names(Copies(s.environments))| == |Copies(s.environments)|;
  }

  /** The name of a new environment is a key of it besides. */
  function NewKey(s: Settings, received: seq<string>, n: nat, i: nat): set<string>
    requires n <= |FAMILIES|
  {
    var old_, new_ := |Copies(s.environments)|, NewNames(s, received, n);
    if old_ <= i < old_ + |new_| then {new_[i - old_]} else {}
  }

  lemma NothingBrought(s: Settings, received: seq<string>, i: nat)
    ensures Brought(s, received, 0, i) == {} && NewKey(s, received, 0, i) == {}
  {
  }

  lemma {:induction false} AllAddKeys(s: Settings, received: seq<string>, n: nat, i: nat)
    requires n <= |FAMILIES|
    ensures KeysAt(GroupAll(Start(s), Pending(received, |received|, Start(s).owners), n).environments, i)
         == KeysAt(Copies(s.environments), i) + Brought(s, received, n, i) + NewKey(s, received, n, i)
    decreases n
  {
    hide KeysAt, Brought, NewKey, Copies, IsNew, PlaceOf, Pending, ValuesOf, Lowers, GroupFamily, IsBounded, OwnersOf;
    if n == 0 {
      NothingBrought(s, received, i);
    } else {
      AllAddKeys(s, received, n - 1, i);
      OneFamilyAddsKeys(s, received, n - 1, i);
      OneNewKey(s, received, n - 1, i);
      BroughtNext(s, received, n - 1, i);
    }
  }

  lemma OneNewKey(s: Settings, received: seq<string>, f: nat, i: nat)
    requires f < |FAMILIES|
    ensures NewKey(s, received, f + 1, i) == NewKey(s, received, f, i)
      + if IsNew(s, received, f) && i == PlaceOf(s, received, f) then {FAMILIES[f].name} else {}
  {
    hide Brings;
  }

  lemma OneFamilyAddsKeys(s: Settings, received: seq<string>, f: nat, i: nat)
    requires f < |FAMILIES|
    ensures var before := GroupAll(Start(s), Pending(received, |received|, Start(s).owners), f);
      var values := ValuesOf(Pending(received, |received|, Start(s).owners), f);
      KeysAt(GroupFamily(before, f, values).environments, i)
      == KeysAt(before.environments, i)
         + (if i == PlaceOf(s, received, f) then Lowers(values) else {})
         + if IsNew(s, received, f) && i == PlaceOf(s, received, f) then {FAMILIES[f].name} else {}
  {
    var pending := Pending(received, |received|, Start(s).owners);
    PlaceIsTarget(s, received, f);
    PendingOfFamily(s, received, f);
    FamilyAddsKeys(GroupAll(Start(s), pending, f), f, ValuesOf(pending, f), i);
  }

  // ------------------------------------------------------------------ how many aliases the check keeps

  function KeysFrom(values: seq<Value>, k: nat): set<string> {
    set j | k <= j < |values| && values[j].text != "" :: values[j].key
  }

  /** As many values are kept as there are keys not yet seen. */
  lemma {:induction false} CountOfNew(values: seq<Value>, k: nat, seen: set<string>)
    ensures |NewValues(values, k, seen)| == |KeysFrom(values, k) - seen|
    decreases |values| - k
  {
    if k < |values| {
      var v := values[k];
      KeysFromNext(values, k);
      if v.text == "" || v.key in seen {
        CountOfNew(values, k + 1, seen);
        assert KeysFrom(values, k) - seen == KeysFrom(values, k + 1) - seen;
      } else {
        CountOfNew(values, k + 1, seen + {v.key});
        assert KeysFrom(values, k) - seen == (KeysFrom(values, k + 1) - (seen + {v.key})) + {v.key};
      }
    } else {
      assert KeysFrom(values, k) == {};
    }
  }

  lemma KeysFromNext(values: seq<Value>, k: nat)
    requires k < |values|
    ensures KeysFrom(values, k) == KeysFrom(values, k + 1) + if values[k].text != "" then {values[k].key} else {}
  {
  }

  /** What the check reads a set of keys as. */
  function ReadAs(keys: set<string>): set<string> {
    set raw | raw in keys :: TextOf(raw)
  }

  /** A key is among the values of the environment exactly when one of its keys reads as it, the name aside. */
  lemma ValueReadsAs(e: Environment, key: string)
    requires IsTidy(e) && ProblemOf(e) == NoProblem && key != NameOf(e.name)
    ensures key in KeysFrom(ReadSource(e).values, 0) <==> key in ReadAs(KeysOf(e))
  {
    GroupsItsKeys(e, key);
    var values := ReadSource(e).values;
    if HasValue(values, 0, key) {
      var j :| 0 <= j < |values| && values[j].text != "" && values[j].key == key;
      assert values[j].key in KeysFrom(values, 0);
    }
  }

  lemma CountOfClean(e: Environment)
    requires IsTidy(e) && ProblemOf(e) == NoProblem
    ensures |CleanValues(ReadSource(e))| == |ReadAs(KeysOf(e)) - {NameOf(e.name)}|
  {
    hide KeysFrom, ReadAs, KeysOf, IsTidy, ProblemOf, NameOf, NewValues;
    var values, name := ReadSource(e).values, NameOf(e.name);
    CountOfNew(values, 0, {name});
    forall key | key != name ensures key in KeysFrom(values, 0) <==> key in ReadAs(KeysOf(e)) {
      ValueReadsAs(e, key);
    }
    assert KeysFrom(values, 0) - {name} == ReadAs(KeysOf(e)) - {name};
  }

  // ------------------------------------------------------------------ what the check will say

  /** The keys of environment i of the draft, none for a new one. */
  function OldKeys(s: Settings, i: nat): set<string> {
    if i < |s.environments| then KeysOf(CopyOf(s.environments[i])) else {}
  }

  /** The name of environment i of the proposal. */
  function NameAt(s: Settings, received: seq<string>, i: nat): string
    requires i < |s.environments| + |NewNames(s, received, |FAMILIES|)|
  {
    if i < |s.environments| then NameOf(s.environments[i].name)
    else NewNames(s, received, |FAMILIES|)[i - |s.environments|]
  }

  /** Environment i has room for what is brought to it, as the check reads its keys; its name needs no alias. */
  predicate HasRoom(s: Settings, received: seq<string>, i: nat)
    requires i < |s.environments| + |NewNames(s, received, |FAMILIES|)|
  {
    |ReadAs(OldKeys(s, i) + Brought(s, received, |FAMILIES|, i)) - {NameAt(s, received, i)}| <= MAX_VALUES
  }

  lemma KeysOfProposal(s: Settings, received: seq<string>, i: nat)
    requires AreAccepted(s.environments) && i < |Proposal(s, received).environments|
    ensures |Proposal(s, received).environments| == |s.environments| + |NewNames(s, received, |FAMILIES|)|
    ensures NameOf(Proposal(s, received).environments[i].name) == NameAt(s, received, i)
    ensures KeysOf(Proposal(s, received).environments[i])
         == OldKeys(s, i) + Brought(s, received, |FAMILIES|, i) + NewKey(s, received, |FAMILIES|, i)
  {
    AllNames(s, received);
    NameOfProposal(s, received, i);
    AllAddKeys(s, received, |FAMILIES|, i);
    CopiesAreThose(s.environments);
  }

  lemma NewKeyIsName(s: Settings, received: seq<string>, i: nat)
    requires |Copies(s.environments)| == |s.environments|
    requires i < |s.environments| + |NewNames(s, received, |FAMILIES|)|
    ensures ReadAs(NewKey(s, received, |FAMILIES|, i)) <= {NameAt(s, received, i)}
  {
    if i >= |s.environments| {
      NewNamesAreNames(s, received, |FAMILIES|, i - |s.environments|);
      NewNamesAreText(s, received, |FAMILIES|, i - |s.environments|);
    }
  }

  lemma {:induction false} NewNamesAreText(s: Settings, received: seq<string>, n: nat, k: nat)
    requires n <= |FAMILIES| && k < |NewNames(s, received, n)|
    ensures TextOf(NewNames(s, received, n)[k]) == NewNames(s, received, n)[k]
  {
    hide IsNew, TextOf;
    if k < |NewNames(s, received, n - 1)| {
      NewNamesAreText(s, received, n - 1, k);
    } else {
      FamilyNameIsName(n - 1);
    }
  }

  lemma ReadAsUnion(a: set<string>, b: set<string>, name: string)
    requires ReadAs(b) <= {name}
    ensures ReadAs(a + b) - {name} == ReadAs(a) - {name}
  {
    assert forall raw :: raw in b ==> TextOf(raw) in ReadAs(b);
  }

  /** The check keeps no more aliases of the environment than it may exactly when there is room for them. */
  lemma FitsExactlyWhenRoom(s: Settings, received: seq<string>, i: nat)
    requires AreAccepted(s.environments) && AreReceivable(received) && i < |Proposal(s, received).environments|
    ensures |Proposal(s, received).environments| == |s.environments| + |NewNames(s, received, |FAMILIES|)|
    ensures FitsInCount(Proposal(s, received).environments[i]) <==> HasRoom(s, received, i)
  {
    hide NewNames, Proposed, Proposal, KeysOf, Brought, NewKey, NameAt, OldKeys, ReadAs, CleanValues, IsTidy, ProblemOf;
    ProposalIsSuitable(s, received);
    KeysOfProposal(s, received, i);
    CountOfClean(Proposal(s, received).environments[i]);
    CopiesAreThose(s.environments);
    NewKeyIsName(s, received, i);
    ReadAsUnion(OldKeys(s, i) + Brought(s, received, |FAMILIES|, i), NewKey(s, received, |FAMILIES|, i),
      NameAt(s, received, i));
  }

  /** No application keeps as it is a value named like a new family. */
  predicate NoneDetachesNew(s: Settings, received: seq<string>) {
    forall i :: 0 <= i < |s.apps| ==>
      !Detaches(ReadOneApp(s.apps[i]), set n | n in NewNames(s, received, |FAMILIES|))
  }

  lemma AppsStay(s: Settings, received: seq<string>)
    ensures Proposal(s, received).apps == s.apps
  {
  }

  lemma OldNamesAreAttached(s: Settings, i: nat, more: set<string>)
    requires CheckSettings(s).Accepted? && i < |s.apps|
    ensures Detaches(ReadOneApp(s.apps[i]), EnvironmentNames(s.environments) + more)
       <==> Detaches(ReadOneApp(s.apps[i]), more)
  {
    AcceptedExactlyWhen(s);
    var app := ReadOneApp(s.apps[i]);
    assert ReadApps(s.apps)[i] == app;
    assert AppIsGood(EnvironmentNames(s.environments), app);
  }

  /**
   For a draft that the check accepts, and received values that are trimmed and short enough: the check accepts what the
   grouping makes of them exactly when there is room for the new families, each environment has room for what is brought
   to it, no application keeps apart a value named like a new family, and no environment that the grouping passes over
   is read as having a usual value received.
   */
  lemma AcceptanceIsForetold(s: Settings, received: seq<string>)
    requires CheckSettings(s).Accepted? && AreReceivable(received)
    ensures var p := Proposal(s, received);
      CheckSettings(p).Accepted? <==>
        && |s.environments| + |NewNames(s, received, |FAMILIES|)| <= MAX_ENVIRONMENTS
        && NoneDetachesNew(s, received)
        && AreReadAlike(s, received)
        && forall i :: 0 <= i < |s.environments| + |NewNames(s, received, |FAMILIES|)| ==> HasRoom(s, received, i)
  {
    hide Proposal, NewNames, EnvironmentNames, AreReadAlike, FitsInCount, HasRoom, Detaches, AreAccepted, AreReceivable,
      CheckSettings, AppsAreGood, ReadOneApp;
    var p, more := Proposal(s, received), set n | n in NewNames(s, received, |FAMILIES|);
    AcceptedExactlyWhen(s);
    ProposalNames(s, received);
    ProposalIsAcceptedExactlyWhen(s, received);
    forall i | 0 <= i < |s.apps|
      ensures Detaches(ReadOneApp(s.apps[i]), EnvironmentNames(p.environments))
         <==> Detaches(ReadOneApp(s.apps[i]), more)
    {
      OldNamesAreAttached(s, i, more);
    }
    AppsStay(s, received);
    forall i | 0 <= i < |p.environments| ensures FitsInCount(p.environments[i]) <==> HasRoom(s, received, i) {
      FitsExactlyWhenRoom(s, received, i);
    }
  }
}
