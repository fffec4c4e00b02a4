/**
 The automatic grouping of received values into the usual environments: its loops, each tied to a function
 of the draft and of the values received. What the grouping keeps and what it brings is proved about these
 functions in the module of the proposal.
 */
module EnvironmentSuggestion {
  import opened Strings
  import opened EnvironmentText
  import opened EnvironmentCheck
  import opened EnvironmentStore

  datatype Family = Family(name: string, title: string, kind: string, values: seq<string>)

  const FAMILIES: seq<Family> := [
    Family("production", "Production", "production", ["prod", "production", "prd", "live"]),
    Family("preproduction", "Pr\U{e9}production", "recette",
      ["preprod", "preproduction", "pprod", "staging", "stage", "stg"]),
    Family("recette", "Recette", "recette",
      ["recette", "rec", "uat", "acceptance", "homologation", "homol", "qualification", "qualif"]),
    Family("test", "Test", "recette", ["test", "tests", "testing", "qa"]),
    Family("integration", "Int\U{e9}gration", "recette", ["integration", "int"]),
    Family("developpement", "D\U{e9}veloppement", "developpement",
      ["dev", "development", "develop", "developpement", "local", "localhost", "sandbox"])
  ]

  // ------------------------------------------------------------------ usual values

  predicate IsSeparator(c: char) {
    c == '-' || c == '_' || c == '.' || c == ' '
  }

  function WithoutAccent(c: char): char {
    if c == '\U{e9}' || c == '\U{e8}' || c == '\U{ea}' || c == '\U{eb}' then 'e'
    else if c == '\U{e0}' || c == '\U{e2}' || c == '\U{e4}' then 'a'
    else if c == '\U{ee}' || c == '\U{ef}' then 'i'
    else if c == '\U{f4}' || c == '\U{f6}' then 'o'
    else if c == '\U{f9}' || c == '\U{fb}' || c == '\U{fc}' then 'u'
    else if c == '\U{e7}' then 'c'
    else c
  }

  function Simplified(s: string): string {
    if s == "" then "" else (if IsSeparator(s[0]) then "" else [WithoutAccent(s[0])]) + Simplified(s[1..])
  }

  function Simplify(value: string): string {
    Simplified(Lower(Trim(value)))
  }

  /** The first family from f on that has this word, or the number of families. */
  function FamilyFrom(word: string, f: nat): (r: nat)
    requires f <= |FAMILIES|
    ensures f <= r <= |FAMILIES|
    decreases |FAMILIES| - f
  {
    if f == |FAMILIES| || word in FAMILIES[f].values then f else FamilyFrom(word, f + 1)
  }

  function FamilyOf(value: string): nat {
    FamilyFrom(Simplify(value), 0)
  }

  predicate IsUsual(value: string) {
    FamilyOf(value) < |FAMILIES|
  }

  // ------------------------------------------------------------------ the copy of the draft

  function TrimmedTexts(texts: seq<string>): seq<string> {
    if texts == [] then []
    else (if Trim(texts[0]) == "" then [] else [Trim(texts[0])]) + TrimmedTexts(texts[1..])
  }

  function CopyOf(e: Environment): Environment {
    e.(name := Trim(e.name), aliases := TrimmedTexts(e.aliases))
  }

  function Copies(es: seq<Environment>): seq<Environment> {
    if es == [] then [] else (if Trim(es[0].name) == "" then [] else [CopyOf(es[0])]) + Copies(es[1..])
  }

  // ------------------------------------------------------------------ who owns which value

  predicate IsBounded(owners: map<string, nat>, n: nat) {
    forall key :: key in owners ==> owners[key] < n
  }

  function TryAdd(owners: map<string, nat>, value: string, i: nat): map<string, nat> {
    if Lower(value) in owners then owners else owners[Lower(value) := i]
  }

  function OwnNames(es: seq<Environment>, n: nat): (r: map<string, nat>)
    requires n <= |es|
    ensures IsBounded(r, |es|)
  {
    if n == 0 then map[] else TryAdd(OwnNames(es, n - 1), es[n - 1].name, n - 1)
  }

  function OwnAliases(owners: map<string, nat>, aliases: seq<string>, n: nat, i: nat): (r: map<string, nat>)
    requires n <= |aliases|
    ensures forall m :: IsBounded(owners, m) && i < m ==> IsBounded(r, m)
  {
    if n == 0 then owners else TryAdd(OwnAliases(owners, aliases, n - 1, i), aliases[n - 1], i)
  }

  function OwnAll(es: seq<Environment>, n: nat): (r: map<string, nat>)
    requires n <= |es|
    ensures IsBounded(r, |es|)
  {
    if n == 0 then OwnNames(es, |es|) else OwnAliases(OwnAll(es, n - 1), es[n - 1].aliases, |es[n - 1].aliases|, n - 1)
  }

  function OwnersOf(es: seq<Environment>): (r: map<string, nat>)
    ensures IsBounded(r, |es|)
  {
    OwnAll(es, |es|)
  }

  // ------------------------------------------------------------------ values to group

  /** The received values that are not blank, not owned, usual, each once whatever its case. */
  function Pending(received: seq<string>, n: nat, owners: map<string, nat>): seq<string>
    requires n <= |received|
  {
    if n == 0 then []
    else
      var before := Pending(received, n - 1, owners);
      if IsPending(received[n - 1], owners, before) then before + [received[n - 1]] else before
  }

  predicate IsPending(v: string, owners: map<string, nat>, before: seq<string>) {
    Trim(v) != "" && !HasKey(before, Lower(v)) && Lower(v) !in owners && IsUsual(v)
  }

  predicate HasKey(values: seq<string>, key: string) {
    exists j :: 0 <= j < |values| && Lower(values[j]) == key
  }

  function UpperChar(c: char): char {
    if 'a' <= c <= 'z' || ('\U{e0}' <= c <= '\U{fe}' && c != '\U{f7}') then (c as int - 32) as char else c
  }

  function Upper(s: string): string {
    seq(|s|, i requires 0 <= i < |s| => UpperChar(s[i]))
  }

  /** Insertion by the order of the texts in capitals. */
  function InsertValue(v: string, sorted: seq<string>): seq<string> {
    if sorted == [] then [v]
    else if !Precedes(Upper(v), Upper(sorted[|sorted| - 1])) then sorted + [v]
    else InsertValue(v, sorted[..|sorted| - 1]) + [sorted[|sorted| - 1]]
  }

  /** The pending values of one family, sorted. */
  function ValuesOf(pending: seq<string>, f: nat): seq<string> {
    if pending == [] then []
    else
      var before := ValuesOf(pending[..|pending| - 1], f);
      if FamilyOf(pending[|pending| - 1]) == f then InsertValue(pending[|pending| - 1], before) else before
  }

  // ------------------------------------------------------------------ grouping

  datatype Draft = Draft(owners: map<string, nat>, environments: seq<Environment>, grouped: nat, created: nat)

  function NextOrder(es: seq<Environment>): int {
    if es == [] then 0 else MaxOrder(es) + 1
  }

  function MaxOrder(es: seq<Environment>): int
    requires es != []
  {
    var last := es[|es| - 1].order;
    if |es| == 1 then last
    else
      var before := MaxOrder(es[..|es| - 1]);
      if before < last then last else before
  }

  predicate Fits(d: Draft) {
    IsBounded(d.owners, |d.environments|)
  }

  function FamilyEnvironment(family: Family, order: int): Environment {
    Environment(family.name, family.title, family.kind, "", false, order, [])
  }

  /** The environment of a family: the one that owns its name, or a new one at the end. */
  function WithTarget(d: Draft, family: Family): (r: Draft)
    requires Fits(d)
    ensures Fits(r) && family.name in r.owners
  {
    if family.name in d.owners then d
    else
      var target := FamilyEnvironment(family, NextOrder(d.environments));
      d.(owners := d.owners[family.name := |d.environments|], environments := d.environments + [target],
        created := d.created + 1)
  }

  /** The environment with one more value; its name needs no alias. */
  function Grouping(target: Environment, value: string): Environment {
    if SameText(value, target.name) then target else target.(aliases := target.aliases + [value])
  }

  function GroupValue(d: Draft, t: nat, value: string): (r: Draft)
    requires Fits(d) && t < |d.environments|
    ensures Fits(r) && |r.environments| == |d.environments|
  {
    d.(owners := d.owners[Lower(value) := t], environments := d.environments[t := Grouping(d.environments[t], value)],
      grouped := d.grouped + 1)
  }

  function GroupEach(d: Draft, t: nat, values: seq<string>, n: nat): (r: Draft)
    requires Fits(d) && t < |d.environments| && n <= |values|
    ensures Fits(r) && |r.environments| == |d.environments|
  {
    if n == 0 then d else GroupValue(GroupEach(d, t, values, n - 1), t, values[n - 1])
  }

  function GroupFamily(d: Draft, f: nat, values: seq<string>): (r: Draft)
    requires Fits(d) && f < |FAMILIES|
    ensures Fits(r)
  {
    if values == [] then d
    else
      var ready := WithTarget(d, FAMILIES[f]);
      GroupEach(ready, ready.owners[FAMILIES[f].name], values, |values|)
  }

  function GroupAll(d: Draft, pending: seq<string>, n: nat): (r: Draft)
    requires Fits(d) && n <= |FAMILIES|
    ensures Fits(r)
  {
    if n == 0 then d else GroupFamily(GroupAll(d, pending, n - 1), n - 1, ValuesOf(pending, n - 1))
  }

  function Start(s: Settings): (d: Draft)
    ensures Fits(d)
  {
    var copies := Copies(s.environments);
    Draft(OwnersOf(copies), copies, 0, 0)
  }

  function Proposed(s: Settings, received: seq<string>): Draft {
    var d := Start(s);
    GroupAll(d, Pending(received, |received|, d.owners), |FAMILIES|)
  }

  function Proposal(s: Settings, received: seq<string>): Settings {
    Settings(Proposed(s, received).environments, s.apps)
  }

  method BuildOwners(es: seq<Environment>) returns (owners: map<string, nat>)
    ensures owners == OwnersOf(es)
  {
    owners := map[];
    for n := 0 to |es|
      invariant owners == OwnNames(es, n)
    {
      if Lower(es[n].name) !in owners {
        owners := owners[Lower(es[n].name) := n];
      }
    }
    for n := 0 to |es|
      invariant owners == OwnAll(es, n)
    {
      ghost var before := owners;
      for k := 0 to |es[n].aliases|
        invariant owners == OwnAliases(before, es[n].aliases, k, n)
      {
        if Lower(es[n].aliases[k]) !in owners {
          owners := owners[Lower(es[n].aliases[k]) := n];
        }
      }
    }
  }

  method FindPending(received: seq<string>, owners: map<string, nat>) returns (pending: seq<string>)
    ensures pending == Pending(received, |received|, owners)
  {
    pending := [];
    for n := 0 to |received|
      invariant pending == Pending(received, n, owners)
    {
      if IsPending(received[n], owners, pending) {
        pending := pending + [received[n]];
      }
    }
  }

  /** One round of the loop over the families. */
  method GroupOneFamily(d: Draft, f: nat, values: seq<string>) returns (r: Draft)
    requires Fits(d) && f < |FAMILIES|
    ensures r == GroupFamily(d, f, values)
  {
    r := d;
    if values == [] {
      return;
    }
    var family := FAMILIES[f];
    if family.name !in r.owners {
      var target := Environment(family.name, family.title, family.kind, "", false, NextOrder(r.environments), []);
      r := r.(owners := r.owners[family.name := |r.environments|], environments := r.environments + [target],
        created := r.created + 1);
    }
    var t := r.owners[family.name];
    ghost var ready := r;
    for n := 0 to |values|
      invariant Fits(r) && t < |r.environments|
      invariant r == GroupEach(ready, t, values, n)
    {
      var es := r.environments;
      if !SameText(values[n], es[t].name) {
        es := es[t := es[t].(aliases := es[t].aliases + [values[n]])];
      }
      r := r.(owners := r.owners[Lower(values[n]) := t], environments := es, grouped := r.grouped + 1);
    }
  }

  method Propose(s: Settings, received: seq<string>) returns (settings: Settings, grouped: nat, created: nat)
    ensures settings == Proposal(s, received)
    ensures grouped == Proposed(s, received).grouped && created == Proposed(s, received).created
  {
    var es := Copies(s.environments);
    var owners := BuildOwners(es);
    var pending := FindPending(received, owners);
    var d := Draft(owners, es, 0, 0);
    for f := 0 to |FAMILIES|
      invariant Fits(d) && d == GroupAll(Start(s), pending, f)
    {
      d := GroupOneFamily(d, f, ValuesOf(pending, f));
    }
    settings, grouped, created := Settings(d.environments, s.apps), d.grouped, d.created;
  }
}
