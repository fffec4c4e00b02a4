/**
 The check of the environment settings: the loops over environments and values, once each text is read.
 Both loops are compared with a statement about the settings as a whole.
 */
module EnvironmentCheck {

  /** A missing text is the empty text: the program treats both alike. */
  datatype Environment = Environment(
    name: string, title: string, kind: string, color: string, hidden: bool, order: int, aliases: seq<string>)

  datatype Problem =
    | NoProblem
    | TooManyEnvironments | MissingName | BadName | LongTitle | UnknownKind | BadColor | SameName
    | LongValue | ValueInTwo | TooManyValues
    | MissingService | LongService | SameService | LongAppValue | SameAppValue | UnknownTarget | NamedValue
    | TooManyAppValues | TooManyApps

  const MAX_VALUES := 200
  const MAX_LENGTH := 100

  /** A value as read: its text on one line, empty for a blank one, and the key that compares it without case. */
  datatype Value = Value(text: string, key: string)

  /** An environment as read: what is wrong with it, its definition without aliases, and the values it groups. */
  datatype Source = Source(problem: Problem, definition: Environment, values: seq<Value>)

  // ------------------------------------------------------------------ names

  datatype Definitions =
    | BadDefinitions(problem: Problem)
    | Definitions(owners: map<string, nat>, list: seq<Environment>)

  function Define(owners: map<string, nat>, list: seq<Environment>, source: Source): Definitions {
    if source.problem != NoProblem then BadDefinitions(source.problem)
    else if source.definition.name in owners then BadDefinitions(SameName)
    else Definitions(owners[source.definition.name := |list|],
      list + [source.definition.(order := |list|, aliases := [])])
  }

  function DefineAll(sources: seq<Source>, owners: map<string, nat>, list: seq<Environment>): (r: Definitions)
    requires |list| <= |sources|
    ensures r.Definitions? ==> |r.list| == |sources|
    decreases |sources| - |list|
  {
    if |list| == |sources| then Definitions(owners, list)
    else
      match Define(owners, list, sources[|list|])
      case BadDefinitions(p) => BadDefinitions(p)
      case Definitions(o, l) => DefineAll(sources, o, l)
  }

  predicate NamesAreOwned(sources: seq<Source>, owners: map<string, nat>, n: nat)
    requires n <= |sources|
  {
    && (forall i :: 0 <= i < n ==> sources[i].definition.name in owners && owners[sources[i].definition.name] == i)
    && (forall key :: key in owners ==> owners[key] < n && sources[owners[key]].definition.name == key)
  }

  function Numbered(sources: seq<Source>): seq<Environment> {
    seq(|sources|, i requires 0 <= i < |sources| => sources[i].definition.(order := i, aliases := []))
  }

  ghost predicate NamesAreGood(sources: seq<Source>, from: nat) {
    && (forall i :: from <= i < |sources| ==> sources[i].problem == NoProblem)
    && (forall i, j :: 0 <= i < j < |sources| && from <= j ==> sources[i].definition.name != sources[j].definition.name)
  }

  lemma {:induction false} DefiningIsExact(sources: seq<Source>, owners: map<string, nat>, list: seq<Environment>)
    requires |list| <= |sources| && NamesAreOwned(sources, owners, |list|) && list == Numbered(sources[..|list|])
    ensures var r := DefineAll(sources, owners, list);
      && (r.Definitions? <==> NamesAreGood(sources, |list|))
      && (r.Definitions? ==> NamesAreOwned(sources, r.owners, |sources|) && r.list == Numbered(sources))
    decreases |sources| - |list|
  {
    if |list| == |sources| {
      assert sources[..|list|] == sources;
    } else {
      var n := |list|;
      match Define(owners, list, sources[n])
      case BadDefinitions(_) =>
        if sources[n].problem == NoProblem {
          assert sources[owners[sources[n].definition.name]].definition.name == sources[n].definition.name;
        }
      case Definitions(o, l) =>
        OneGoodName(sources, owners, list);
        DefiningIsExact(sources, o, l);
    }
  }

  lemma OneGoodName(sources: seq<Source>, owners: map<string, nat>, list: seq<Environment>)
    requires |list| < |sources| && NamesAreOwned(sources, owners, |list|) && list == Numbered(sources[..|list|])
    requires Define(owners, list, sources[|list|]).Definitions?
    ensures var r := Define(owners, list, sources[|list|]);
      && |r.list| == |list| + 1 && NamesAreOwned(sources, r.owners, |list| + 1)
      && r.list == Numbered(sources[..|list| + 1])
      && (NamesAreGood(sources, |list|) <==> NamesAreGood(sources, |list| + 1))
  {
    assert forall i :: 0 <= i < |list| ==> sources[i].definition.name in owners;
  }

  // ------------------------------------------------------------------ values

  datatype Values = BadValues(problem: Problem) | Values(owners: map<string, nat>, list: seq<string>)

  /** The loop over the values of environment i, from value k on. */
  function AddValues(owners: map<string, nat>, i: nat, values: seq<Value>, k: nat, list: seq<string>): Values
    decreases |values| - k
  {
    if k >= |values| then Values(owners, list)
    else
      var v := values[k];
      if v.text == "" then AddValues(owners, i, values, k + 1, list)
      else if |v.text| > MAX_LENGTH then BadValues(LongValue)
      else if v.key in owners then
        if owners[v.key] == i then AddValues(owners, i, values, k + 1, list) else BadValues(ValueInTwo)
      else AddValues(owners[v.key := i], i, values, k + 1, list + [v.text])
  }

  /** The values from k on that are not blank and whose key was not seen, each once. */
  function NewValues(values: seq<Value>, k: nat, seen: set<string>): seq<string>
    decreases |values| - k
  {
    if k >= |values| then []
    else
      var v := values[k];
      if v.text == "" || v.key in seen then NewValues(values, k + 1, seen)
      else [v.text] + NewValues(values, k + 1, seen + {v.key})
  }

  /** A value from k on has this key. */
  predicate HasValue(values: seq<Value>, k: nat, key: string) {
    exists j :: k <= j < |values| && values[j].text != "" && values[j].key == key
  }

  predicate ValuesAreFree(owners: map<string, nat>, i: nat, values: seq<Value>, k: nat) {
    forall j :: k <= j < |values| && values[j].text != "" ==>
      |values[j].text| <= MAX_LENGTH && (values[j].key in owners ==> owners[values[j].key] == i)
  }

  /** `after` is `before` with the given values owned by environment i. */
  predicate IsExtended(before: map<string, nat>, after: map<string, nat>, i: nat, values: seq<Value>, k: nat) {
    && (forall key :: key in before ==> key in after && after[key] == before[key])
    && (forall key :: key in after && key !in before ==> after[key] == i && HasValue(values, k, key))
    && (forall j :: k <= j < |values| && values[j].text != "" ==> values[j].key in after && after[values[j].key] == i)
  }

  /** Each value from k on is blank, or short enough and unowned or owned by environment i already. */
  predicate FreeFrom(owners: map<string, nat>, i: nat, values: seq<Value>, k: nat)
    decreases |values| - k
  {
    k >= |values| || (
      var v := values[k];
      if v.text == "" then FreeFrom(owners, i, values, k + 1)
      else
        |v.text| <= MAX_LENGTH
        && if v.key in owners then owners[v.key] == i && FreeFrom(owners, i, values, k + 1)
           else FreeFrom(owners[v.key := i], i, values, k + 1))
  }

  lemma {:induction false} FreeOneByOne(owners: map<string, nat>, i: nat, values: seq<Value>, k: nat)
    requires k <= |values|
    ensures FreeFrom(owners, i, values, k) <==> ValuesAreFree(owners, i, values, k)
    decreases |values| - k
  {
    if k < |values| {
      var v := values[k];
      if v.text == "" || v.key in owners {
        FreeOneByOne(owners, i, values, k + 1);
      } else {
        FreeOneByOne(owners[v.key := i], i, values, k + 1);
        if |v.text| <= MAX_LENGTH {
          OneNewValue(owners, i, values, k);
        }
      }
    }
  }

  lemma {:induction false} AddingIsExact(owners: map<string, nat>, i: nat, values: seq<Value>, k: nat,
      list: seq<string>, seen: set<string>)
    requires k <= |values|
    requires forall key :: key in seen <==> key in owners && owners[key] == i
    ensures var r := AddValues(owners, i, values, k, list);
      && (r.Values? <==> FreeFrom(owners, i, values, k))
      && (r.Values? ==> IsExtended(owners, r.owners, i, values, k) && r.list == list + NewValues(values, k, seen))
    decreases |values| - k
  {
    if k < |values| {
      var v := values[k];
      if v.text == "" || (|v.text| <= MAX_LENGTH && v.key in owners && owners[v.key] == i) {
        AddingIsExact(owners, i, values, k + 1, list, seen);
        var r := AddValues(owners, i, values, k, list);
        if r.Values? {
          ExtendedByNone(owners, r.owners, i, values, k);
        }
      } else if |v.text| <= MAX_LENGTH && v.key !in owners {
        AddingIsExact(owners[v.key := i], i, values, k + 1, list + [v.text], seen + {v.key});
        var r := AddValues(owners, i, values, k, list);
        if r.Values? {
          ExtendedByOne(owners, r.owners, i, values, k);
        }
      }
    }
  }

  lemma ExtendedByNone(owners: map<string, nat>, after: map<string, nat>, i: nat, values: seq<Value>, k: nat)
    requires k < |values| && (values[k].text == "" || (values[k].key in owners && owners[values[k].key] == i))
    requires IsExtended(owners, after, i, values, k + 1)
    ensures IsExtended(owners, after, i, values, k)
  {
  }

  lemma OneNewValue(owners: map<string, nat>, i: nat, values: seq<Value>, k: nat)
    requires k < |values| && values[k].text != "" && |values[k].text| <= MAX_LENGTH && values[k].key !in owners
    ensures ValuesAreFree(owners, i, values, k) <==> ValuesAreFree(owners[values[k].key := i], i, values, k + 1)
  {
  }

  lemma ExtendedByOne(owners: map<string, nat>, after: map<string, nat>, i: nat, values: seq<Value>, k: nat)
    requires k < |values| && values[k].text != "" && values[k].key !in owners
    requires IsExtended(owners[values[k].key := i], after, i, values, k + 1)
    ensures IsExtended(owners, after, i, values, k)
  {
    assert values[k].key in owners[values[k].key := i];
  }

  // ------------------------------------------------------------------ the values of all environments

  datatype Environments = BadEnvironments(problem: Problem) | Environments(list: seq<Environment>)

  /** The second loop, from environment i on. */
  function AddAllValues(sources: seq<Source>, owners: map<string, nat>, list: seq<Environment>, i: nat): Environments
    requires |list| == |sources|
    decreases |list| - i
  {
    if i >= |list| then Environments(list)
    else
      match AddValues(owners, i, sources[i].values, 0, [])
      case BadValues(p) => BadEnvironments(p)
      case Values(o, aliases) =>
        if |aliases| > MAX_VALUES then BadEnvironments(TooManyValues)
        else AddAllValues(sources, o, list[i := list[i].(aliases := aliases)], i + 1)
  }

  function CleanValues(source: Source): seq<string> {
    NewValues(source.values, 0, {source.definition.name})
  }

  function CleanEnvironment(source: Source, order: int): Environment {
    source.definition.(order := order, aliases := CleanValues(source))
  }

  /** Every name is owned, and the values of the first n environments, and nothing else. */
  predicate Stage(sources: seq<Source>, owners: map<string, nat>, n: nat)
    requires n <= |sources|
  {
    && (forall i :: 0 <= i < |sources| ==>
                      sources[i].definition.name in owners && owners[sources[i].definition.name] == i)
    && (forall i :: 0 <= i < n ==> AreOwned(sources[i].values, owners, i))
    && (forall key :: key in owners ==> owners[key] < |sources| && IsOwner(sources[owners[key]], key, owners[key] < n))
  }

  predicate AreOwned(values: seq<Value>, owners: map<string, nat>, i: nat) {
    forall j :: 0 <= j < |values| && values[j].text != "" ==> values[j].key in owners && owners[values[j].key] == i
  }

  predicate IsOwner(source: Source, key: string, withValues: bool) {
    source.definition.name == key || (withValues && HasValue(source.values, 0, key))
  }

  predicate ValuesFit(source: Source) {
    && (forall j :: 0 <= j < |source.values| ==> |source.values[j].text| <= MAX_LENGTH)
    && |CleanValues(source)| <= MAX_VALUES
  }

  /** No value of environment i is the name of another one or a value of one before it. */
  ghost predicate IsFree(sources: seq<Source>, i: nat)
    requires i < |sources|
  {
    forall key :: HasValue(sources[i].values, 0, key) ==>
      (forall j :: 0 <= j < |sources| && j != i ==> sources[j].definition.name != key)
      && (forall j :: 0 <= j < i ==> !HasValue(sources[j].values, 0, key))
  }

  lemma FreeExactlyWhenUnowned(sources: seq<Source>, owners: map<string, nat>, n: nat)
    requires n < |sources| && Stage(sources, owners, n)
    requires forall j :: 0 <= j < |sources[n].values| ==> |sources[n].values[j].text| <= MAX_LENGTH
    ensures ValuesAreFree(owners, n, sources[n].values, 0) <==> IsFree(sources, n)
  {
    var values := sources[n].values;
    if ValuesAreFree(owners, n, values, 0) {
      forall key | HasValue(values, 0, key)
        ensures (forall j :: 0 <= j < |sources| && j != n ==> sources[j].definition.name != key)
        ensures (forall j :: 0 <= j < n ==> !HasValue(sources[j].values, 0, key))
      {
        assert key in owners ==> owners[key] == n;
        forall j | 0 <= j < n ensures !HasValue(sources[j].values, 0, key) {
          assert AreOwned(sources[j].values, owners, j);
        }
      }
    }
    if IsFree(sources, n) {
      forall j | 0 <= j < |values| && values[j].text != "" && values[j].key in owners
        ensures owners[values[j].key] == n {
        var key := values[j].key;
        assert HasValue(values, 0, key);
        assert IsOwner(sources[owners[key]], key, owners[key] < n);
      }
    }
  }

  lemma NextStage(sources: seq<Source>, owners: map<string, nat>, after: map<string, nat>, n: nat)
    requires n < |sources| && Stage(sources, owners, n) && IsExtended(owners, after, n, sources[n].values, 0)
    ensures Stage(sources, after, n + 1)
  {
    forall i | 0 <= i < n + 1 ensures AreOwned(sources[i].values, after, i) {
      if i < n {
        assert AreOwned(sources[i].values, owners, i);
      }
    }
    forall key | key in after ensures after[key] < |sources| && IsOwner(sources[after[key]], key, after[key] < n + 1) {
      if key in owners {
        assert IsOwner(sources[owners[key]], key, owners[key] < n);
      }
    }
  }

  ghost predicate OneIsGood(sources: seq<Source>, i: nat)
    requires i < |sources|
  {
    ValuesFit(sources[i]) && IsFree(sources, i)
  }

  ghost predicate ValuesAreGood(sources: seq<Source>, from: nat) {
    forall i :: from <= i < |sources| ==> OneIsGood(sources, i)
  }

  /** The values of environment i are added exactly when they fit and are free. */
  lemma OneEnvironmentIsExact(sources: seq<Source>, owners: map<string, nat>, i: nat)
    requires i < |sources| && Stage(sources, owners, i)
    ensures var r := AddValues(owners, i, sources[i].values, 0, []);
      && (OneIsGood(sources, i) <==> r.Values? && |r.list| <= MAX_VALUES)
      && (r.Values? ==> r.list == CleanValues(sources[i]) && Stage(sources, r.owners, i + 1))
  {
    var source := sources[i];
    var seen := {source.definition.name};
    forall key ensures key in seen <==> key in owners && owners[key] == i {
      if key in owners && owners[key] == i {
        assert IsOwner(sources[owners[key]], key, owners[key] < i);
      }
    }
    AddingIsExact(owners, i, source.values, 0, [], seen);
    FreeOneByOne(owners, i, source.values, 0);
    var r := AddValues(owners, i, source.values, 0, []);
    assert [] + CleanValues(source) == CleanValues(source);
    if r.Values? {
      NextStage(sources, owners, r.owners, i);
      forall j | 0 <= j < |source.values| ensures |source.values[j].text| <= MAX_LENGTH {
      }
      FreeExactlyWhenUnowned(sources, owners, i);
    } else if ValuesFit(source) {
      FreeExactlyWhenUnowned(sources, owners, i);
    }
  }

  /** The values of each environment from i on fit and are free. */
  ghost predicate GoodFrom(sources: seq<Source>, i: nat)
    decreases |sources| - i
  {
    i >= |sources| || (OneIsGood(sources, i) && GoodFrom(sources, i + 1))
  }

  lemma {:induction false} GoodOneByOne(sources: seq<Source>, i: nat)
    requires i <= |sources|
    ensures GoodFrom(sources, i) <==> ValuesAreGood(sources, i)
    decreases |sources| - i
  {
    if i < |sources| {
      GoodOneByOne(sources, i + 1);
    }
  }

  /** The list with the values of the environments from i on. */
  function WithValues(sources: seq<Source>, list: seq<Environment>, i: nat): seq<Environment>
    requires |list| == |sources|
  {
    seq(|list|, j requires 0 <= j < |list| => if j < i then list[j] else list[j].(aliases := CleanValues(sources[j])))
  }

  lemma OneMoreWithValues(sources: seq<Source>, list: seq<Environment>, i: nat)
    requires |list| == |sources| && i < |list|
    ensures WithValues(sources, list[i := list[i].(aliases := CleanValues(sources[i]))], i + 1)
            == WithValues(sources, list, i)
  {
  }

  lemma {:induction false} AddingAllIsExact(sources: seq<Source>, owners: map<string, nat>, list: seq<Environment>,
      i: nat)
    requires |list| == |sources| && i <= |list| && Stage(sources, owners, i)
    ensures var r := AddAllValues(sources, owners, list, i);
      && (r.Environments? <==> GoodFrom(sources, i))
      && (r.Environments? ==> r.list == WithValues(sources, list, i))
    decreases |list| - i
  {
    if i < |list| {
      OneEnvironmentIsExact(sources, owners, i);
      OneMoreWithValues(sources, list, i);
      var v := AddValues(owners, i, sources[i].values, 0, []);
      if v.Values? && |v.list| <= MAX_VALUES {
        AddingAllIsExact(sources, v.owners, list[i := list[i].(aliases := v.list)], i + 1);
      }
    } else {
      assert WithValues(sources, list, i) == list;
    }
  }

  // ------------------------------------------------------------------ when environments are accepted

  /** The environment groups the values of this key: by its name or by a value. */
  predicate Groups(source: Source, key: string) {
    source.definition.name == key || HasValue(source.values, 0, key)
  }

  ghost predicate Apart(a: Source, b: Source) {
    forall key :: !(Groups(a, key) && Groups(b, key))
  }

  /** Nothing is wrong with any environment, and no value belongs to two of them. */
  ghost predicate AreGood(sources: seq<Source>) {
    && (forall i :: 0 <= i < |sources| ==> sources[i].problem == NoProblem && ValuesFit(sources[i]))
    && (forall i, j :: 0 <= i < j < |sources| ==> Apart(sources[i], sources[j]))
  }

  function Checked(sources: seq<Source>): Environments {
    match DefineAll(sources, map[], [])
    case BadDefinitions(p) => BadEnvironments(p)
    case Definitions(owners, list) => AddAllValues(sources, owners, list, 0)
  }

  function Clean(sources: seq<Source>): seq<Environment> {
    seq(|sources|, i requires 0 <= i < |sources| => CleanEnvironment(sources[i], i))
  }

  lemma GoodInTwoLoops(sources: seq<Source>)
    ensures AreGood(sources) <==> NamesAreGood(sources, 0) && ValuesAreGood(sources, 0)
  {
    if AreGood(sources) {
      GoodNames(sources);
      forall i | 0 <= i < |sources| ensures OneIsGood(sources, i) {
        GoodIsFree(sources, i);
      }
    }
    if NamesAreGood(sources, 0) && ValuesAreGood(sources, 0) {
      forall i | 0 <= i < |sources| ensures ValuesFit(sources[i]) {
        assert OneIsGood(sources, i);
      }
      forall i, j | 0 <= i < j < |sources| ensures Apart(sources[i], sources[j]) {
        FreeIsApart(sources, i, j);
      }
    }
  }

  lemma GoodNames(sources: seq<Source>)
    requires AreGood(sources)
    ensures NamesAreGood(sources, 0)
  {
    forall i, j | 0 <= i < j < |sources| ensures sources[i].definition.name != sources[j].definition.name {
      assert Apart(sources[i], sources[j]);
      assert Groups(sources[i], sources[i].definition.name);
    }
  }

  lemma GoodIsFree(sources: seq<Source>, i: nat)
    requires AreGood(sources) && i < |sources|
    ensures IsFree(sources, i)
  {
    forall key | HasValue(sources[i].values, 0, key)
      ensures (forall j :: 0 <= j < |sources| && j != i ==> sources[j].definition.name != key)
      ensures (forall j :: 0 <= j < i ==> !HasValue(sources[j].values, 0, key))
    {
      assert Groups(sources[i], key);
      forall j | 0 <= j < |sources| && j != i ensures !Groups(sources[j], key) {
        assert if i < j then Apart(sources[i], sources[j]) else Apart(sources[j], sources[i]);
      }
      forall j | 0 <= j < i ensures !HasValue(sources[j].values, 0, key) {
        assert !Groups(sources[j], key);
      }
      forall j | 0 <= j < |sources| && j != i ensures sources[j].definition.name != key {
        assert !Groups(sources[j], key);
      }
    }
  }

  lemma FreeIsApart(sources: seq<Source>, i: nat, j: nat)
    requires NamesAreGood(sources, 0) && ValuesAreGood(sources, 0) && i < j < |sources|
    ensures Apart(sources[i], sources[j])
  {
    forall key ensures !(Groups(sources[i], key) && Groups(sources[j], key)) {
      assert OneIsGood(sources, i) && OneIsGood(sources, j);
    }
  }

  /** The loops accept the environments exactly when they are good, and then clean each of them. */
  lemma EnvironmentsAreExact(sources: seq<Source>)
    ensures var r := Checked(sources);
      && (r.Environments? <==> AreGood(sources))
      && (r.Environments? ==> r.list == Clean(sources))
  {
    assert sources[..0] == [] && Numbered([]) == [];
    DefiningIsExact(sources, map[], []);
    GoodInTwoLoops(sources);
    var d := DefineAll(sources, map[], []);
    GoodOneByOne(sources, 0);
    if d.Definitions? {
      AddingAllIsExact(sources, d.owners, d.list, 0);
    }
  }
}
