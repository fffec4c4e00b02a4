/** The environment settings as typed: what the check accepts, and what it makes of them. */
module EnvironmentStore {
  import opened Wrappers
  import opened Strings
  import opened EnvironmentText
  import opened EnvironmentCheck
  import opened EnvironmentApps

  datatype Settings = Settings(environments: seq<Environment>, apps: seq<App>)

  datatype Outcome = Refused(problem: Problem) | Accepted(settings: Settings)

  const MAX_ENVIRONMENTS := 50

  // ------------------------------------------------------------------ sorting

  /** Insertion after every environment of the same order or a smaller one. */
  function Insert(e: Environment, sorted: seq<Environment>): (r: seq<Environment>)
    ensures |r| == |sorted| + 1
  {
    if sorted == [] then [e]
    else if sorted[|sorted| - 1].order <= e.order then sorted + [e]
    else Insert(e, sorted[..|sorted| - 1]) + [sorted[|sorted| - 1]]
  }

  /** The environments by order; those of the same order stay as they come. */
  function InOrder(es: seq<Environment>): (r: seq<Environment>)
    ensures |r| == |es|
  {
    if es == [] then [] else Insert(es[|es| - 1], InOrder(es[..|es| - 1]))
  }

  function InsertApp(a: App, sorted: seq<App>): (r: seq<App>)
    ensures |r| == |sorted| + 1
  {
    if sorted == [] then [a]
    else if !Precedes(a.service, sorted[|sorted| - 1].service) then sorted + [a]
    else InsertApp(a, sorted[..|sorted| - 1]) + [sorted[|sorted| - 1]]
  }

  function ByService(apps: seq<App>): (r: seq<App>)
    ensures |r| == |apps|
  {
    if apps == [] then [] else InsertApp(apps[|apps| - 1], ByService(apps[..|apps| - 1]))
  }

  predicate Ascending(es: seq<Environment>) {
    forall i, j :: 0 <= i < j < |es| ==> es[i].order <= es[j].order
  }

  predicate AscendingApps(apps: seq<App>) {
    forall i, j :: 0 <= i < j < |apps| ==> Precedes(apps[i].service, apps[j].service)
  }

  lemma {:induction false} InOrderOfAscending(es: seq<Environment>)
    requires Ascending(es)
    ensures InOrder(es) == es
  {
    if es != [] {
      InOrderOfAscending(es[..|es| - 1]);
    }
  }

  lemma {:induction false} ByServiceOfAscending(apps: seq<App>)
    requires AscendingApps(apps)
    ensures ByService(apps) == apps
  {
    if |apps| > 0 {
      ByServiceOfAscending(apps[..|apps| - 1]);
      if |apps| > 1 {
        PrecedesTotal(apps[|apps| - 2].service, apps[|apps| - 1].service);
      }
    }
  }

  lemma {:induction false} InsertAppSorts(a: App, sorted: seq<App>)
    requires AscendingApps(sorted) && forall b :: b in sorted ==> b.service != a.service
    ensures AscendingApps(InsertApp(a, sorted))
    ensures forall b :: b in InsertApp(a, sorted) <==> b == a || b in sorted
  {
    if sorted != [] {
      var front, last := sorted[..|sorted| - 1], sorted[|sorted| - 1];
      assert last in sorted;
      PrecedesTotal(a.service, last.service);
      if Precedes(a.service, last.service) {
        InsertAppSorts(a, front);
        var r := InsertApp(a, front);
        forall i | 0 <= i < |r| ensures Precedes(r[i].service, last.service) {
          assert r[i] in r;
        }
      } else {
        forall i | 0 <= i < |front| ensures Precedes(sorted[i].service, a.service) {
          PrecedesTransitive(sorted[i].service, last.service, a.service);
        }
      }
    }
  }

  predicate DistinctServices(apps: seq<App>) {
    forall i, j :: 0 <= i < j < |apps| ==> apps[i].service != apps[j].service
  }

  lemma {:induction false} ByServiceSorts(apps: seq<App>)
    requires DistinctServices(apps)
    ensures AscendingApps(ByService(apps))
    ensures forall b :: b in ByService(apps) <==> b in apps
  {
    if apps != [] {
      var front, last := apps[..|apps| - 1], apps[|apps| - 1];
      ByServiceSorts(front);
      forall b | b in ByService(front) ensures b.service != last.service {
        assert b in front;
      }
      InsertAppSorts(last, ByService(front));
      assert apps == front + [last];
    }
  }

  // ------------------------------------------------------------------ reading

  function ReadValue(s: string): Value {
    Value(TextOf(s), Lower(TextOf(s)))
  }

  function ReadValues(texts: seq<string>): seq<Value> {
    seq(|texts|, i requires 0 <= i < |texts| => ReadValue(texts[i]))
  }

  function TitleOf(e: Environment): string {
    if TextOf(e.title) == "" then NameOf(e.name) else TextOf(e.title)
  }

  function ColorOf(e: Environment): string {
    if TextOf(e.color) == "" then "" else NormalizeColor(TextOf(e.color))
  }

  /** The tests of the first loop on one environment, in their order. */
  function ProblemOf(e: Environment): Problem {
    if NameOf(e.name) == "" then MissingName
    else if !IsName(NameOf(e.name)) then BadName
    else if |TitleOf(e)| > 40 then LongTitle
    else if !IsKind(KindOf(e.kind)) then UnknownKind
    else if TextOf(e.color) != "" && !IsColor(TextOf(e.color)) then BadColor
    else NoProblem
  }

  function ReadSource(e: Environment): Source {
    Source(ProblemOf(e), Environment(NameOf(e.name), TitleOf(e), KindOf(e.kind), ColorOf(e), e.hidden, e.order, []),
      ReadValues(e.aliases))
  }

  function ReadSources(es: seq<Environment>): seq<Source> {
    seq(|es|, i requires 0 <= i < |es| => ReadSource(es[i]))
  }

  function ReadAttachedValue(a: Attached): ReadAttached {
    ReadAttached(ReadValue(a.value), NameOf(a.target))
  }

  function ReadAliases(aliases: seq<Attached>): seq<ReadAttached> {
    seq(|aliases|, i requires 0 <= i < |aliases| => ReadAttachedValue(aliases[i]))
  }

  function ReadOneApp(a: App): ReadApp {
    ReadApp(TextOf(a.service), ReadAliases(a.aliases), ReadValues(a.hidden))
  }

  function ReadApps(apps: seq<App>): seq<ReadApp> {
    seq(|apps|, i requires 0 <= i < |apps| => ReadOneApp(apps[i]))
  }

  function NamesOf(es: seq<Environment>): set<string> {
    set i | 0 <= i < |es| :: es[i].name
  }

  // ------------------------------------------------------------------ the check

  function CheckSettings(s: Settings): Outcome {
    if |s.environments| > MAX_ENVIRONMENTS then Refused(TooManyEnvironments)
    else
      match Checked(ReadSources(InOrder(s.environments)))
      case BadEnvironments(p) => Refused(p)
      case Environments(list) =>
        match CheckApps(NamesOf(list), ReadApps(s.apps), 0, {}, [])
        case BadApps(p) => Refused(p)
        case Apps(apps) => Accepted(Settings(list, ByService(apps)))
  }

  function CleanEnvironments(s: Settings): seq<Environment> {
    Clean(ReadSources(InOrder(s.environments)))
  }

  function Cleaned(s: Settings): Settings {
    var list := CleanEnvironments(s);
    Settings(list, ByService(CleanApps(NamesOf(list), ReadApps(s.apps), 0)))
  }

  /** The settings that the check accepts. */
  ghost predicate IsGood(s: Settings) {
    && |s.environments| <= MAX_ENVIRONMENTS
    && AreGood(ReadSources(InOrder(s.environments)))
    && AppsAreGood(NamesOf(CleanEnvironments(s)), ReadApps(s.apps))
  }

  /** The check accepts the good settings and no others, and cleans what it accepts. */
  lemma CheckIsExact(s: Settings)
    ensures var r := CheckSettings(s);
      && (r.Accepted? <==> IsGood(s))
      && (r.Accepted? ==> r.settings == Cleaned(s))
  {
    var e := Checked(ReadSources(InOrder(s.environments)));
    EnvironmentsAreExact(ReadSources(InOrder(s.environments)));
    if e.Environments? {
      assert e.list == CleanEnvironments(s);
      AppsAreExact(NamesOf(e.list), ReadApps(s.apps));
    }
  }

  method GroupValues(owners: map<string, nat>, i: nat, aliases: seq<string>) returns (r: Values)
    ensures r == AddValues(owners, i, ReadValues(aliases), 0, [])
  {
    var o: map<string, nat>, list: seq<string> := owners, [];
    for k := 0 to |aliases|
      invariant AddValues(owners, i, ReadValues(aliases), 0, []) == AddValues(o, i, ReadValues(aliases), k, list)
    {
      var text := TextOf(aliases[k]);
      if text == "" {
        continue;
      }
      if |text| > MAX_LENGTH {
        return BadValues(LongValue);
      }
      if Lower(text) in o {
        if o[Lower(text)] != i {
          return BadValues(ValueInTwo);
        }
        continue;
      }
      o := o[Lower(text) := i];
      list := list + [text];
    }
    r := Values(o, list);
  }

  method DefineEnvironments(sources: seq<Environment>) returns (r: Definitions)
    ensures r == DefineAll(ReadSources(sources), map[], [])
  {
    ghost var read := ReadSources(sources);
    var owners: map<string, nat>, list: seq<Environment> := map[], [];
    while |list| < |sources|
      invariant |list| <= |sources|
      invariant DefineAll(read, map[], []) == DefineAll(read, owners, list)
      decreases |sources| - |list|
    {
      var source := ReadSource(sources[|list|]);
      assert source == read[|list|];
      if source.problem != NoProblem {
        return BadDefinitions(source.problem);
      }
      if source.definition.name in owners {
        return BadDefinitions(SameName);
      }
      owners := owners[source.definition.name := |list|];
      list := list + [source.definition.(order := |list|, aliases := [])];
    }
    r := Definitions(owners, list);
  }

  method CheckEnvironments(sources: seq<Environment>) returns (r: Environments)
    ensures r == Checked(ReadSources(sources))
  {
    ghost var read := ReadSources(sources);
    var definitions := DefineEnvironments(sources);
    if definitions.BadDefinitions? {
      return BadEnvironments(definitions.problem);
    }
    var owners, list := definitions.owners, definitions.list;
    for i := 0 to |list|
      invariant |list| == |sources|
      invariant Checked(read) == AddAllValues(read, owners, list, i)
    {
      var values := GroupValues(owners, i, sources[i].aliases);
      if values.BadValues? {
        return BadEnvironments(values.problem);
      }
      if |values.list| > MAX_VALUES {
        return BadEnvironments(TooManyValues);
      }
      owners := values.owners;
      list := list[i := list[i].(aliases := values.list)];
    }
    r := Environments(list);
  }

  method AttachValues(names: set<string>, aliases: seq<Attached>) returns (r: AttachedResult)
    ensures r == AddAttached(names, ReadAliases(aliases), 0, [], {})
  {
    ghost var read := ReadAliases(aliases);
    var list: seq<Attached>, keys: set<string> := [], {};
    for k := 0 to |aliases|
      invariant AddAttached(names, read, 0, [], {}) == AddAttached(names, read, k, list, keys)
    {
      var a := ReadAttachedValue(aliases[k]);
      assert a == read[k];
      if a.value.text == "" {
        continue;
      }
      if |a.value.text| > MAX_LENGTH {
        return BadAttached(LongAppValue);
      }
      if a.value.key in keys {
        return BadAttached(SameAppValue);
      }
      if a.target != "" && a.target !in names {
        return BadAttached(UnknownTarget);
      }
      if a.target == "" && a.value.key in names {
        return BadAttached(NamedValue);
      }
      list, keys := list + [Attached(a.value.text, a.target)], keys + {a.value.key};
    }
    r := AttachedResult(list);
  }

  method HideValues(names: set<string>, hidden: seq<string>) returns (list: seq<string>)
    ensures list == CleanHidden(names, ReadValues(hidden), 0, {})
  {
    ghost var read := ReadValues(hidden);
    list := [];
    var keys: set<string> := {};
    for k := 0 to |hidden|
      invariant list + CleanHidden(names, read, k, keys) == CleanHidden(names, read, 0, {})
    {
      var v := ReadValue(hidden[k]);
      assert v == read[k];
      if v.text != "" && v.key !in keys {
        Regroup(list, [Entry(names, v)], CleanHidden(names, read, k + 1, keys + {v.key}));
        list, keys := list + [Entry(names, v)], keys + {v.key};
      }
    }
  }

  method CheckOneApp(names: set<string>, services: set<string>, source: App) returns (r: AppResult)
    ensures r == CheckApp(names, services, ReadOneApp(source))
  {
    var service := TextOf(source.service);
    if service == "" {
      return BadApp(MissingService);
    }
    if |service| > MAX_SERVICE {
      return BadApp(LongService);
    }
    if service in services {
      return BadApp(SameService);
    }
    var attached := AttachValues(names, source.aliases);
    if attached.BadAttached? {
      return BadApp(attached.problem);
    }
    var hidden := HideValues(names, source.hidden);
    if |attached.list| > MAX_VALUES || |hidden| > MAX_VALUES {
      return BadApp(TooManyAppValues);
    }
    r := GoodApp(App(service, attached.list, hidden));
  }

  method Check(s: Settings) returns (r: Outcome)
    ensures r == CheckSettings(s)
  {
    var sources := InOrder(s.environments);
    if |sources| > MAX_ENVIRONMENTS {
      return Refused(TooManyEnvironments);
    }
    var checked := CheckEnvironments(sources);
    if checked.BadEnvironments? {
      return Refused(checked.problem);
    }
    var names := NamesOf(checked.list);
    ghost var read := ReadApps(s.apps);
    var services: set<string>, apps: seq<App> := {}, [];
    for k := 0 to |s.apps|
      invariant CheckApps(names, read, 0, {}, []) == CheckApps(names, read, k, services, apps)
    {
      var app := CheckOneApp(names, services, s.apps[k]);
      assert read[k] == ReadOneApp(s.apps[k]);
      if app.BadApp? {
        return Refused(app.problem);
      }
      services, apps := services + {app.app.service}, apps + Kept(app.app);
    }
    if |apps| > MAX_APPS {
      return Refused(TooManyApps);
    }
    r := Accepted(Settings(checked.list, ByService(apps)));
  }
}
