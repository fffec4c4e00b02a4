/**
 The check of the settings of applications, once each text is read: which values an application attaches to
 an environment or detaches, and which applications are left out as empty. The loops stop at the first
 thing wrong; a statement about all applications at once says when they do, and functions that check
 nothing say what the loops make of the settings they accept.
 */
module EnvironmentApps {
  import opened Wrappers
  import opened EnvironmentCheck

  /** A value an application sends and the environment it belongs to for it; no target: the value stays as it is. */
  datatype Attached = Attached(value: string, target: string)

  datatype App = App(service: string, aliases: seq<Attached>, hidden: seq<string>)

  const MAX_APPS := 1000
  const MAX_SERVICE := 200

  datatype ReadAttached = ReadAttached(value: Value, target: string)

  /** The settings of an application as read; a blank text is empty. */
  datatype ReadApp = ReadApp(service: string, aliases: seq<ReadAttached>, hidden: seq<Value>)

  // ------------------------------------------------------------------ attached values

  datatype AttachedResult = BadAttached(problem: Problem) | AttachedResult(list: seq<Attached>)

  function AddAttached(names: set<string>, read: seq<ReadAttached>, k: nat, list: seq<Attached>,
      keys: set<string>): AttachedResult
    decreases |read| - k
  {
    if k >= |read| then AttachedResult(list)
    else
      var v, target := read[k].value, read[k].target;
      if v.text == "" then AddAttached(names, read, k + 1, list, keys)
      else if |v.text| > MAX_LENGTH then BadAttached(LongAppValue)
      else if v.key in keys then BadAttached(SameAppValue)
      else if target != "" && target !in names then BadAttached(UnknownTarget)
      else if target == "" && v.key in names then BadAttached(NamedValue)
      else AddAttached(names, read, k + 1, list + [Attached(v.text, target)], keys + {v.key})
  }

  /** The attached values from k on that are not blank. */
  function CleanAttached(read: seq<ReadAttached>, k: nat): seq<Attached>
    decreases |read| - k
  {
    if k >= |read| then []
    else
      (if read[k].value.text == "" then [] else [Attached(read[k].value.text, read[k].target)])
      + CleanAttached(read, k + 1)
  }

  /** The value is short enough and belongs to a known environment, or to none if it is not the name of one. */
  predicate IsAttachable(names: set<string>, a: ReadAttached) {
    a.value.text != ""
    ==> |a.value.text| <= MAX_LENGTH && if a.target == "" then a.value.key !in names else a.target in names
  }

  predicate AreDifferent(a: ReadAttached, b: ReadAttached) {
    a.value.text == "" || b.value.text == "" || a.value.key != b.value.key
  }

  predicate AttachedAreGood(names: set<string>, read: seq<ReadAttached>, from: nat) {
    && (forall k :: from <= k < |read| ==> IsAttachable(names, read[k]))
    && (forall j, k :: 0 <= j < k < |read| && from <= k ==> AreDifferent(read[j], read[k]))
  }

  /** The keys of the values before k. */
  predicate AreKeys(read: seq<ReadAttached>, k: nat, keys: set<string>)
    requires k <= |read|
  {
    && (forall j :: 0 <= j < k && read[j].value.text != "" ==> read[j].value.key in keys)
    && (forall key :: key in keys ==> IsKeyBefore(read, k, key))
  }

  predicate IsKeyBefore(read: seq<ReadAttached>, k: nat, key: string)
    requires k <= |read|
  {
    exists j :: 0 <= j < k && read[j].value.text != "" && read[j].value.key == key
  }

  lemma {:induction false} AttachingIsExact(names: set<string>, read: seq<ReadAttached>, k: nat, list: seq<Attached>,
      keys: set<string>)
    requires k <= |read| && AreKeys(read, k, keys)
    ensures var r := AddAttached(names, read, k, list, keys);
      && (r.AttachedResult? <==> AttachedAreGood(names, read, k))
      && (r.AttachedResult? ==> r.list == list + CleanAttached(read, k))
    decreases |read| - k
  {
    if k < |read| {
      var v, target := read[k].value, read[k].target;
      OneMoreIsGood(names, read, k);
      if v.text == "" {
        AttachingIsExact(names, read, k + 1, list, keys);
      } else if IsAttachable(names, read[k]) && v.key !in keys {
        AttachingIsExact(names, read, k + 1, list + [Attached(v.text, target)], keys + {v.key});
      } else if v.key in keys {
        assert IsKeyBefore(read, k, v.key);
      }
    }
  }

  lemma OneMoreIsGood(names: set<string>, read: seq<ReadAttached>, k: nat)
    requires k < |read|
    ensures AttachedAreGood(names, read, k) <==>
      IsAttachable(names, read[k]) && (forall j :: 0 <= j < k ==> AreDifferent(read[j], read[k]))
        && AttachedAreGood(names, read, k + 1)
  {
  }

  // ------------------------------------------------------------------ hidden environments

  /** The name of an environment as it is defined; another value as it is. */
  function Entry(names: set<string>, v: Value): string {
    if v.key in names then v.key else v.text
  }

  /** The entries from k on whose key was not seen, each once. */
  function CleanHidden(names: set<string>, hidden: seq<Value>, k: nat, seen: set<string>): seq<string>
    decreases |hidden| - k
  {
    if k >= |hidden| then []
    else if hidden[k].text == "" || hidden[k].key in seen then CleanHidden(names, hidden, k + 1, seen)
    else [Entry(names, hidden[k])] + CleanHidden(names, hidden, k + 1, seen + {hidden[k].key})
  }

  // ------------------------------------------------------------------ applications

  function CleanApp(names: set<string>, app: ReadApp): App {
    App(app.service, CleanAttached(app.aliases, 0), CleanHidden(names, app.hidden, 0, {}))
  }

  predicate IsEmpty(app: App) {
    app.aliases == [] && app.hidden == []
  }

  datatype AppResult = BadApp(problem: Problem) | GoodApp(app: App)

  /** One round of the loop over the applications. */
  function CheckApp(names: set<string>, services: set<string>, app: ReadApp): AppResult {
    if app.service == "" then BadApp(MissingService)
    else if |app.service| > MAX_SERVICE then BadApp(LongService)
    else if app.service in services then BadApp(SameService)
    else
      match AddAttached(names, app.aliases, 0, [], {})
      case BadAttached(p) => BadApp(p)
      case AttachedResult(list) =>
        var hidden := CleanHidden(names, app.hidden, 0, {});
        if |list| > MAX_VALUES || |hidden| > MAX_VALUES then BadApp(TooManyAppValues)
        else GoodApp(App(app.service, list, hidden))
  }

  datatype Apps = BadApps(problem: Problem) | Apps(list: seq<App>)

  function Kept(app: App): seq<App> {
    if IsEmpty(app) then [] else [app]
  }

  function CheckApps(names: set<string>, apps: seq<ReadApp>, k: nat, services: set<string>, list: seq<App>): Apps
    decreases |apps| - k
  {
    if k >= |apps| then (if |list| > MAX_APPS then BadApps(TooManyApps) else Apps(list))
    else
      match CheckApp(names, services, apps[k])
      case BadApp(p) => BadApps(p)
      case GoodApp(app) => CheckApps(names, apps, k + 1, services + {app.service}, list + Kept(app))
  }

  /** The applications from k on that have settings, cleaned. */
  function CleanApps(names: set<string>, apps: seq<ReadApp>, k: nat): seq<App>
    decreases |apps| - k
  {
    if k >= |apps| then [] else Kept(CleanApp(names, apps[k])) + CleanApps(names, apps, k + 1)
  }

  predicate AppIsGood(names: set<string>, app: ReadApp) {
    && app.service != "" && |app.service| <= MAX_SERVICE
    && AttachedAreGood(names, app.aliases, 0)
    && |CleanApp(names, app).aliases| <= MAX_VALUES && |CleanApp(names, app).hidden| <= MAX_VALUES
  }

  predicate EachIsGood(names: set<string>, apps: seq<ReadApp>, from: nat) {
    && (forall k :: from <= k < |apps| ==> AppIsGood(names, apps[k]))
    && (forall j, k :: 0 <= j < k < |apps| && from <= k ==> apps[j].service != apps[k].service)
  }

  predicate AppsAreGood(names: set<string>, apps: seq<ReadApp>) {
    EachIsGood(names, apps, 0) && |CleanApps(names, apps, 0)| <= MAX_APPS
  }

  predicate AreServices(apps: seq<ReadApp>, k: nat, services: set<string>)
    requires k <= |apps|
  {
    && (forall j :: 0 <= j < k ==> apps[j].service in services)
    && (forall s :: s in services ==> exists j :: 0 <= j < k && apps[j].service == s)
  }

  lemma OneAppIsExact(names: set<string>, services: set<string>, app: ReadApp)
    ensures var r := CheckApp(names, services, app);
      && (r.GoodApp? <==> AppIsGood(names, app) && app.service !in services)
      && (r.GoodApp? ==> r.app == CleanApp(names, app))
  {
    assert AreKeys(app.aliases, 0, {});
    AttachingIsExact(names, app.aliases, 0, [], {});
    assert [] + CleanAttached(app.aliases, 0) == CleanAttached(app.aliases, 0);
  }

  /** Each application from k on is good and its service is new. */
  predicate GoodFrom(names: set<string>, apps: seq<ReadApp>, k: nat, services: set<string>)
    decreases |apps| - k
  {
    k >= |apps|
    || (AppIsGood(names, apps[k]) && apps[k].service !in services
        && GoodFrom(names, apps, k + 1, services + {apps[k].service}))
  }

  lemma {:induction false} GoodOneByOne(names: set<string>, apps: seq<ReadApp>, k: nat, services: set<string>)
    requires k <= |apps| && AreServices(apps, k, services)
    ensures GoodFrom(names, apps, k, services) <==> EachIsGood(names, apps, k)
    decreases |apps| - k
  {
    if k < |apps| {
      OneMoreAppIsGood(names, apps, k, services);
      GoodOneByOne(names, apps, k + 1, services + {apps[k].service});
    }
  }

  lemma {:induction false} CheckingAppsIsExact(names: set<string>, apps: seq<ReadApp>, k: nat, services: set<string>,
      list: seq<App>)
    requires k <= |apps|
    ensures var r := CheckApps(names, apps, k, services, list);
      && (r.Apps? <==> GoodFrom(names, apps, k, services) && |list + CleanApps(names, apps, k)| <= MAX_APPS)
      && (r.Apps? ==> r.list == list + CleanApps(names, apps, k))
    decreases |apps| - k
  {
    if k == |apps| {
      assert list + CleanApps(names, apps, k) == list;
    } else {
      OneAppIsExact(names, services, apps[k]);
      if CheckApp(names, services, apps[k]).GoodApp? {
        var app := CleanApp(names, apps[k]);
        CheckingAppsIsExact(names, apps, k + 1, services + {app.service}, list + Kept(app));
        Regroup(list, Kept(app), CleanApps(names, apps, k + 1));
      }
    }
  }

  lemma OneMoreAppIsGood(names: set<string>, apps: seq<ReadApp>, k: nat, services: set<string>)
    requires k < |apps| && AreServices(apps, k, services)
    ensures EachIsGood(names, apps, k) <==>
      AppIsGood(names, apps[k]) && apps[k].service !in services && EachIsGood(names, apps, k + 1)
    ensures AreServices(apps, k + 1, services + {apps[k].service})
  {
  }

  /** The loop accepts the applications exactly when they are good, and then cleans each of them. */
  lemma AppsAreExact(names: set<string>, apps: seq<ReadApp>)
    ensures var r := CheckApps(names, apps, 0, {}, []);
      && (r.Apps? <==> AppsAreGood(names, apps))
      && (r.Apps? ==> r.list == CleanApps(names, apps, 0))
  {
    GoodOneByOne(names, apps, 0, {});
    CheckingAppsIsExact(names, apps, 0, {}, []);
    assert [] + CleanApps(names, apps, 0) == CleanApps(names, apps, 0);
  }
}
