/**
 The normal form of the environment settings: what the check accepts unchanged, what it makes of all that it accepts,
 and why checking twice changes nothing.
 */
module EnvironmentNormal {
  import opened Strings
  import opened EnvironmentText
  import opened EnvironmentCheck
  import opened EnvironmentApps
  import opened EnvironmentStore

  // ------------------------------------------------------------------ lists of values

  /** Texts on one line, not empty, with different keys, none of them seen. */
  predicate AreClean(values: seq<string>, seen: set<string>) {
    && (forall i :: 0 <= i < |values| ==> values[i] != "" && IsText(values[i]) && Lower(values[i]) !in seen)
    && (forall i, j :: 0 <= i < j < |values| ==> Lower(values[i]) != Lower(values[j]))
  }

  /** Every text of the list is read from one of the values. */
  predicate ComeFrom(list: seq<string>, values: seq<Value>, k: nat) {
    forall i :: 0 <= i < |list| ==> HasText(values, k, list[i])
  }

  predicate HasText(values: seq<Value>, k: nat, text: string) {
    exists j :: k <= j < |values| && values[j].text == text && values[j].text != ""
  }

  lemma {:induction false} NewValuesAreClean(texts: seq<string>, k: nat, seen: set<string>)
    ensures AreClean(NewValues(ReadValues(texts), k, seen), seen)
    ensures ComeFrom(NewValues(ReadValues(texts), k, seen), ReadValues(texts), k)
    decreases |texts| - k
  {
    var values := ReadValues(texts);
    if k < |texts| {
      var v := values[k];
      TextIsText(texts[k]);
      if v.text == "" || v.key in seen {
        NewValuesAreClean(texts, k + 1, seen);
      } else {
        NewValuesAreClean(texts, k + 1, seen + {v.key});
        OneMoreIsClean(v.text, NewValues(values, k + 1, seen + {v.key}), seen);
      }
    }
  }

  lemma OneMoreIsClean(text: string, rest: seq<string>, seen: set<string>)
    requires text != "" && IsText(text) && Lower(text) !in seen && AreClean(rest, seen + {Lower(text)})
    ensures AreClean([text] + rest, seen)
  {
  }

  lemma NextIsClean(texts: seq<string>, k: nat, seen: set<string>)
    requires k < |texts| && AreClean(texts[k..], seen)
    ensures TextOf(texts[k]) == texts[k] && texts[k] != "" && Lower(texts[k]) !in seen
    ensures AreClean(texts[k + 1..], seen + {Lower(texts[k])})
    ensures texts[k..] == [texts[k]] + texts[k + 1..]
  {
    assert texts[k] == texts[k..][0];
    TextOfText(texts[k]);
    assert texts[k + 1..] == texts[k..][1..];
  }

  /** A clean list is read as itself. */
  lemma {:induction false} CleanIsKept(texts: seq<string>, k: nat, seen: set<string>)
    requires k <= |texts| && AreClean(texts[k..], seen)
    ensures NewValues(ReadValues(texts), k, seen) == texts[k..]
    decreases |texts| - k
  {
    if k < |texts| {
      NextIsClean(texts, k, seen);
      CleanIsKept(texts, k + 1, seen + {Lower(texts[k])});
    }
  }

  // ------------------------------------------------------------------ environments

  predicate IsNormalEnvironment(e: Environment, i: int) {
    && IsName(e.name)
    && e.title != "" && IsText(e.title) && |e.title| <= 40
    && IsKind(e.kind)
    && (e.color == "" || IsNormalColor(e.color))
    && e.order == i
    && AreClean(e.aliases, {e.name}) && |e.aliases| <= MAX_VALUES
    && forall j :: 0 <= j < |e.aliases| ==> |e.aliases[j]| <= MAX_LENGTH
  }

  /** The environment groups the values of this key: by its name or by an alias. */
  predicate GroupsKey(e: Environment, key: string) {
    e.name == key || exists j :: 0 <= j < |e.aliases| && Lower(e.aliases[j]) == key
  }

  ghost predicate Disjoint(e: Environment, f: Environment) {
    forall key :: !(GroupsKey(e, key) && GroupsKey(f, key))
  }

  ghost predicate AreNormal(es: seq<Environment>) {
    && |es| <= MAX_ENVIRONMENTS
    && (forall i :: 0 <= i < |es| ==> IsNormalEnvironment(es[i], i))
    && (forall i, j :: 0 <= i < j < |es| ==> Disjoint(es[i], es[j]))
  }

  lemma DefinitionIsNormal(e: Environment)
    requires ProblemOf(e) == NoProblem
    ensures var d := ReadSource(e).definition;
      && IsName(d.name) && d.title != "" && IsText(d.title) && |d.title| <= 40
      && IsKind(d.kind) && (d.color == "" || IsNormalColor(d.color))
  {
    NameOfName(NameOf(e.name));
    TextIsText(e.title);
    if TextOf(e.color) != "" {
      ColorIsNormalized(TextOf(e.color));
    }
  }

  lemma ValuesAreNormal(e: Environment, name: string)
    requires forall j :: 0 <= j < |e.aliases| ==> |TextOf(e.aliases[j])| <= MAX_LENGTH
    ensures var list := NewValues(ReadValues(e.aliases), 0, {name});
      AreClean(list, {name}) && forall j :: 0 <= j < |list| ==> |list[j]| <= MAX_LENGTH
  {
    var values := ReadValues(e.aliases);
    var list := NewValues(values, 0, {name});
    NewValuesAreClean(e.aliases, 0, {name});
    forall j | 0 <= j < |list| ensures |list[j]| <= MAX_LENGTH {
      assert HasText(values, 0, list[j]);
    }
  }

  lemma CleanIsNormal(e: Environment, i: int)
    requires ProblemOf(e) == NoProblem && ValuesFit(ReadSource(e))
    ensures IsNormalEnvironment(CleanEnvironment(ReadSource(e), i), i)
  {
    var source := ReadSource(e);
    DefinitionIsNormal(e);
    forall j | 0 <= j < |e.aliases| ensures |TextOf(e.aliases[j])| <= MAX_LENGTH {
      assert source.values[j].text == TextOf(e.aliases[j]);
    }
    ValuesAreNormal(e, source.definition.name);
  }

  lemma CleanGroups(e: Environment, i: int, key: string)
    requires GroupsKey(CleanEnvironment(ReadSource(e), i), key)
    ensures Groups(ReadSource(e), key)
  {
    var source := ReadSource(e);
    var list := CleanValues(source);
    if source.definition.name != key {
      var j :| 0 <= j < |list| && Lower(list[j]) == key;
      NewValuesAreClean(e.aliases, 0, {source.definition.name});
      assert HasText(source.values, 0, list[j]);
    }
  }

  predicate Covers(list: seq<string>, key: string) {
    exists t :: t in list && Lower(t) == key
  }

  lemma CoversMore(first: string, rest: seq<string>, key: string)
    requires Covers(rest, key)
    ensures Covers([first] + rest, key)
  {
    var t :| t in rest && Lower(t) == key;
    assert t in [first] + rest;
  }

  lemma HasValueNext(values: seq<Value>, k: nat, key: string)
    requires HasValue(values, k, key)
    ensures k < |values|
    ensures values[k].text == "" || values[k].key != key ==> HasValue(values, k + 1, key)
  {
  }

  lemma FirstIsCovered(texts: seq<string>, k: nat, seen: set<string>)
    requires k < |texts| && ReadValues(texts)[k].text != "" && ReadValues(texts)[k].key !in seen
    ensures Covers(NewValues(ReadValues(texts), k, seen), ReadValues(texts)[k].key)
  {
    assert NewValues(ReadValues(texts), k, seen)[0] == ReadValues(texts)[k].text;
  }

  lemma {:induction false} NewValuesCover(texts: seq<string>, k: nat, seen: set<string>, key: string)
    requires HasValue(ReadValues(texts), k, key) && key !in seen
    ensures Covers(NewValues(ReadValues(texts), k, seen), key)
    decreases |texts| - k
  {
    hide HasValue, Covers;
    var values := ReadValues(texts);
    HasValueNext(values, k, key);
    var v := values[k];
    if v.text == "" || v.key in seen {
      NewValuesCover(texts, k + 1, seen, key);
    } else if v.key != key {
      NewValuesCover(texts, k + 1, seen + {v.key}, key);
      CoversMore(v.text, NewValues(values, k + 1, seen + {v.key}), key);
    } else {
      FirstIsCovered(texts, k, seen);
    }
  }

  /** Cleaning an environment takes no value from it and gives it none. */
  lemma GroupingIsKept(e: Environment, i: int, key: string)
    requires ProblemOf(e) == NoProblem
    ensures GroupsKey(CleanEnvironment(ReadSource(e), i), key) <==> Groups(ReadSource(e), key)
  {
    var source := ReadSource(e);
    var clean := CleanEnvironment(source, i);
    if GroupsKey(clean, key) {
      CleanGroups(e, i, key);
    }
    if Groups(source, key) && source.definition.name != key {
      NewValuesCover(e.aliases, 0, {source.definition.name}, key);
      var t :| t in clean.aliases && Lower(t) == key;
      var j :| 0 <= j < |clean.aliases| && clean.aliases[j] == t;
    }
  }

  /** Good environments become normal ones. */
  lemma CleanedAreNormal(es: seq<Environment>)
    requires |es| <= MAX_ENVIRONMENTS && AreGood(ReadSources(es))
    ensures AreNormal(Clean(ReadSources(es)))
  {
    var sources := ReadSources(es);
    var list := Clean(sources);
    forall i | 0 <= i < |list| ensures IsNormalEnvironment(list[i], i) {
      assert sources[i] == ReadSource(es[i]);
      CleanIsNormal(es[i], i);
    }
    forall i, j | 0 <= i < j < |list| ensures Disjoint(list[i], list[j]) {
      assert sources[i] == ReadSource(es[i]) && sources[j] == ReadSource(es[j]);
      assert Apart(sources[i], sources[j]);
      forall key ensures !(GroupsKey(list[i], key) && GroupsKey(list[j], key)) {
        if GroupsKey(list[i], key) && GroupsKey(list[j], key) {
          CleanGroups(es[i], i, key);
          CleanGroups(es[j], j, key);
        }
      }
    }
  }

  lemma NormalIsRead(e: Environment, i: int)
    requires IsNormalEnvironment(e, i)
    ensures ReadSource(e).problem == NoProblem && ReadSource(e).definition == e.(aliases := [])
    ensures CleanEnvironment(ReadSource(e), i) == e && ValuesFit(ReadSource(e))
  {
    NameOfName(e.name);
    TextOfText(e.title);
    KindOfKind(e.kind);
    NormalColorIsRead(e);
    NormalValuesAreRead(e);
  }

  lemma NormalColorIsRead(e: Environment)
    requires e.color == "" || IsNormalColor(e.color)
    ensures ColorOf(e) == e.color && (TextOf(e.color) == "" || IsColor(TextOf(e.color)))
  {
    if e.color == "" {
      TextOfText(e.color);
    } else {
      ColorOfNormal(e.color);
      TextOfText(e.color);
    }
  }

  lemma NormalValuesAreRead(e: Environment)
    requires AreClean(e.aliases, {e.name}) && forall j :: 0 <= j < |e.aliases| ==> |e.aliases[j]| <= MAX_LENGTH
    ensures NewValues(ReadValues(e.aliases), 0, {e.name}) == e.aliases
    ensures forall j :: 0 <= j < |e.aliases| ==> |ReadValues(e.aliases)[j].text| <= MAX_LENGTH
  {
    assert e.aliases[0..] == e.aliases;
    CleanIsKept(e.aliases, 0, {e.name});
    forall j | 0 <= j < |e.aliases| ensures |ReadValues(e.aliases)[j].text| <= MAX_LENGTH {
      TextOfText(e.aliases[j]);
    }
  }

  lemma NormalGroups(e: Environment, i: int, key: string)
    requires IsNormalEnvironment(e, i) && Groups(ReadSource(e), key)
    ensures GroupsKey(e, key)
  {
    NameOfName(e.name);
    var source := ReadSource(e);
    if source.definition.name != key {
      var j :| 0 <= j < |source.values| && source.values[j].text != "" && source.values[j].key == key;
      TextOfText(e.aliases[j]);
      assert Lower(e.aliases[j]) == key;
    }
  }

  /** Normal environments are good and stay as they are. */
  lemma NormalAreKept(es: seq<Environment>)
    requires AreNormal(es)
    ensures InOrder(es) == es && AreGood(ReadSources(es)) && Clean(ReadSources(es)) == es
  {
    assert Ascending(es);
    InOrderOfAscending(es);
    var sources := ReadSources(es);
    forall i | 0 <= i < |es|
      ensures sources[i].problem == NoProblem && ValuesFit(sources[i]) && CleanEnvironment(sources[i], i) == es[i] {
      NormalIsRead(es[i], i);
    }
    forall i, j | 0 <= i < j < |es| ensures Apart(sources[i], sources[j]) {
      NormalAreApart(es, i, j);
    }
  }

  lemma NormalAreApart(es: seq<Environment>, i: nat, j: nat)
    requires AreNormal(es) && i < j < |es|
    ensures Apart(ReadSource(es[i]), ReadSource(es[j]))
  {
    assert Disjoint(es[i], es[j]);
    forall key ensures !(Groups(ReadSource(es[i]), key) && Groups(ReadSource(es[j]), key)) {
      if Groups(ReadSource(es[i]), key) {
        NormalGroups(es[i], i, key);
      }
      if Groups(ReadSource(es[j]), key) {
        NormalGroups(es[j], j, key);
      }
    }
  }

  // ------------------------------------------------------------------ applications

  predicate IsNormalAttached(names: set<string>, a: Attached) {
    && a.value != "" && IsText(a.value) && |a.value| <= MAX_LENGTH
    && if a.target == "" then Lower(a.value) !in names else a.target in names
  }

  predicate AreNormalAttached(names: set<string>, list: seq<Attached>) {
    && (forall k :: 0 <= k < |list| ==> IsNormalAttached(names, list[k]))
    && (forall j, k :: 0 <= j < k < |list| ==> Lower(list[j].value) != Lower(list[k].value))
  }

  predicate AreNormalHidden(names: set<string>, list: seq<string>) {
    AreClean(list, {}) && forall i :: 0 <= i < |list| && Lower(list[i]) in names ==> list[i] == Lower(list[i])
  }

  predicate IsNormalApp(names: set<string>, a: App) {
    && a.service != "" && IsText(a.service) && |a.service| <= MAX_SERVICE
    && AreNormalAttached(names, a.aliases) && |a.aliases| <= MAX_VALUES
    && AreNormalHidden(names, a.hidden) && |a.hidden| <= MAX_VALUES
    && !IsEmpty(a)
  }

  predicate AreNormalApps(names: set<string>, apps: seq<App>) {
    && |apps| <= MAX_APPS
    && (forall k :: 0 <= k < |apps| ==> IsNormalApp(names, apps[k]))
    && AscendingApps(apps)
  }

  /** The environment names are names. */
  predicate AreNames(names: set<string>) {
    forall n :: n in names ==> IsName(n)
  }

  predicate AttachedComeFrom(list: seq<Attached>, read: seq<ReadAttached>, k: nat) {
    forall i :: 0 <= i < |list| ==> HasAttached(read, k, list[i])
  }

  predicate HasAttached(read: seq<ReadAttached>, k: nat, a: Attached) {
    exists j :: k <= j < |read| && read[j].value.text == a.value && read[j].value.text != ""
      && read[j].target == a.target
  }

  lemma {:induction false} CleanAttachedComeFrom(aliases: seq<Attached>, k: nat)
    ensures AttachedComeFrom(CleanAttached(ReadAliases(aliases), k), ReadAliases(aliases), k)
    decreases |aliases| - k
  {
    if k < |aliases| {
      CleanAttachedComeFrom(aliases, k + 1);
      var rest := CleanAttached(ReadAliases(aliases), k + 1);
      forall i | 0 <= i < |rest| ensures HasAttached(ReadAliases(aliases), k, rest[i]) {
        assert HasAttached(ReadAliases(aliases), k + 1, rest[i]);
      }
    }
  }

  lemma {:induction false} CleanAttachedIsNormal(names: set<string>, aliases: seq<Attached>, k: nat)
    requires AttachedAreGood(names, ReadAliases(aliases), 0)
    ensures AreNormalAttached(names, CleanAttached(ReadAliases(aliases), k))
    decreases |aliases| - k
  {
    var read := ReadAliases(aliases);
    if k < |read| {
      CleanAttachedIsNormal(names, aliases, k + 1);
      if read[k].value.text != "" {
        CleanAttachedComeFrom(aliases, k + 1);
        FirstAttachedIsNormal(names, aliases, k, CleanAttached(read, k + 1));
      }
    }
  }

  lemma FirstAttachedIsNormal(names: set<string>, aliases: seq<Attached>, k: nat, rest: seq<Attached>)
    requires AttachedAreGood(names, ReadAliases(aliases), 0) && k < |aliases| && TextOf(aliases[k].value) != ""
    requires AreNormalAttached(names, rest) && AttachedComeFrom(rest, ReadAliases(aliases), k + 1)
    ensures AreNormalAttached(names, [Attached(TextOf(aliases[k].value), NameOf(aliases[k].target))] + rest)
  {
    var first := Attached(TextOf(aliases[k].value), NameOf(aliases[k].target));
    OneIsNormal(names, aliases, k);
    forall i | 0 <= i < |rest| ensures Lower(first.value) != Lower(rest[i].value) {
      assert HasAttached(ReadAliases(aliases), k + 1, rest[i]);
      LaterIsDifferent(names, aliases, k, rest[i]);
    }
    OneMoreAttached(names, first, rest);
  }

  lemma OneIsNormal(names: set<string>, aliases: seq<Attached>, k: nat)
    requires AttachedAreGood(names, ReadAliases(aliases), 0) && k < |aliases| && TextOf(aliases[k].value) != ""
    ensures IsNormalAttached(names, Attached(TextOf(aliases[k].value), NameOf(aliases[k].target)))
  {
    TextIsText(aliases[k].value);
    assert IsAttachable(names, ReadAliases(aliases)[k]);
  }

  lemma LaterIsDifferent(names: set<string>, aliases: seq<Attached>, k: nat, a: Attached)
    requires AttachedAreGood(names, ReadAliases(aliases), 0) && k < |aliases| && TextOf(aliases[k].value) != ""
    requires HasAttached(ReadAliases(aliases), k + 1, a)
    ensures Lower(TextOf(aliases[k].value)) != Lower(a.value)
  {
    var read := ReadAliases(aliases);
    var j :| k + 1 <= j < |read| && read[j].value.text == a.value && read[j].value.text != "";
    assert AreDifferent(read[k], read[j]);
  }

  lemma OneMoreAttached(names: set<string>, first: Attached, rest: seq<Attached>)
    requires IsNormalAttached(names, first) && AreNormalAttached(names, rest)
    requires forall i :: 0 <= i < |rest| ==> Lower(first.value) != Lower(rest[i].value)
    ensures AreNormalAttached(names, [first] + rest)
  {
  }

  /** A text that is a name is written as the name is. */
  predicate AreNamedExactly(names: set<string>, list: seq<string>) {
    forall i :: 0 <= i < |list| && Lower(list[i]) in names ==> list[i] == Lower(list[i])
  }

  lemma OneMoreIsNamed(names: set<string>, first: string, rest: seq<string>)
    requires (Lower(first) in names ==> first == Lower(first)) && AreNamedExactly(names, rest)
    ensures AreNamedExactly(names, [first] + rest)
  {
  }

  lemma {:induction false} CleanHiddenIsNormal(names: set<string>, hidden: seq<string>, k: nat, seen: set<string>)
    requires AreNames(names)
    ensures var list := CleanHidden(names, ReadValues(hidden), k, seen);
      AreClean(list, seen) && AreNamedExactly(names, list)
    decreases |hidden| - k
  {
    var values := ReadValues(hidden);
    if k < |values| {
      var v := values[k];
      TextIsText(hidden[k]);
      if v.text == "" || v.key in seen {
        CleanHiddenIsNormal(names, hidden, k + 1, seen);
      } else {
        CleanHiddenIsNormal(names, hidden, k + 1, seen + {v.key});
        if v.key in names {
          NameOfName(v.key);
        }
        var rest := CleanHidden(names, values, k + 1, seen + {v.key});
        OneMoreIsClean(Entry(names, v), rest, seen);
        OneMoreIsNamed(names, Entry(names, v), rest);
        assert CleanHidden(names, values, k, seen) == [Entry(names, v)] + rest;
      }
    }
  }

  lemma CleanAppIsNormal(names: set<string>, a: App)
    requires AreNames(names) && AppIsGood(names, ReadOneApp(a)) && !IsEmpty(CleanApp(names, ReadOneApp(a)))
    ensures IsNormalApp(names, CleanApp(names, ReadOneApp(a)))
  {
    TextIsText(a.service);
    CleanAttachedIsNormal(names, a.aliases, 0);
    CleanHiddenIsNormal(names, a.hidden, 0, {});
  }

  predicate HasCleanApp(names: set<string>, apps: seq<ReadApp>, k: nat, app: App) {
    exists j :: k <= j < |apps| && app == CleanApp(names, apps[j]) && !IsEmpty(app)
  }

  lemma {:induction false} CleanAppsComeFrom(names: set<string>, apps: seq<ReadApp>, k: nat)
    requires EachIsGood(names, apps, 0)
    ensures var list := CleanApps(names, apps, k);
      (forall i :: 0 <= i < |list| ==> HasCleanApp(names, apps, k, list[i])) && DistinctServices(list)
    decreases |apps| - k
  {
    if k < |apps| {
      CleanAppsComeFrom(names, apps, k + 1);
      var first, rest := CleanApp(names, apps[k]), CleanApps(names, apps, k + 1);
      forall i | 0 <= i < |rest| ensures HasCleanApp(names, apps, k, rest[i]) && rest[i].service != first.service {
        assert HasCleanApp(names, apps, k + 1, rest[i]);
      }
    }
  }

  /** Good applications become normal ones. */
  lemma CleanedAppsAreNormal(names: set<string>, apps: seq<App>)
    requires AreNames(names) && AppsAreGood(names, ReadApps(apps))
    ensures AreNormalApps(names, ByService(CleanApps(names, ReadApps(apps), 0)))
  {
    var read := ReadApps(apps);
    var list := CleanApps(names, read, 0);
    CleanAppsComeFrom(names, read, 0);
    ByServiceSorts(list);
    var sorted := ByService(list);
    forall k | 0 <= k < |sorted| ensures IsNormalApp(names, sorted[k]) {
      assert sorted[k] in sorted;
      assert sorted[k] in list;
      assert HasCleanApp(names, read, 0, sorted[k]);
      var j :| 0 <= j < |read| && sorted[k] == CleanApp(names, read[j]) && !IsEmpty(sorted[k]);
      assert AppIsGood(names, read[j]);
      CleanAppIsNormal(names, apps[j]);
    }
  }

  lemma AttachedIsRead(names: set<string>, a: Attached)
    requires AreNames(names) && IsNormalAttached(names, a)
    ensures ReadAttachedValue(a) == ReadAttached(Value(a.value, Lower(a.value)), a.target)
    ensures IsAttachable(names, ReadAttachedValue(a))
  {
    TextOfText(a.value);
    if a.target == "" {
      TrimOfTrimmed("");
    } else {
      NameOfName(a.target);
    }
  }

  lemma NormalAttachedAreGood(names: set<string>, list: seq<Attached>)
    requires AreNames(names) && AreNormalAttached(names, list)
    ensures AttachedAreGood(names, ReadAliases(list), 0)
  {
    forall k | 0 <= k < |list|
      ensures IsAttachable(names, ReadAliases(list)[k]) && ReadAliases(list)[k].value.key == Lower(list[k].value) {
      AttachedIsRead(names, list[k]);
    }
  }

  lemma {:induction false} NormalAttachedAreKept(names: set<string>, list: seq<Attached>, k: nat)
    requires AreNames(names) && AreNormalAttached(names, list) && k <= |list|
    ensures CleanAttached(ReadAliases(list), k) == list[k..]
    decreases |list| - k
  {
    if k < |list| {
      AttachedIsRead(names, list[k]);
      NormalAttachedAreKept(names, list, k + 1);
      assert list[k..] == [list[k]] + list[k + 1..];
    }
  }

  lemma {:induction false} NormalHiddenIsKept(names: set<string>, list: seq<string>, k: nat, seen: set<string>)
    requires k <= |list| && AreClean(list[k..], seen)
    requires forall i :: 0 <= i < |list| && Lower(list[i]) in names ==> list[i] == Lower(list[i])
    ensures CleanHidden(names, ReadValues(list), k, seen) == list[k..]
    decreases |list| - k
  {
    if k < |list| {
      NextIsClean(list, k, seen);
      NormalHiddenIsKept(names, list, k + 1, seen + {Lower(list[k])});
    }
  }

  lemma NormalAppIsKept(names: set<string>, a: App)
    requires AreNames(names) && IsNormalApp(names, a)
    ensures CleanApp(names, ReadOneApp(a)) == a && AppIsGood(names, ReadOneApp(a)) && ReadOneApp(a).service == a.service
  {
    TextOfText(a.service);
    NormalAttachedAreGood(names, a.aliases);
    NormalAttachedAreKept(names, a.aliases, 0);
    assert a.aliases[0..] == a.aliases && a.hidden[0..] == a.hidden;
    NormalHiddenIsKept(names, a.hidden, 0, {});
  }

  predicate IsCleanedTo(names: set<string>, read: ReadApp, app: App) {
    CleanApp(names, read) == app && !IsEmpty(app)
  }

  lemma {:induction false} AppsAreListed(names: set<string>, read: seq<ReadApp>, apps: seq<App>, k: nat)
    requires |read| == |apps| && (forall i :: 0 <= i < |apps| ==> IsCleanedTo(names, read[i], apps[i])) && k <= |apps|
    ensures CleanApps(names, read, k) == apps[k..]
    decreases |apps| - k
  {
    if k < |apps| {
      AppsAreListed(names, read, apps, k + 1);
      assert IsCleanedTo(names, read[k], apps[k]);
      assert Kept(apps[k]) == [apps[k]];
      assert apps[k..] == [apps[k]] + apps[k + 1..];
    }
  }

  /** Normal applications are good and stay as they are. */
  lemma NormalAppsAreKept(names: set<string>, apps: seq<App>)
    requires AreNames(names) && AreNormalApps(names, apps)
    ensures AppsAreGood(names, ReadApps(apps)) && ByService(CleanApps(names, ReadApps(apps), 0)) == apps
  {
    var read := ReadApps(apps);
    forall k | 0 <= k < |read|
      ensures AppIsGood(names, read[k]) && read[k].service == apps[k].service && IsCleanedTo(names, read[k], apps[k])
    {
      NormalAppIsKept(names, apps[k]);
    }
    AppsAreListed(names, read, apps, 0);
    assert apps[0..] == apps;
    ByServiceOfAscending(apps);
    forall j, k | 0 <= j < k < |read| ensures read[j].service != read[k].service {
      PrecedesTotal(apps[j].service, apps[k].service);
    }
  }

  // ------------------------------------------------------------------ settings

  /**
   The normal form: valid names, titles, types and colours; order equal to position; each value, whatever its case, the
   name or an alias of one environment at most; values attached to known environments or kept apart; applications
   distinct and sorted.
   */
  ghost predicate IsNormal(s: Settings) {
    AreNormal(s.environments) && AreNormalApps(NamesOf(s.environments), s.apps)
  }

  lemma NormalNames(es: seq<Environment>)
    requires AreNormal(es)
    ensures AreNames(NamesOf(es))
  {
    forall n | n in NamesOf(es) ensures IsName(n) {
      var i :| 0 <= i < |es| && es[i].name == n;
      assert IsNormalEnvironment(es[i], i);
    }
  }

  /** What the check accepts, it puts in the normal form. */
  lemma ResultIsNormal(s: Settings)
    requires CheckSettings(s).Accepted?
    ensures IsNormal(CheckSettings(s).settings)
  {
    CheckIsExact(s);
    var es := InOrder(s.environments);
    CleanedAreNormal(es);
    NormalNames(Clean(ReadSources(es)));
    CleanedAppsAreNormal(NamesOf(Clean(ReadSources(es))), s.apps);
  }

  lemma NormalIsKept(s: Settings)
    requires IsNormal(s)
    ensures CheckSettings(s) == Accepted(s)
  {
    NormalNames(s.environments);
    NormalAreKept(s.environments);
    NormalAppsAreKept(NamesOf(s.environments), s.apps);
    CheckIsExact(s);
  }

  /** The normal form is exactly what the check accepts unchanged. */
  lemma UnchangedExactlyWhenNormal(s: Settings)
    ensures CheckSettings(s) == Accepted(s) <==> IsNormal(s)
  {
    if CheckSettings(s) == Accepted(s) {
      ResultIsNormal(s);
    }
    if IsNormal(s) {
      NormalIsKept(s);
    }
  }

  /** Checking accepted settings again changes nothing. */
  lemma CheckingTwiceChangesNothing(s: Settings)
    requires CheckSettings(s).Accepted?
    ensures CheckSettings(CheckSettings(s).settings) == CheckSettings(s)
  {
    ResultIsNormal(s);
    NormalIsKept(CheckSettings(s).settings);
  }
}
