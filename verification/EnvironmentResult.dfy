/** What the check makes of the values typed: each of them, at its place in the result. */
module EnvironmentResult {
  import opened Strings
  import opened EnvironmentText
  import opened EnvironmentReading
  import opened EnvironmentCheck
  import opened EnvironmentApps
  import opened EnvironmentStore
  import opened EnvironmentOrder

  // ------------------------------------------------------------------ what is wrong with one environment

  /** One to forty small letters, digits, dots, hyphens and underscores, beginning with a letter or a digit. */
  predicate IsGoodName(s: string) {
    && 0 < |s| < 41 && s[0] !in "._-"
    && forall i :: 0 <= i < |s| ==> 'a' <= s[i] <= 'z' || '0' <= s[i] <= '9' || s[i] in "._-"
  }

  lemma GoodNameIsName(s: string)
    ensures IsGoodName(s) <==> IsName(s)
  {
  }

  /** Three or six hexadecimal digits, after a hash sign or not. */
  predicate IsGoodColor(s: string) {
    var digits := if s != "" && s[0] == '#' then s[1..] else s;
    (|digits| == 3 || |digits| == 6) && AreHexDigits(digits)
  }

  predicate AreHexDigits(digits: string) {
    forall i :: 0 <= i < |digits| ==> IsHexDigit(digits[i])
  }

  lemma GoodColorIsColor(s: string)
    ensures IsGoodColor(s) <==> IsColor(s)
  {
    HexDigitsAre(if s != "" && s[0] == '#' then s[1..] else s);
  }

  lemma HexDigitsAre(digits: string)
    ensures AreHex(digits) <==> AreHexDigits(digits)
  {
    hide IsHex, IsHexDigit;
    forall i | 0 <= i < |digits| ensures IsHex(digits[i]) <==> IsHexDigit(digits[i]) {
      HexIs(digits[i]);
    }
  }

  predicate IsHexDigit(c: char) {
    c in "0123456789abcdefABCDEF"
  }

  lemma HexIs(c: char)
    ensures IsHex(c) <==> IsHexDigit(c)
  {
    var all := "0123456789abcdefABCDEF";
    if '0' <= c <= '9' {
      assert all[c as int - '0' as int] == c;
    } else if 'a' <= c <= 'f' {
      assert all[10 + (c as int - 'a' as int)] == c;
    } else if 'A' <= c <= 'F' {
      assert all[16 + (c as int - 'A' as int)] == c;
    }
  }

  /** Nothing is wrong with an environment as typed exactly when what is read of it is as it must be. */
  lemma NothingIsWrongExactlyWhen(e: Environment)
    ensures ProblemOf(e) == NoProblem <==>
      && IsGoodName(Lower(Trim(e.name)))
      && (Trim(e.title) != "" ==> |TextOf(e.title)| <= 40)
      && (Trim(e.kind) != "" ==> Lower(TextOf(e.kind)) in {"production", "recette", "developpement", "autre"})
      && (Trim(e.color) != "" ==> IsGoodColor(TextOf(e.color)))
  {
    BlankIsEmpty(e.title);
    BlankIsEmpty(e.kind);
    BlankIsEmpty(e.color);
    GoodNameIsName(Lower(Trim(e.name)));
    GoodColorIsColor(TextOf(e.color));
    hide TextOf, Trim, Lower, IsColor, IsGoodName, IsGoodColor;
  }

  // ------------------------------------------------------------------ values kept once

  /** A text that is not blank, whose key is none of `known` and of no text before it, case ignored. */
  predicate IsFirst(texts: seq<string>, known: set<string>, k: nat)
    requires k < |texts|
  {
    var key := Lower(TextOf(texts[k]));
    key != "" && key !in known && forall j :: 0 <= j < k ==> Lower(TextOf(texts[j])) != key
  }

  function FirstsBefore(texts: seq<string>, known: set<string>, k: nat): nat
    requires k <= |texts|
  {
    if k == 0 then 0 else FirstsBefore(texts, known, k - 1) + if IsFirst(texts, known, k - 1) then 1 else 0
  }

  lemma {:induction false} FirstsGrow(texts: seq<string>, known: set<string>, j: nat, k: nat)
    requires j <= k <= |texts|
    ensures FirstsBefore(texts, known, j) <= FirstsBefore(texts, known, k)
    ensures j < k && IsFirst(texts, known, j) ==> FirstsBefore(texts, known, j) < FirstsBefore(texts, known, k)
    decreases k
  {
    hide IsFirst;
    if j < k {
      FirstsGrow(texts, known, j, k - 1);
    }
  }

  /** `seen`: what is known, and the keys of the texts before k that are not blank. */
  predicate HasSeen(texts: seq<string>, known: set<string>, k: nat, seen: set<string>)
    requires k <= |texts|
  {
    && known <= seen
    && (forall j :: 0 <= j < k && TextOf(texts[j]) != "" ==> Lower(TextOf(texts[j])) in seen)
    && (forall key :: key in seen ==> key in known || exists j :: 0 <= j < k && Lower(TextOf(texts[j])) == key)
  }

  lemma FirstExactlyWhenUnseen(texts: seq<string>, known: set<string>, k: nat, seen: set<string>)
    requires k < |texts| && HasSeen(texts, known, k, seen)
    ensures IsFirst(texts, known, k) <==> TextOf(texts[k]) != "" && Lower(TextOf(texts[k])) !in seen
    ensures IsFirst(texts, known, k) ==> HasSeen(texts, known, k + 1, seen + {Lower(TextOf(texts[k]))})
    ensures !IsFirst(texts, known, k) ==> HasSeen(texts, known, k + 1, seen)
  {
    hide TextOf, Lower;
    forall s ensures |Lower(s)| == |s| {
    }
  }

  /** The list has, from text k on, what each first text is read as, in order. */
  ghost predicate HoldsFirsts(texts: seq<string>, known: set<string>, k: nat, list: seq<string>, read: string -> string)
    requires k <= |texts|
  {
    && FirstsBefore(texts, known, k) + |list| == FirstsBefore(texts, known, |texts|)
    && forall m :: k <= m < |texts| && IsFirst(texts, known, m) ==>
         var p := FirstsBefore(texts, known, m) - FirstsBefore(texts, known, k);
         0 <= p < |list| && list[p] == read(TextOf(texts[m]))
  }

  lemma HoldsOneMore(texts: seq<string>, known: set<string>, k: nat, list: seq<string>, read: string -> string)
    requires k < |texts| && HoldsFirsts(texts, known, k + 1, list, read)
    ensures HoldsFirsts(texts, known, k,
      if IsFirst(texts, known, k) then [read(TextOf(texts[k]))] + list else list, read)
  {
    hide IsFirst, TextOf;
    forall m | k < m < |texts| && IsFirst(texts, known, m)
      ensures FirstsBefore(texts, known, k + 1) <= FirstsBefore(texts, known, m) {
      FirstsGrow(texts, known, k + 1, m);
    }
  }

  lemma {:induction false} NewValuesAre(texts: seq<string>, known: set<string>, k: nat, seen: set<string>)
    requires k <= |texts| && HasSeen(texts, known, k, seen)
    ensures HoldsFirsts(texts, known, k, NewValues(ReadValues(texts), k, seen), (s: string) => s)
    decreases |texts| - k
  {
    hide IsFirst, TextOf, HasSeen;
    if k < |texts| {
      FirstExactlyWhenUnseen(texts, known, k, seen);
      var v := ReadValues(texts)[k];
      var more := if IsFirst(texts, known, k) then seen + {v.key} else seen;
      NewValuesAre(texts, known, k + 1, more);
      HoldsOneMore(texts, known, k, NewValues(ReadValues(texts), k + 1, more), (s: string) => s);
    }
  }

  /** The name of an environment stands for it; another text stands as it is. */
  function EntryOf(names: set<string>): string -> string {
    (s: string) => if Lower(s) in names then Lower(s) else s
  }

  lemma {:induction false} HiddenAre(names: set<string>, texts: seq<string>, k: nat, seen: set<string>)
    requires k <= |texts| && HasSeen(texts, {}, k, seen)
    ensures HoldsFirsts(texts, {}, k, CleanHidden(names, ReadValues(texts), k, seen), EntryOf(names))
    decreases |texts| - k
  {
    hide IsFirst, TextOf, HasSeen;
    if k < |texts| {
      FirstExactlyWhenUnseen(texts, {}, k, seen);
      var v := ReadValues(texts)[k];
      var more := if IsFirst(texts, {}, k) then seen + {v.key} else seen;
      HiddenAre(names, texts, k + 1, more);
      HoldsOneMore(texts, {}, k, CleanHidden(names, ReadValues(texts), k + 1, more), EntryOf(names));
    }
  }

  /**
   In what the check accepts, an environment has the values typed for it, each once, case ignored, and not its name:
   the first writing of each on one line, in the order typed.
   */
  lemma AliasesAre(s: Settings, a: nat) returns (i: nat)
    requires CheckSettings(s).Accepted? && a < |s.environments|
    ensures var r, e := CheckSettings(s).settings.environments, s.environments[a];
      && i < |r| && IsReadAs(e, r[i], i)
      && HoldsFirsts(e.aliases, {Lower(Trim(e.name))}, 0, r[i].aliases, (t: string) => t)
  {
    i := ResultHolds(s, a);
    CleanedAt(s, i);
    var e := s.environments[a];
    hide CheckSettings, InOrder, HoldsFirsts, IsReadAs;
    NewValuesAre(e.aliases, {Lower(Trim(e.name))}, 0, {Lower(Trim(e.name))});
  }

  lemma CleanedAt(s: Settings, i: nat)
    requires CheckSettings(s).Accepted? && i < |CheckSettings(s).settings.environments|
    ensures |InOrder(s.environments)| == |CheckSettings(s).settings.environments|
    ensures CheckSettings(s).settings.environments[i] == CleanEnvironment(ReadSource(InOrder(s.environments)[i]), i)
  {
    CheckIsExact(s);
    assert ReadSources(InOrder(s.environments))[i] == ReadSource(InOrder(s.environments)[i]);
  }

  // ------------------------------------------------------------------ applications

  predicate IsFilled(a: Attached) {
    TextOf(a.value) != ""
  }

  /** The value on one line, and the name of its environment. */
  function Reading(a: Attached): Attached {
    Attached(TextOf(a.value), Lower(Trim(a.target)))
  }

  /** How many of the first k values are not blank. */
  function FilledBefore(aliases: seq<Attached>, k: nat): nat
    requires k <= |aliases|
  {
    if k == 0 then 0 else FilledBefore(aliases, k - 1) + if IsFilled(aliases[k - 1]) then 1 else 0
  }

  lemma {:induction false} FilledGrow(aliases: seq<Attached>, j: nat, k: nat)
    requires j <= k <= |aliases|
    ensures FilledBefore(aliases, j) <= FilledBefore(aliases, k)
    ensures j < k && IsFilled(aliases[j]) ==> FilledBefore(aliases, j) < FilledBefore(aliases, k)
    decreases k
  {
    hide IsFilled;
    if j < k {
      FilledGrow(aliases, j, k - 1);
    }
  }

  /** The list has, from value k on, each one that is not blank with its environment, in order. */
  predicate HoldsAttached(aliases: seq<Attached>, k: nat, list: seq<Attached>)
    requires k <= |aliases|
  {
    && FilledBefore(aliases, k) + |list| == FilledBefore(aliases, |aliases|)
    && forall m :: k <= m < |aliases| && IsFilled(aliases[m]) ==>
         var p := FilledBefore(aliases, m) - FilledBefore(aliases, k);
         0 <= p < |list| && list[p] == Reading(aliases[m])
  }

  lemma OneMoreAttached(aliases: seq<Attached>, k: nat, list: seq<Attached>)
    requires k < |aliases| && HoldsAttached(aliases, k + 1, list)
    ensures HoldsAttached(aliases, k, if IsFilled(aliases[k]) then [Reading(aliases[k])] + list else list)
  {
    hide IsFilled, Reading;
    forall m | k < m < |aliases| && IsFilled(aliases[m])
      ensures FilledBefore(aliases, k + 1) <= FilledBefore(aliases, m) {
      FilledGrow(aliases, k + 1, m);
    }
  }

  lemma AttachedNext(aliases: seq<Attached>, k: nat)
    requires k < |aliases|
    ensures var rest := CleanAttached(ReadAliases(aliases), k + 1);
      CleanAttached(ReadAliases(aliases), k) == if IsFilled(aliases[k]) then [Reading(aliases[k])] + rest else rest
  {
    assert ReadAliases(aliases)[k] == ReadAttachedValue(aliases[k]);
  }

  lemma {:induction false} AttachedAre(aliases: seq<Attached>, k: nat)
    requires k <= |aliases|
    ensures HoldsAttached(aliases, k, CleanAttached(ReadAliases(aliases), k))
    decreases |aliases| - k
  {
    if k < |aliases| {
      hide *;
      AttachedAre(aliases, k + 1);
      OneMoreAttached(aliases, k, CleanAttached(ReadAliases(aliases), k + 1));
      AttachedNext(aliases, k);
      assert HoldsAttached(aliases, k, CleanAttached(ReadAliases(aliases), k));
    }
  }

  /** What the check makes of an application as typed. */
  ghost predicate IsAppReadAs(names: set<string>, a: App, r: App) {
    && r.service == TextOf(a.service)
    && HoldsAttached(a.aliases, 0, r.aliases)
    && HoldsFirsts(a.hidden, {}, 0, r.hidden, EntryOf(names))
  }

  lemma AppIsReadAs(names: set<string>, a: App)
    ensures IsAppReadAs(names, a, CleanApp(names, ReadOneApp(a)))
  {
    AttachedAre(a.aliases, 0);
    HiddenAre(names, a.hidden, 0, {});
  }

  lemma {:induction false} AppsKept(names: set<string>, apps: seq<ReadApp>, k: nat)
    requires k <= |apps|
    ensures forall j :: k <= j < |apps| && !IsEmpty(CleanApp(names, apps[j])) ==>
      CleanApp(names, apps[j]) in CleanApps(names, apps, k)
    ensures forall b :: b in CleanApps(names, apps, k) ==>
      !IsEmpty(b) && exists j :: k <= j < |apps| && b == CleanApp(names, apps[j])
    decreases |apps| - k
  {
    hide CleanApp, IsEmpty;
    if k < |apps| {
      AppsKept(names, apps, k + 1);
    }
  }

  /** Some application typed is read as this one. */
  ghost predicate IsReadOf(names: set<string>, apps: seq<App>, r: App) {
    exists k :: 0 <= k < |apps| && IsAppReadAs(names, apps[k], r)
  }

  ghost predicate IsReadIn(names: set<string>, a: App, rs: seq<App>) {
    exists r :: r in rs && IsAppReadAs(names, a, r)
  }

  /** A value or a hidden environment that is not blank. */
  predicate HasSettings(a: App) {
    || (exists k :: 0 <= k < |a.aliases| && IsFilled(a.aliases[k]))
    || (exists k :: 0 <= k < |a.hidden| && TextOf(a.hidden[k]) != "")
  }

  lemma FirstOfAll(texts: seq<string>, k: nat)
    requires k < |texts| && TextOf(texts[k]) != ""
    ensures FirstsBefore(texts, {}, |texts|) > 0
    decreases k
  {
    hide TextOf;
    if IsFirst(texts, {}, k) {
      FirstsGrow(texts, {}, k, |texts|);
    } else {
      assert |Lower(TextOf(texts[k]))| == |TextOf(texts[k])|;
      var j :| 0 <= j < k && Lower(TextOf(texts[j])) == Lower(TextOf(texts[k]));
      assert |Lower(TextOf(texts[j]))| == |TextOf(texts[j])|;
      FirstOfAll(texts, j);
    }
  }

  lemma {:induction false} NoneIsFirst(texts: seq<string>, k: nat)
    requires k <= |texts| && forall j :: 0 <= j < |texts| ==> TextOf(texts[j]) == ""
    ensures FirstsBefore(texts, {}, k) == 0
  {
    hide TextOf;
    if k > 0 {
      NoneIsFirst(texts, k - 1);
      assert Lower(TextOf(texts[k - 1])) == "";
    }
  }

  lemma {:induction false} NoneIsFilled(aliases: seq<Attached>, k: nat)
    requires k <= |aliases| && forall j :: 0 <= j < |aliases| ==> !IsFilled(aliases[j])
    ensures FilledBefore(aliases, k) == 0
  {
    hide TextOf;
    if k > 0 {
      NoneIsFilled(aliases, k - 1);
    }
  }

  lemma EmptyExactlyWhen(names: set<string>, a: App, r: App)
    requires IsAppReadAs(names, a, r)
    ensures IsEmpty(r) <==> !HasSettings(a)
  {
    hide TextOf;
    if HasSettings(a) {
      if k :| 0 <= k < |a.aliases| && IsFilled(a.aliases[k]) {
        assert FilledBefore(a.aliases, 0) == 0;
      } else {
        var k :| 0 <= k < |a.hidden| && TextOf(a.hidden[k]) != "";
        FirstOfAll(a.hidden, k);
      }
    } else {
      NoneIsFilled(a.aliases, |a.aliases|);
      NoneIsFirst(a.hidden, |a.hidden|);
    }
  }

  /**
   What the check accepts has one application for each one typed that has settings, and no other, by service: with its
   values and their environments in the order typed, and its hidden environments, each once.
   */
  lemma AppsAre(s: Settings)
    requires CheckSettings(s).Accepted?
    ensures var r := CheckSettings(s).settings; var names := NamesOf(r.environments);
      && AscendingApps(r.apps)
      && (forall a :: a in s.apps && HasSettings(a) ==> IsReadIn(names, a, r.apps))
      && (forall b :: b in r.apps ==> IsReadOf(names, s.apps, b))
  {
    CheckIsExact(s);
    var r := CheckSettings(s).settings;
    var names, read := NamesOf(r.environments), ReadApps(s.apps);
    var kept := CleanApps(names, read, 0);
    ServicesDiffer(names, read, 0);
    ByServiceSorts(kept);
    AppsKept(names, read, 0);
    hide CheckSettings, IsAppReadAs, CleanApp, CleanApps, HasSettings, AscendingApps, ByService;
    forall a | a in s.apps && HasSettings(a) ensures IsReadIn(names, a, r.apps) {
      var k :| 0 <= k < |s.apps| && s.apps[k] == a;
      assert read[k] == ReadOneApp(a);
      AppIsReadAs(names, a);
      EmptyExactlyWhen(names, a, CleanApp(names, read[k]));
    }
    forall b | b in r.apps ensures IsReadOf(names, s.apps, b) {
      var k :| 0 <= k < |read| && b == CleanApp(names, read[k]);
      assert read[k] == ReadOneApp(s.apps[k]);
      AppIsReadAs(names, s.apps[k]);
    }
  }

  lemma {:induction false} ServicesDiffer(names: set<string>, apps: seq<ReadApp>, k: nat)
    requires k <= |apps| && forall i, j :: 0 <= i < j < |apps| ==> apps[i].service != apps[j].service
    ensures DistinctServices(CleanApps(names, apps, k))
    decreases |apps| - k
  {
    hide CleanApp;
    if k < |apps| {
      var app, rest := CleanApp(names, apps[k]), CleanApps(names, apps, k + 1);
      ServicesDiffer(names, apps, k + 1);
      AppsKept(names, apps, k + 1);
      forall j | 0 <= j < |rest| ensures rest[j].service != app.service {
        assert rest[j] in rest;
        var m :| k + 1 <= m < |apps| && rest[j] == CleanApp(names, apps[m]);
        ServiceIsKept(names, apps[m]);
        ServiceIsKept(names, apps[k]);
      }
      OneMoreDiffers(app, rest);
    }
  }

  lemma ServiceIsKept(names: set<string>, app: ReadApp)
    ensures CleanApp(names, app).service == app.service
  {
  }

  lemma OneMoreDiffers(app: App, rest: seq<App>)
    requires DistinctServices(rest) && forall j :: 0 <= j < |rest| ==> rest[j].service != app.service
    ensures DistinctServices(Kept(app) + rest)
  {
    hide IsEmpty;
  }
}
