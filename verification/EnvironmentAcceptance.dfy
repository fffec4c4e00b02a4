/**
 When the check accepts what the automatic grouping proposes: exactly when the proposal holds the limits of
 number, no application detaches a value named like one of its environments, and the check reads no usual
 value in an environment that the grouping passes over.
 */
module EnvironmentAcceptance {
  import opened Strings
  import opened EnvironmentText
  import opened EnvironmentReading
  import opened EnvironmentCheck
  import opened EnvironmentApps
  import opened EnvironmentStore
  import opened EnvironmentSuggestion
  import opened EnvironmentProposal
  import L = Ledger

  // ------------------------------------------------------------------ the order does not matter

  /** A condition on each environment and on each pair of them. */
  ghost predicate Hold(es: seq<Environment>, fine: Environment -> bool, apart: (Environment, Environment) -> bool) {
    es == [] ||
    var front, last := es[..|es| - 1], es[|es| - 1];
    fine(last) && (forall f :: f in front ==> apart(f, last)) && Hold(front, fine, apart)
  }

  ghost predicate IsSymmetric(apart: (Environment, Environment) -> bool) {
    forall e, f :: apart(e, f) == apart(f, e)
  }

  lemma {:induction false} InsertedAreThose(e: Environment, sorted: seq<Environment>)
    ensures forall f :: f in Insert(e, sorted) <==> f == e || f in sorted
  {
    if sorted != [] {
      InsertedAreThose(e, sorted[..|sorted| - 1]);
      assert sorted == sorted[..|sorted| - 1] + [sorted[|sorted| - 1]];
    }
  }

  lemma {:induction false} InOrderAreThose(es: seq<Environment>)
    ensures forall f :: f in InOrder(es) <==> f in es
  {
    if es != [] {
      InOrderAreThose(es[..|es| - 1]);
      InsertedAreThose(es[|es| - 1], InOrder(es[..|es| - 1]));
      assert es == es[..|es| - 1] + [es[|es| - 1]];
    }
  }

  lemma HoldOfMore(es: seq<Environment>, e: Environment, fine: Environment -> bool,
      apart: (Environment, Environment) -> bool)
    ensures Hold(es + [e], fine, apart) <==> fine(e) && (forall f :: f in es ==> apart(f, e)) && Hold(es, fine, apart)
  {
    assert (es + [e])[..|es|] == es;
  }

  lemma {:induction false} HoldInserted(e: Environment, sorted: seq<Environment>, fine: Environment -> bool,
      apart: (Environment, Environment) -> bool)
    requires IsSymmetric(apart)
    ensures Hold(Insert(e, sorted), fine, apart) <==> Hold(sorted + [e], fine, apart)
  {
    if sorted == [] {
      assert [] + [e] == [e];
    } else if sorted[|sorted| - 1].order > e.order {
      var front, last := sorted[..|sorted| - 1], sorted[|sorted| - 1];
      HoldInserted(e, front, fine, apart);
      InsertedAreThose(e, front);
      HoldOfMore(Insert(e, front), last, fine, apart);
      HoldOfMore(front, e, fine, apart);
      HoldOfMore(sorted, e, fine, apart);
      assert sorted == front + [last];
    }
  }

  lemma {:induction false} HoldInOrder(es: seq<Environment>, fine: Environment -> bool,
      apart: (Environment, Environment) -> bool)
    requires IsSymmetric(apart)
    ensures Hold(InOrder(es), fine, apart) <==> Hold(es, fine, apart)
  {
    if es != [] {
      var front, last := es[..|es| - 1], es[|es| - 1];
      HoldInOrder(front, fine, apart);
      InOrderAreThose(front);
      HoldInserted(last, InOrder(front), fine, apart);
      HoldOfMore(InOrder(front), last, fine, apart);
    }
  }

  predicate IsFine(e: Environment) {
    ReadSource(e).problem == NoProblem && ValuesFit(ReadSource(e))
  }

  ghost predicate AreSeparate(e: Environment, f: Environment) {
    Apart(ReadSource(e), ReadSource(f))
  }

  lemma {:induction false} HoldEverywhere(es: seq<Environment>, fine: Environment -> bool,
      apart: (Environment, Environment) -> bool)
    ensures Hold(es, fine, apart) <==>
      (forall i :: 0 <= i < |es| ==> fine(es[i])) && (forall i, j :: 0 <= i < j < |es| ==> apart(es[i], es[j]))
  {
    if es != [] {
      var front, last := es[..|es| - 1], es[|es| - 1];
      HoldEverywhere(front, fine, apart);
      assert forall f :: f in front ==> exists i :: 0 <= i < |es| - 1 && es[i] == f;
    }
  }

  /** Each environment is fine, and no value belongs to two of them. */
  ghost predicate AreAccepted(es: seq<Environment>) {
    && (forall i :: 0 <= i < |es| ==> IsFine(es[i]))
    && (forall i, j :: 0 <= i < j < |es| ==> AreSeparate(es[i], es[j]))
  }

  lemma GoodIsAccepted(es: seq<Environment>)
    ensures AreGood(ReadSources(es)) <==> AreAccepted(es)
  {
    var sources := ReadSources(es);
    forall i | 0 <= i < |es| ensures IsFine(es[i]) <==> sources[i].problem == NoProblem && ValuesFit(sources[i]) {
    }
    if AreGood(sources) {
      forall i, j | 0 <= i < j < |es| ensures AreSeparate(es[i], es[j]) {
        assert Apart(sources[i], sources[j]);
      }
    }
    if AreAccepted(es) {
      forall i, j | 0 <= i < j < |sources| ensures Apart(sources[i], sources[j]) {
        assert AreSeparate(es[i], es[j]);
      }
    }
  }

  /** The check may look at the environments in the order they come. */
  lemma OrderDoesNotMatter(es: seq<Environment>)
    ensures AreGood(ReadSources(InOrder(es))) <==> AreAccepted(es)
  {
    var fine: Environment -> bool := e => IsFine(e);
    ghost var apart: (Environment, Environment) -> bool := (e, f) => AreSeparate(e, f);
    GoodIsAccepted(InOrder(es));
    HoldInOrder(es, fine, apart);
    HoldEverywhere(es, fine, apart);
    HoldEverywhere(InOrder(es), fine, apart);
  }

  // ------------------------------------------------------------------ keys as the check reads them

  lemma {:induction false} AliasIsAKey(aliases: seq<string>, key: string)
    ensures key in AliasKeys(aliases) <==> HasKey(aliases, key)
  {
    if aliases != [] {
      var front, last := aliases[..|aliases| - 1], aliases[|aliases| - 1];
      AliasIsAKey(front, key);
      assert aliases == front + [last];
      if HasKey(front, key) {
        var j :| 0 <= j < |front| && Lower(front[j]) == key;
        assert aliases[j] == front[j];
      }
      if Lower(last) == key {
        assert aliases[|front|] == last;
      }
    }
  }

  /** The check reads one of the keys of the environment as this one. */
  predicate ReadsAs(e: Environment, key: string) {
    exists raw :: raw in KeysOf(e) && TextOf(raw) == key
  }

  /** A tidy environment groups for the check what its keys read as. */
  lemma GroupsItsKeys(e: Environment, key: string)
    requires IsTidy(e) && ProblemOf(e) == NoProblem
    ensures Groups(ReadSource(e), key) <==> ReadsAs(e, key)
  {
    TrimOfTrimmed(e.name);
    NameOfName(NameOf(e.name));
    TextOfText(Lower(e.name));
    assert Lower(e.name) in KeysOf(e);
    var values := ReadValues(e.aliases);
    if HasValue(values, 0, key) {
      var k :| 0 <= k < |values| && values[k].text != "" && values[k].key == key;
      AliasReadsAs(e, k);
    }
    if ReadsAs(e, key) {
      var raw :| raw in KeysOf(e) && TextOf(raw) == key;
      if raw in AliasKeys(e.aliases) {
        AliasIsAKey(e.aliases, raw);
        var k :| 0 <= k < |e.aliases| && Lower(e.aliases[k]) == raw;
        AliasReadsAs(e, k);
        assert values[k].text != "" && values[k].key == key;
      }
    }
  }

  lemma AliasReadsAs(e: Environment, k: nat)
    requires k < |e.aliases| && IsTidy(e)
    ensures TextOf(e.aliases[k]) != "" && Lower(e.aliases[k]) in KeysOf(e)
    ensures TextOf(Lower(e.aliases[k])) == Lower(TextOf(e.aliases[k]))
  {
    TextOfLower(e.aliases[k]);
    TrimOfTrimmed(e.aliases[k]);
    BlankIsEmpty(e.aliases[k]);
    AliasIsAKey(e.aliases, Lower(e.aliases[k]));
  }

  /** One of the texts, once read, has this key. */
  predicate AnyCarries(texts: seq<string>, key: string) {
    exists t :: t in texts && Carries(t, key)
  }

  predicate Carries(text: string, key: string) {
    TextOf(text) != "" && Lower(TextOf(text)) == key
  }

  lemma ValuesCarry(texts: seq<string>, key: string)
    ensures HasValue(ReadValues(texts), 0, key) <==> AnyCarries(texts, key)
  {
    var values := ReadValues(texts);
    if HasValue(values, 0, key) {
      var j :| 0 <= j < |values| && values[j].text != "" && values[j].key == key;
      assert Carries(texts[j], key);
    }
    if AnyCarries(texts, key) {
      var t :| t in texts && Carries(t, key);
      var j :| 0 <= j < |texts| && texts[j] == t;
      assert values[j].key == key;
    }
  }

  lemma TrimmedCarries(text: string, key: string)
    ensures Carries(text, key) <==> Trim(text) != "" && Carries(Trim(text), key)
  {
    TextOfTrim(text);
    BlankIsEmpty(text);
  }

  lemma {:induction false} TrimmedTextsCarry(texts: seq<string>, key: string)
    ensures AnyCarries(texts, key) <==> AnyCarries(TrimmedTexts(texts), key)
  {
    if texts != [] {
      var first, rest := texts[0], texts[1..];
      TrimmedTextsCarry(rest, key);
      TrimmedCarries(first, key);
      assert texts == [first] + rest;
    }
  }

  /** The copy of an environment groups the same values. */
  lemma CopyGroupsTheSame(e: Environment, key: string)
    ensures Groups(ReadSource(e), key) <==> Groups(ReadSource(CopyOf(e)), key)
  {
    TrimIsTrimmed(e.name);
    TrimOfTrimmed(Trim(e.name));
    ValuesCarry(e.aliases, key);
    ValuesCarry(CopyOf(e).aliases, key);
    TrimmedTextsCarry(e.aliases, key);
  }

  // ------------------------------------------------------------------ usual values are on one line

  lemma ProductionIsLetters()
    ensures forall j :: 0 <= j < |FAMILIES[0].values| ==> AreLetters(FAMILIES[0].values[j])
  {
  }

  lemma PreproductionIsLetters()
    ensures forall j :: 0 <= j < |FAMILIES[1].values| ==> AreLetters(FAMILIES[1].values[j])
  {
  }

  lemma RecetteIsLetters()
    ensures forall j :: 0 <= j < |FAMILIES[2].values| ==> AreLetters(FAMILIES[2].values[j])
  {
  }

  lemma TestIsLetters()
    ensures forall j :: 0 <= j < |FAMILIES[3].values| ==> AreLetters(FAMILIES[3].values[j])
  {
  }

  lemma IntegrationIsLetters()
    ensures forall j :: 0 <= j < |FAMILIES[4].values| ==> AreLetters(FAMILIES[4].values[j])
  {
  }

  lemma DeveloppementIsLetters()
    ensures forall j :: 0 <= j < |FAMILIES[5].values| ==> AreLetters(FAMILIES[5].values[j])
  {
  }

  lemma FamilyValuesAreLetters(f: nat, j: nat)
    requires f < |FAMILIES| && j < |FAMILIES[f].values|
    ensures AreLetters(FAMILIES[f].values[j])
  {
    match f
    case 0 => ProductionIsLetters();
    case 1 => PreproductionIsLetters();
    case 2 => RecetteIsLetters();
    case 3 => TestIsLetters();
    case 4 => IntegrationIsLetters();
    case 5 => DeveloppementIsLetters();
  }

  lemma {:induction false} FamilyWord(word: string, f: nat)
    requires f <= |FAMILIES| && FamilyFrom(word, f) < |FAMILIES|
    ensures AreLetters(word)
    decreases |FAMILIES| - f
  {
    if word in FAMILIES[f].values {
      var j :| 0 <= j < |FAMILIES[f].values| && FAMILIES[f].values[j] == word;
      FamilyValuesAreLetters(f, j);
    } else {
      FamilyWord(word, f + 1);
    }
  }

  lemma {:induction false} SimplifiedKeepsBreaks(s: string)
    requires AreLetters(Simplified(s))
    ensures HasNoBreak(s)
  {
    if s != "" {
      var rest := Simplified(s[1..]);
      if IsSeparator(s[0]) {
        assert Simplified(s) == rest;
      } else {
        assert Simplified(s)[0] == WithoutAccent(s[0]);
        assert forall i :: 0 <= i < |rest| ==> rest[i] == Simplified(s)[i + 1];
      }
      SimplifiedKeepsBreaks(s[1..]);
      assert forall i :: 1 <= i < |s| ==> s[i] == s[1..][i - 1];
    }
  }

  /** A usual value without white space around it is on one line. */
  lemma UsualIsOnOneLine(v: string)
    requires IsUsual(v) && IsTrimmed(v)
    ensures HasNoBreak(v)
  {
    TrimOfTrimmed(v);
    FamilyWord(Simplify(v), 0);
    SimplifiedKeepsBreaks(Lower(v));
    forall i | 0 <= i < |v| ensures !IsBreak(v[i]) {
      assert Lower(v)[i] == LowerChar(v[i]);
    }
  }

  lemma UsualReadsAsItself(v: string)
    requires IsUsual(v) && IsTrimmed(v)
    ensures TextOf(Lower(v)) == Lower(v)
  {
    UsualIsOnOneLine(v);
    TextOfText(v);
    TextOfLower(v);
  }

  // ------------------------------------------------------------------ the environments proposed

  /** Nothing is wrong with the environment; its aliases are short enough as the check reads them. */
  predicate IsSuitable(e: Environment) {
    ProblemOf(e) == NoProblem && IsTidy(e) && AreShort(e.aliases)
  }

  predicate IsShort(text: string) {
    |TextOf(text)| <= MAX_LENGTH
  }

  predicate AreShort(texts: seq<string>) {
    forall k :: 0 <= k < |texts| ==> IsShort(texts[k])
  }

  predicate IsSuitableValue(v: string) {
    v != "" && IsTrimmed(v) && HasNoBreak(v) && |v| <= MAX_LENGTH
  }

  lemma FamilyTitles(f: nat)
    requires f < |FAMILIES|
    ensures IsTitle(FAMILIES[f].title)
  {
    match f
    case 0 => assert IsTitle("Production");
    case 1 => assert IsTitle("Pr\U{e9}production");
    case 2 => assert IsTitle("Recette");
    case 3 => assert IsTitle("Test");
    case 4 => assert IsTitle("Int\U{e9}gration");
    case 5 => assert IsTitle("D\U{e9}veloppement");
  }

  predicate IsTitle(t: string) {
    t != "" && IsText(t) && |t| <= 40
  }

  lemma FamilyKinds(f: nat)
    requires f < |FAMILIES|
    ensures IsKind(FAMILIES[f].kind)
  {
  }

  lemma FamilyIsSuitable(f: nat, order: int)
    requires f < |FAMILIES|
    ensures IsSuitable(FamilyEnvironment(FAMILIES[f], order))
  {
    NamesAreLetters(f);
    FamilyTitles(f);
    FamilyKinds(f);
    PlainIsSuitable(FamilyEnvironment(FAMILIES[f], order));
  }

  lemma PlainIsSuitable(e: Environment)
    requires IsName(e.name) && IsTitle(e.title) && IsKind(e.kind) && e.color == "" && e.aliases == []
    ensures IsSuitable(e)
  {
    NameOfName(e.name);
    TextOfText(e.title);
    KindOfKind(e.kind);
    TextOfText("");
  }

  lemma OneMoreIsShort(texts: seq<string>, v: string)
    requires AreShort(texts) && IsShort(v)
    ensures AreShort(texts + [v])
  {
  }

  lemma OneMoreIsTidy(e: Environment, v: string)
    requires IsTidy(e) && v != "" && IsTrimmed(v)
    ensures IsTidy(Grouping(e, v))
  {
  }

  lemma GroupingIsSuitable(e: Environment, v: string)
    requires IsSuitable(e) && IsSuitableValue(v)
    ensures IsSuitable(Grouping(e, v))
  {
    SameProblem(e, Grouping(e, v));
    TextOfText(v);
    OneMoreIsShort(e.aliases, v);
    OneMoreIsTidy(e, v);
  }

  /** Aliases and white space around the name do not change what is wrong with an environment. */
  lemma SameProblem(e: Environment, f: Environment)
    requires NameOf(e.name) == NameOf(f.name) && e.title == f.title && e.kind == f.kind && e.color == f.color
    ensures ProblemOf(e) == ProblemOf(f)
  {
  }

  lemma {:induction false} TrimmedTextsAreShort(texts: seq<string>)
    requires AreShort(texts)
    ensures AreShort(TrimmedTexts(texts))
  {
    if texts != [] {
      var rest := TrimmedTexts(texts[1..]);
      assert forall k :: 0 <= k < |texts| - 1 ==> texts[1..][k] == texts[k + 1];
      TrimmedTextsAreShort(texts[1..]);
      TextOfTrim(texts[0]);
      assert IsShort(texts[0]);
      assert TrimmedTexts(texts) == if Trim(texts[0]) == "" then rest else [Trim(texts[0])] + rest;
    }
  }

  lemma AliasesAreShort(e: Environment)
    requires ValuesFit(ReadSource(e))
    ensures AreShort(e.aliases)
  {
    forall k | 0 <= k < |e.aliases| ensures IsShort(e.aliases[k]) {
      assert ReadSource(e).values[k].text == TextOf(e.aliases[k]);
    }
  }

  lemma CopyHasNoProblem(e: Environment)
    requires ProblemOf(e) == NoProblem
    ensures Trim(e.name) != "" && ProblemOf(CopyOf(e)) == NoProblem
  {
    TrimIsTrimmed(e.name);
    TrimOfTrimmed(Trim(e.name));
    SameProblem(e, CopyOf(e));
  }

  lemma CopyIsSuitable(e: Environment)
    requires IsFine(e)
    ensures Trim(e.name) != "" && IsSuitable(CopyOf(e))
  {
    TrimIsTrimmed(e.name);
    CopyHasNoProblem(e);
    TrimmedTextsAreTrimmed(e.aliases);
    AliasesAreShort(e);
    TrimmedTextsAreShort(e.aliases);
    assert IsTidy(CopyOf(e));
  }

  predicate IsCopiable(e: Environment) {
    Trim(e.name) != "" && IsSuitable(CopyOf(e))
  }

  lemma {:induction false} CopiesOfCopiable(es: seq<Environment>)
    requires forall i :: 0 <= i < |es| ==> IsCopiable(es[i])
    ensures var r := Copies(es); |r| == |es| && forall i :: 0 <= i < |es| ==> r[i] == CopyOf(es[i])
  {
    if es != [] {
      assert IsCopiable(es[0]);
      CopiesOfCopiable(es[1..]);
      assert Copies(es) == [CopyOf(es[0])] + Copies(es[1..]);
    }
  }

  lemma CopiesAreThose(es: seq<Environment>)
    requires forall i :: 0 <= i < |es| ==> IsFine(es[i])
    ensures var r := Copies(es); |r| == |es| && forall i :: 0 <= i < |es| ==> r[i] == CopyOf(es[i]) && IsSuitable(r[i])
  {
    forall i | 0 <= i < |es| ensures IsCopiable(es[i]) {
      CopyIsSuitable(es[i]);
    }
    CopiesOfCopiable(es);
  }

  /** What the copy has as a key, the check reads in the environment. */
  lemma KeyOfCopy(e: Environment, raw: string)
    requires IsFine(e) && raw in KeysOf(CopyOf(e))
    ensures Groups(ReadSource(e), TextOf(raw))
  {
    CopyIsSuitable(e);
    GroupsItsKeys(CopyOf(e), TextOf(raw));
    CopyGroupsTheSame(e, TextOf(raw));
  }

  /** Accepted environments have no value in two of their copies. */
  lemma CopiesAreSole(es: seq<Environment>)
    requires AreAccepted(es)
    ensures L.IsSole(AllKeys(Copies(es)))
  {
    CopiesAreThose(es);
    var sets := AllKeys(Copies(es));
    forall i, j | 0 <= i < j < |sets| ensures sets[i] !! sets[j] {
      assert AreSeparate(es[i], es[j]);
      forall raw | raw in sets[i] && raw in sets[j] ensures false {
        KeyOfCopy(es[i], raw);
        KeyOfCopy(es[j], raw);
      }
    }
  }

  /** The received values that may be grouped are short enough and have no white space around them. */
  predicate AreReceivable(received: seq<string>) {
    forall j :: 0 <= j < |received| ==> IsTrimmed(received[j]) && |received[j]| <= MAX_LENGTH
  }

  lemma ProposalIsSuitable(s: Settings, received: seq<string>)
    requires AreAccepted(s.environments) && AreReceivable(received)
    ensures forall i :: 0 <= i < |Proposal(s, received).environments| ==>
                          IsSuitable(Proposal(s, received).environments[i])
  {
    var ok: Environment -> bool := e => IsSuitable(e);
    var good: string -> bool := v => IsSuitableValue(v);
    CopiesAreThose(s.environments);
    forall e, v | ok(e) && good(v) ensures ok(Grouping(e, v)) {
      GroupingIsSuitable(e, v);
    }
    forall f, order | 0 <= f < |FAMILIES| ensures ok(FamilyEnvironment(FAMILIES[f], order)) {
      FamilyIsSuitable(f, order);
    }
    forall j | 0 <= j < |received| && Trim(received[j]) != "" && IsUsual(received[j]) ensures good(received[j]) {
      TrimOfTrimmed(received[j]);
      UsualIsOnOneLine(received[j]);
    }
    ProposalLasts(s, received, ok, good);
  }

  predicate FitsInCount(e: Environment) {
    |CleanValues(ReadSource(e))| <= MAX_VALUES
  }

  lemma SuitableValuesFit(e: Environment)
    requires AreShort(e.aliases)
    ensures ValuesFit(ReadSource(e)) <==> FitsInCount(e)
  {
    var source := ReadSource(e);
    forall k | 0 <= k < |source.values| ensures |source.values[k].text| <= MAX_LENGTH {
      assert IsShort(e.aliases[k]);
    }
  }

  lemma SuitableIsFine(e: Environment)
    requires IsSuitable(e)
    ensures IsFine(e) <==> FitsInCount(e)
  {
    SuitableValuesFit(e);
  }

  // ------------------------------------------------------------------ what the check reads as one value

  /** The grouping leaves the value where it is, or gives it to environment u. */
  predicate GoesTo(s: Settings, v: string, u: nat)
    requires IsUsual(v)
  {
    var owners, name := Start(s).owners, FAMILIES[FamilyOf(v)].name;
    Lower(v) in owners || (name in owners && owners[name] == u)
  }

  /** A usual value, which the check reads in environment u of the draft. */
  predicate IsReadIn(s: Settings, v: string, u: nat)
    requires u < |s.environments|
  {
    Trim(v) != "" && IsUsual(v) && Groups(ReadSource(s.environments[u]), Lower(v))
  }

  /** A usual value received is read by the check in no environment that the grouping passes over. */
  predicate AreReadAlike(s: Settings, received: seq<string>) {
    forall j, u :: 0 <= j < |received| && 0 <= u < |s.environments| && IsReadIn(s, received[j], u) ==>
      GoesTo(s, received[j], u)
  }

  /** A key that the draft had not is read as it stands. */
  lemma NewKeyReadsAsItself(s: Settings, received: seq<string>, key: string)
    requires AreReceivable(received) && key in Proposed(s, received).owners && key !in Start(s).owners
    ensures TextOf(key) == key
  {
    NewKeys(s, received, key);
    if f :| 0 <= f < |FAMILIES| && FAMILIES[f].name == key {
      NamesAreLetters(f);
      TextOfText(key);
    } else {
      var j :| 0 <= j < |received| && Trim(received[j]) != "" && IsUsual(received[j]) && Lower(received[j]) == key;
      UsualReadsAsItself(received[j]);
    }
  }

  /** A key without white space around it that reads as letters is those letters. */
  lemma LettersReadAsThemselves(raw: string)
    requires IsTrimmed(raw) && AreLetters(TextOf(raw))
    ensures TextOf(raw) == raw
  {
    if HasNoBreak(raw) {
      TextOfText(raw);
    } else {
      BreakReadsAsSpace(raw);
    }
  }

  lemma KeysAreTrimmed(e: Environment, raw: string)
    requires IsTidy(e) && raw in KeysOf(e)
    ensures IsTrimmed(raw)
  {
    AliasIsAKey(e.aliases, raw);
  }

  /** What the proposal knows of its keys: the draft had each in one environment, or it is new and has one owner. */
  lemma KeyOfProposal(s: Settings, received: seq<string>, i: nat, raw: string)
    requires AreAccepted(s.environments)
    requires i < |Proposed(s, received).environments| && raw in KeysOf(Proposed(s, received).environments[i])
    ensures raw in Proposed(s, received).owners && Proposed(s, received).owners[raw] == i
    ensures raw in Start(s).owners ==>
      i < |s.environments| && |Copies(s.environments)| == |s.environments| && raw in KeysOf(CopyOf(s.environments[i]))
  {
    var p, d := Proposed(s, received), Start(s);
    CopiesAreThose(s.environments);
    CopiesAreSole(s.environments);
    OwnershipIsKept(s, received);
    OwnersAgree(d.environments);
    L.OwnerIsTheOnlyOne(p.owners, AllKeys(p.environments), raw, i);
    if raw in d.owners {
      assert raw in AllKeys(d.environments)[i];
    }
  }

  /** An old key and a new one of two environments are not read as one value. */
  lemma OldAndNewAreApart(s: Settings, received: seq<string>, i: nat, j: nat, old_: string, new_: string)
    requires AreAccepted(s.environments) && AreReceivable(received) && AreReadAlike(s, received)
    requires i < |Proposed(s, received).environments| && j < |Proposed(s, received).environments| && i != j
    requires old_ in KeysOf(Proposed(s, received).environments[i]) && old_ in Start(s).owners
    requires new_ in KeysOf(Proposed(s, received).environments[j]) && new_ !in Start(s).owners
    ensures TextOf(old_) != TextOf(new_)
  {
    KeyOfProposal(s, received, i, old_);
    KeyOfProposal(s, received, j, new_);
    NewKeyReadsAsItself(s, received, new_);
    if TextOf(old_) == new_ {
      CopyIsSuitable(s.environments[i]);
      KeysAreTrimmed(CopyOf(s.environments[i]), old_);
      KeyOfCopy(s.environments[i], old_);
      NewKeys(s, received, new_);
      if f :| 0 <= f < |FAMILIES| && FAMILIES[f].name == new_ {
        NamesAreLetters(f);
        LettersReadAsThemselves(old_);
      } else {
        var k :| 0 <= k < |received| && Trim(received[k]) != "" && IsUsual(received[k]) && Lower(received[k]) == new_;
        OwnerOfUsual(s, received, k);
        assert IsReadIn(s, received[k], i);
      }
    }
  }

  lemma ProposalIsSeparate(s: Settings, received: seq<string>, i: nat, j: nat)
    requires AreAccepted(s.environments) && AreReceivable(received) && AreReadAlike(s, received)
    requires i < j < |Proposal(s, received).environments|
    ensures AreSeparate(Proposal(s, received).environments[i], Proposal(s, received).environments[j])
  {
    var es := Proposal(s, received).environments;
    ProposalIsSuitable(s, received);
    forall key | Groups(ReadSource(es[i]), key) && Groups(ReadSource(es[j]), key) ensures false {
      GroupsItsKeys(es[i], key);
      GroupsItsKeys(es[j], key);
      var a :| a in KeysOf(es[i]) && TextOf(a) == key;
      var b :| b in KeysOf(es[j]) && TextOf(b) == key;
      TwoKeysAreApart(s, received, i, j, a, b);
    }
  }

  lemma TwoKeysAreApart(s: Settings, received: seq<string>, i: nat, j: nat, a: string, b: string)
    requires AreAccepted(s.environments) && AreReceivable(received) && AreReadAlike(s, received)
    requires i < j < |Proposed(s, received).environments|
    requires a in KeysOf(Proposed(s, received).environments[i]) && b in KeysOf(Proposed(s, received).environments[j])
    ensures TextOf(a) != TextOf(b)
  {
    KeyOfProposal(s, received, i, a);
    KeyOfProposal(s, received, j, b);
    var owners := Start(s).owners;
    if a in owners && b in owners {
      KeyOfCopy(s.environments[i], a);
      KeyOfCopy(s.environments[j], b);
      assert AreSeparate(s.environments[i], s.environments[j]);
    } else if a in owners {
      OldAndNewAreApart(s, received, i, j, a, b);
    } else if b in owners {
      OldAndNewAreApart(s, received, j, i, b, a);
    } else {
      NewKeyReadsAsItself(s, received, a);
      NewKeyReadsAsItself(s, received, b);
    }
  }

  /** What an environment of the draft groups for the check, it groups in the proposal. */
  lemma GroupsStay(s: Settings, received: seq<string>, u: nat, key: string)
    requires AreAccepted(s.environments) && AreReceivable(received) && u < |s.environments|
    requires Groups(ReadSource(s.environments[u]), key)
    ensures u < |Proposal(s, received).environments| && Groups(ReadSource(Proposal(s, received).environments[u]), key)
  {
    var e, p := s.environments[u], Proposal(s, received).environments;
    CopiesAreThose(s.environments);
    OwnershipIsKept(s, received);
    assert HasGrown(CopyOf(e), p[u]);
    ProposalIsSuitable(s, received);
    CopyGroupsTheSame(e, key);
    GroupsItsKeys(CopyOf(e), key);
    var raw :| raw in KeysOf(CopyOf(e)) && TextOf(raw) == key;
    KeysStay(CopyOf(e), p[u], raw);
    GroupsItsKeys(p[u], key);
  }

  lemma KeysStay(before: Environment, after: Environment, raw: string)
    requires HasGrown(before, after) && raw in KeysOf(before)
    ensures raw in KeysOf(after)
  {
    AliasIsAKey(before.aliases, raw);
    AliasIsAKey(after.aliases, raw);
    if k :| 0 <= k < |before.aliases| && Lower(before.aliases[k]) == raw {
      assert after.aliases[k] == before.aliases[k];
    }
  }

  lemma GroupedOnce(es: seq<Environment>, i: nat, j: nat, key: string)
    requires AreAccepted(es) && i < |es| && j < |es|
    requires Groups(ReadSource(es[i]), key) && Groups(ReadSource(es[j]), key)
    ensures i == j
  {
  }

  /** When the environments proposed are apart, the check reads each usual value where the grouping put it. */
  lemma ReadWhereItGoes(s: Settings, received: seq<string>, j: nat, u: nat)
    requires AreAccepted(s.environments) && AreReceivable(received) && AreAccepted(Proposal(s, received).environments)
    requires j < |received| && u < |s.environments| && IsReadIn(s, received[j], u)
    ensures GoesTo(s, received[j], u)
  {
    var p, es, key := Proposed(s, received), Proposal(s, received).environments, Lower(received[j]);
    OwnerOfUsual(s, received, j);
    UsualReadsAsItself(received[j]);
    OwnerGroups(s, received, key);
    GroupsStay(s, received, u, key);
    GroupedOnce(es, p.owners[key], u, key);
    CopiesAreThose(s.environments);
  }

  lemma OwnerHasKey(s: Settings, received: seq<string>, key: string)
    requires key in Proposed(s, received).owners
    ensures var p := Proposed(s, received);
      p.owners[key] < |p.environments| && key in KeysOf(p.environments[p.owners[key]])
  {
    var p := Proposed(s, received);
    OwnershipIsKept(s, received);
    assert key in AllKeys(p.environments)[p.owners[key]];
  }

  lemma OneIsSuitable(s: Settings, received: seq<string>, i: nat)
    requires AreAccepted(s.environments) && AreReceivable(received) && i < |Proposed(s, received).environments|
    ensures IsSuitable(Proposed(s, received).environments[i])
  {
    ProposalIsSuitable(s, received);
    assert Proposal(s, received).environments[i] == Proposed(s, received).environments[i];
  }

  lemma OwnerGroups(s: Settings, received: seq<string>, key: string)
    requires AreAccepted(s.environments) && AreReceivable(received)
    requires key in Proposed(s, received).owners && TextOf(key) == key
    ensures var p := Proposed(s, received);
      p.owners[key] < |p.environments| && Groups(ReadSource(p.environments[p.owners[key]]), key)
  {
    OwnerHasKey(s, received, key);
    var o := Proposed(s, received).owners[key];
    OneIsSuitable(s, received, o);
    KeyIsGrouped(Proposed(s, received).environments[o], key);
  }

  lemma KeyIsGrouped(e: Environment, key: string)
    requires IsSuitable(e) && key in KeysOf(e) && TextOf(key) == key
    ensures Groups(ReadSource(e), key)
  {
    GroupsItsKeys(e, key);
  }

  lemma ProposalIsFine(s: Settings, received: seq<string>, i: nat)
    requires AreAccepted(s.environments) && AreReceivable(received) && i < |Proposal(s, received).environments|
    ensures IsFine(Proposal(s, received).environments[i]) <==> FitsInCount(Proposal(s, received).environments[i])
  {
    OneIsSuitable(s, received, i);
    SuitableIsFine(Proposal(s, received).environments[i]);
  }

  lemma AlikeIsAccepted(s: Settings, received: seq<string>)
    requires AreAccepted(s.environments) && AreReceivable(received) && AreReadAlike(s, received)
    requires forall i :: 0 <= i < |Proposal(s, received).environments| ==>
                           FitsInCount(Proposal(s, received).environments[i])
    ensures AreAccepted(Proposal(s, received).environments)
  {
    var es := Proposal(s, received).environments;
    forall i | 0 <= i < |es| ensures IsFine(es[i]) {
      ProposalIsFine(s, received, i);
    }
    forall i, j | 0 <= i < j < |es| ensures AreSeparate(es[i], es[j]) {
      ProposalIsSeparate(s, received, i, j);
    }
  }

  lemma AcceptedIsAlike(s: Settings, received: seq<string>)
    requires AreAccepted(s.environments) && AreReceivable(received) && AreAccepted(Proposal(s, received).environments)
    ensures AreReadAlike(s, received)
  {
    forall j, u | 0 <= j < |received| && 0 <= u < |s.environments| && IsReadIn(s, received[j], u)
      ensures GoesTo(s, received[j], u)
    {
      ReadWhereItGoes(s, received, j, u);
    }
  }

  /** The check finds nothing wrong with the environments proposed exactly when usual values are read where they go. */
  lemma EnvironmentsAreAcceptedExactlyWhen(s: Settings, received: seq<string>)
    requires AreAccepted(s.environments) && AreReceivable(received)
    ensures var es := Proposal(s, received).environments;
      AreAccepted(es) <==> AreReadAlike(s, received) && forall i :: 0 <= i < |es| ==> FitsInCount(es[i])
  {
    var es := Proposal(s, received).environments;
    if AreAccepted(es) {
      AcceptedIsAlike(s, received);
      forall i | 0 <= i < |es| ensures FitsInCount(es[i]) {
        ProposalIsFine(s, received, i);
      }
    } else if AreReadAlike(s, received) && forall i :: 0 <= i < |es| ==> FitsInCount(es[i]) {
      AlikeIsAccepted(s, received);
    }
  }

  /** From an accepted draft, each usual value received ends in exactly one environment. */
  lemma UsualIsGroupedOnce(s: Settings, received: seq<string>, j: nat)
    requires CheckSettings(s).Accepted?
    requires j < |received| && Trim(received[j]) != "" && IsUsual(received[j])
    ensures var p, key := Proposed(s, received), Lower(received[j]);
      && key in p.owners && p.owners[key] < |p.environments|
      && forall i :: 0 <= i < |p.environments| ==> (key in KeysOf(p.environments[i]) <==> i == p.owners[key])
  {
    AcceptedExactlyWhen(s);
    CopiesAreSole(s.environments);
    SoleValueIsGroupedOnce(s, received, j);
  }

  // ------------------------------------------------------------------ applications and the new names

  function EnvironmentNames(es: seq<Environment>): set<string> {
    set e | e in es :: NameOf(e.name)
  }

  lemma NamesOfCleaned(es: seq<Environment>)
    ensures NamesOf(Clean(ReadSources(es))) == EnvironmentNames(es)
  {
    var list := Clean(ReadSources(es));
    forall i | 0 <= i < |es| ensures list[i].name == NameOf(es[i].name) && list[i].name in EnvironmentNames(es) {
      assert es[i] in es;
    }
    forall n | n in EnvironmentNames(es) ensures n in NamesOf(list) {
      var e :| e in es && NameOf(e.name) == n;
      var i :| 0 <= i < |es| && es[i] == e;
      assert list[i].name == n;
    }
  }

  lemma CleanedNames(s: Settings)
    ensures NamesOf(CleanEnvironments(s)) == EnvironmentNames(s.environments)
  {
    InOrderAreThose(s.environments);
    NamesOfCleaned(InOrder(s.environments));
  }

  /** The application keeps as it is a value that is the name of an environment. */
  predicate Detaches(app: ReadApp, names: set<string>) {
    exists k :: 0 <= k < |app.aliases| && IsDetached(app.aliases[k], names)
  }

  predicate IsDetached(a: ReadAttached, names: set<string>) {
    a.value.text != "" && a.target == "" && a.value.key in names
  }

  lemma MoreNamesAttach(names: set<string>, more: set<string>, read: seq<ReadAttached>)
    requires names <= more && AttachedAreGood(names, read, 0)
    ensures AttachedAreGood(more, read, 0) <==> forall k :: 0 <= k < |read| ==> !IsDetached(read[k], more)
  {
    forall k | 0 <= k < |read| ensures IsAttachable(more, read[k]) <==> !IsDetached(read[k], more) {
      assert IsAttachable(names, read[k]);
    }
    assert forall j, k :: 0 <= j < k < |read| ==> AreDifferent(read[j], read[k]);
  }

  lemma {:induction false} MoreNamesHide(names: set<string>, more: set<string>, hidden: seq<Value>, k: nat,
      seen: set<string>)
    ensures |CleanHidden(names, hidden, k, seen)| == |CleanHidden(more, hidden, k, seen)|
    decreases |hidden| - k
  {
    if k < |hidden| {
      MoreNamesHide(names, more, hidden, k + 1, seen);
      MoreNamesHide(names, more, hidden, k + 1, seen + {hidden[k].key});
    }
  }

  lemma MoreNamesForApp(names: set<string>, more: set<string>, app: ReadApp)
    requires names <= more && AppIsGood(names, app)
    ensures AppIsGood(more, app) <==> !Detaches(app, more)
    ensures IsEmpty(CleanApp(more, app)) <==> IsEmpty(CleanApp(names, app))
  {
    MoreNamesAttach(names, more, app.aliases);
    MoreNamesHide(names, more, app.hidden, 0, {});
  }

  lemma {:induction false} MoreNamesForApps(names: set<string>, more: set<string>, apps: seq<ReadApp>, k: nat)
    requires names <= more && forall i :: 0 <= i < |apps| ==> AppIsGood(names, apps[i])
    ensures |CleanApps(names, apps, k)| == |CleanApps(more, apps, k)|
    decreases |apps| - k
  {
    if k < |apps| {
      MoreNamesForApps(names, more, apps, k + 1);
      MoreNamesForApp(names, more, apps[k]);
    }
  }

  lemma AppsStayGood(names: set<string>, more: set<string>, apps: seq<ReadApp>)
    requires names <= more && AppsAreGood(names, apps)
    ensures AppsAreGood(more, apps) <==> forall i :: 0 <= i < |apps| ==> !Detaches(apps[i], more)
  {
    MoreNamesForApps(names, more, apps, 0);
    forall i | 0 <= i < |apps| ensures AppIsGood(more, apps[i]) <==> !Detaches(apps[i], more) {
      MoreNamesForApp(names, more, apps[i]);
    }
  }

  lemma NameStays(e: Environment, after: Environment)
    requires HasGrown(CopyOf(e), after)
    ensures NameOf(after.name) == NameOf(e.name)
  {
    TrimIsTrimmed(e.name);
    TrimOfTrimmed(Trim(e.name));
  }

  lemma NamesStay(before: seq<Environment>, after: seq<Environment>)
    requires |before| <= |after| && forall i :: 0 <= i < |before| ==> HasGrown(CopyOf(before[i]), after[i])
    ensures EnvironmentNames(before) <= EnvironmentNames(after)
  {
    forall n | n in EnvironmentNames(before) ensures n in EnvironmentNames(after) {
      var e :| e in before && NameOf(e.name) == n;
      var i :| 0 <= i < |before| && before[i] == e;
      NameStays(e, after[i]);
      assert after[i] in after;
    }
  }

  lemma ProposalKeepsNames(s: Settings, received: seq<string>)
    requires AreAccepted(s.environments)
    ensures EnvironmentNames(s.environments) <= EnvironmentNames(Proposal(s, received).environments)
  {
    var copies, es := Copies(s.environments), Proposal(s, received).environments;
    CopiesAreThose(s.environments);
    OwnershipIsKept(s, received);
    forall i | 0 <= i < |s.environments| ensures HasGrown(CopyOf(s.environments[i]), es[i]) {
      assert HasGrown(copies[i], es[i]);
    }
    NamesStay(s.environments, es);
  }

  // ------------------------------------------------------------------ the check accepts the proposal

  predicate IsWithinLimits(es: seq<Environment>) {
    |es| <= MAX_ENVIRONMENTS && forall i :: 0 <= i < |es| ==> FitsInCount(es[i])
  }

  /** No application keeps as it is a value that is the name of an environment. */
  predicate NoneDetaches(s: Settings) {
    forall i :: 0 <= i < |s.apps| ==> !Detaches(ReadOneApp(s.apps[i]), EnvironmentNames(s.environments))
  }

  /** What the check asks, whatever the order of the environments. */
  lemma AcceptedExactlyWhen(s: Settings)
    ensures CheckSettings(s).Accepted? <==>
      && |s.environments| <= MAX_ENVIRONMENTS
      && AreAccepted(s.environments)
      && AppsAreGood(EnvironmentNames(s.environments), ReadApps(s.apps))
  {
    CheckIsExact(s);
    OrderDoesNotMatter(s.environments);
    CleanedNames(s);
  }

  /**
   A draft that the check accepts, grouped with received values that are trimmed and short enough, gives settings that
   the check accepts exactly when they hold the limits of number, no application keeps apart a value named like one of
   their environments, and no environment that the grouping passes over is read as having a usual value received.
   */
  lemma ProposalIsAcceptedExactlyWhen(s: Settings, received: seq<string>)
    requires CheckSettings(s).Accepted? && AreReceivable(received)
    ensures var p := Proposal(s, received);
      CheckSettings(p).Accepted? <==> IsWithinLimits(p.environments) && NoneDetaches(p) && AreReadAlike(s, received)
  {
    var p := Proposal(s, received);
    AcceptedExactlyWhen(s);
    AcceptedExactlyWhen(p);
    EnvironmentsAreAcceptedExactlyWhen(s, received);
    ProposalKeepsNames(s, received);
    AppsStayGood(EnvironmentNames(s.environments), EnvironmentNames(p.environments), ReadApps(s.apps));
    NoneDetachesAsRead(p);
  }

  lemma NoneDetachesAsRead(s: Settings)
    ensures NoneDetaches(s) <==>
      forall i :: 0 <= i < |ReadApps(s.apps)| ==> !Detaches(ReadApps(s.apps)[i], EnvironmentNames(s.environments))
  {
    var read := ReadApps(s.apps);
    assert forall i :: 0 <= i < |read| ==> read[i] == ReadOneApp(s.apps[i]);
  }
}
