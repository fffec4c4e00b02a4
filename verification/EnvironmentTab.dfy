/**
 An alias with a tab inside: the draft is accepted, and what is proposed from it is not. The grouping
 compares a received value with the alias as typed, finds the two different and groups the value in a usual
 environment; the check reads the tab as a space, and then the value is in two environments. The proof
 computes each step of the grouping and of the check on this one draft.
 */
module EnvironmentTab {
  import opened Strings
  import opened EnvironmentText
  import opened EnvironmentCheck
  import opened EnvironmentApps
  import opened EnvironmentStore
  import opened EnvironmentSuggestion
  import opened EnvironmentProposal
  import opened EnvironmentAcceptance

  const TABBED := Environment("x", "", "", "", false, 0, ["q\ta"])

  const DRAFT := Settings([TABBED], [])

  lemma TabIsSplit()
    ensures Fields("q\ta") == ["q", "a"]
  {
    FieldsOfLine("a");
    var rest := Fields("\ta");
    assert "\ta"[1..] == "a" && "q\ta"[1..] == "\ta";
    assert rest == ["", "a"];
    assert ['q'] + rest[0] == "q" && rest[1..] == ["a"];
  }

  lemma TabIsRead()
    ensures TextOf("q\ta") == "q a" && Lower("q a") == "q a"
  {
    TabIsSplit();
    TwoPieces();
    TrimOfTrimmed("q a");
  }

  lemma TwoPieces()
    ensures Join(Pieces(["q", "a"]), " ") == "q a"
  {
    TrimOfTrimmed("q");
    TrimOfTrimmed("a");
    assert ["q", "a"][1..] == ["a"] && ["a"][1..] == [];
    assert Pieces(["a"]) == ["a"];
    assert Pieces(["q", "a"]) == ["q"] + ["a"] == ["q", "a"];
  }

  lemma TabbedIsFine()
    ensures IsFine(TABBED) && Groups(ReadSource(TABBED), "q a")
  {
    TabIsRead();
    NameOfName("x");
    TextOfText("");
    var values := ReadValues(TABBED.aliases);
    assert values[0] == Value("q a", "q a");
    assert NewValues(values, 1, {"x"} + {"q a"}) == [];
    assert "q a" != "x";
    assert NewValues(values, 0, {"x"}) == ["q a"] + [];
  }

  lemma NoApps(names: set<string>)
    ensures AppsAreGood(names, ReadApps([]))
  {
  }

  lemma DraftIsAccepted()
    ensures CheckSettings(DRAFT).Accepted?
  {
    TabbedIsFine();
    assert AreAccepted(DRAFT.environments);
    NoApps(EnvironmentNames(DRAFT.environments));
    AcceptedExactlyWhen(DRAFT);
  }

  lemma WithoutSpace()
    ensures Simplified("q a") == "qa"
  {
    var a := "a";
    assert a[1..] == "";
    assert Simplified(a) == "a";
    var b := " a";
    assert b[1..] == a;
    assert Simplified(b) == "" + Simplified(a) == "a";
    var c := "q a";
    assert c[1..] == b;
    assert Simplified(c) == "q" + Simplified(b);
  }

  lemma ValueIsUsual()
    ensures FamilyOf("q a") == 3
  {
    TrimOfTrimmed("q a");
    TabIsRead();
    WithoutSpace();
    QaIsATest();
  }

  lemma QaIsATest()
    ensures FamilyFrom("qa", 0) == 3
  {
    assert FAMILIES[3].values[3] == "qa";
    forall g | 0 <= g < 3 ensures "qa" !in FAMILIES[g].values {
      forall i | 0 <= i < |FAMILIES[g].values| ensures FAMILIES[g].values[i] != "qa" {
        assert |FAMILIES[g].values[i]| > 2;
      }
    }
    FirstFamily("qa", 0, 3);
  }

  /** A single value of the fourth family is grouped in that family and leaves the others alone. */
  lemma OnlyTests(d: Draft, v: string)
    requires Fits(d) && FamilyOf(v) == 3
    ensures GroupAll(d, [v], 6) == GroupFamily(d, 3, [v])
  {
    forall f: nat ensures ValuesOf([v], f) == if f == 3 then [v] else [] {
      assert [v][..0] == [];
    }
    assert GroupAll(d, [v], 1) == d;
    assert GroupAll(d, [v], 2) == d;
    assert GroupAll(d, [v], 3) == d;
    assert GroupAll(d, [v], 4) == GroupFamily(d, 3, [v]);
    assert GroupAll(d, [v], 5) == GroupFamily(d, 3, [v]);
  }

  lemma CopyOfTabbed()
    ensures Copies([TABBED]) == [TABBED]
  {
    assert IsTidy(TABBED);
    TidyIsCopied([TABBED]);
  }

  lemma OwnersOfTabbed()
    ensures OwnersOf([TABBED]) == map["x" := 0, "q\ta" := 0]
  {
    NameOfName("x");
    var tab := "q\ta";
    assert Lower(tab) == tab;
    assert tab != "x";
    assert OwnNames([TABBED], 0) == map[];
    assert OwnNames([TABBED], 1) == map["x" := 0];
    var names := OwnNames([TABBED], 1);
    assert OwnAliases(names, [tab], 0, 0) == names;
    assert OwnAliases(names, [tab], 1, 0) == names[tab := 0];
    assert OwnAll([TABBED], 1) == OwnAliases(OwnAll([TABBED], 0), [tab], 1, 0);
  }

  lemma PendingForTab(owners: map<string, nat>)
    requires "q a" !in owners
    ensures Pending(["q a"], 1, owners) == ["q a"]
  {
    ValueIsUsual();
    TabIsRead();
    TrimOfTrimmed("q a");
    assert Pending(["q a"], 0, owners) == [];
    assert IsPending("q a", owners, []);
  }

  /** The proposal gives the value to a new environment, though the check reads it as an alias of the first one. */
  lemma ProposedForTab()
    ensures var es := Proposal(DRAFT, ["q a"]).environments;
      |es| == 2 && es[0] == TABBED && es[1].aliases == ["q a"]
  {
    var d := Start(DRAFT);
    CopyOfTabbed();
    OwnersOfTabbed();
    assert "q a"[1] != "q\ta"[1];
    PendingForTab(d.owners);
    ValueIsUsual();
    OnlyTests(d, "q a");
    GroupedInNew(d);
  }

  lemma GroupedInNew(d: Draft)
    requires Fits(d) && |d.environments| == 1 && "test" !in d.owners
    ensures var es := GroupFamily(d, 3, ["q a"]).environments;
      |es| == 2 && es[0] == d.environments[0] && es[1].aliases == ["q a"]
  {
    var ready := WithTarget(d, FAMILIES[3]);
    assert ready.owners["test"] == 1;
    assert |Lower("q a")| == 3 && |Lower("test")| == 4;
    assert GroupEach(ready, 1, ["q a"], 0) == ready;
    assert GroupEach(ready, 1, ["q a"], 1) == GroupValue(ready, 1, "q a");
    assert [] + ["q a"] == ["q a"];
  }

  lemma BothGroupIt(e: Environment)
    requires e.aliases == ["q a"]
    ensures !AreSeparate(TABBED, e)
  {
    TabbedIsFine();
    PlainIsGrouped(e);
  }

  lemma PlainIsGrouped(e: Environment)
    requires e.aliases == ["q a"]
    ensures Groups(ReadSource(e), "q a")
  {
    TabIsRead();
    TextOfText("q a");
    assert ReadSource(e).values[0] == Value("q a", "q a");
  }

  /** The check accepts the draft and refuses what is proposed from it. */
  lemma ProposalWithTabIsRefused()
    ensures CheckSettings(DRAFT).Accepted? && !CheckSettings(Proposal(DRAFT, ["q a"])).Accepted?
  {
    var p := Proposal(DRAFT, ["q a"]);
    DraftIsAccepted();
    ProposedForTab();
    BothGroupIt(p.environments[1]);
    AcceptedExactlyWhen(p);
  }
}
