/** Saving a dashboard by someone who does not see all its panels: reading and writing form a lens. */
module DashboardAccess {

  datatype Panel = Panel(id: string, content: string)

  /** Which panels the person sees: their sections and services. */
  type Sight = Panel -> bool

  function Visible(sees: Sight, panels: seq<Panel>): seq<Panel> {
    if panels == [] then []
    else if sees(panels[0]) then [panels[0]] + Visible(sees, panels[1..])
    else Visible(sees, panels[1..])
  }

  function HiddenIds(sees: Sight, panels: seq<Panel>): set<string> {
    set p | p in panels && !sees(p) :: p.id
  }

  /** The panels whose identifier is not that of a hidden one: the person's own. */
  function Own(hidden: set<string>, panels: seq<Panel>): seq<Panel> {
    if panels == [] then []
    else if panels[0].id in hidden then Own(hidden, panels[1..])
    else [panels[0]] + Own(hidden, panels[1..])
  }

  /** Hidden panels keep their place, the others' places take `mine` in order, the rest of `mine` comes last. */
  function Fill(existing: seq<Panel>, hidden: set<string>, mine: seq<Panel>): seq<Panel> {
    if existing == [] then mine
    else if existing[0].id in hidden then [existing[0]] + Fill(existing[1..], hidden, mine)
    else if mine == [] then Fill(existing[1..], hidden, [])
    else [mine[0]] + Fill(existing[1..], hidden, mine[1..])
  }

  function Merged(sees: Sight, existing: seq<Panel>, submitted: seq<Panel>): seq<Panel> {
    var hidden := HiddenIds(sees, existing);
    Fill(existing, hidden, Own(hidden, submitted))
  }

  /** View: a copy without the panels the person does not see, and how many those are. */
  method View(sees: Sight, panels: seq<Panel>) returns (shown: seq<Panel>, hiddenCount: nat)
    ensures shown == Visible(sees, panels) && hiddenCount == |panels| - |shown|
  {
    shown, hiddenCount := [], 0;
    for i := 0 to |panels|
      invariant shown + Visible(sees, panels[i..]) == Visible(sees, panels)
      invariant hiddenCount == i - |shown|
    {
      assert panels[i..][0] == panels[i] && panels[i..][1..] == panels[i + 1..];
      if sees(panels[i]) {
        shown := shown + [panels[i]];
      } else {
        hiddenCount := hiddenCount + 1;
      }
    }
    assert panels[|panels|..] == [];
  }

  lemma FillNext(existing: seq<Panel>, hidden: set<string>, mine: seq<Panel>, i: nat)
    requires i < |existing|
    ensures Fill(existing[i..], hidden, mine) ==
      if existing[i].id in hidden then [existing[i]] + Fill(existing[i + 1..], hidden, mine)
      else if mine == [] then Fill(existing[i + 1..], hidden, [])
      else [mine[0]] + Fill(existing[i + 1..], hidden, mine[1..])
  {
    assert existing[i..][1..] == existing[i + 1..];
  }

  lemma FillEnds(existing: seq<Panel>, hidden: set<string>)
    ensures existing[0..] == existing
    ensures forall mine :: Fill(existing[|existing|..], hidden, mine) == mine
  {
  }

  method Merge(admin: bool, sees: Sight, existing: seq<Panel>, submitted: seq<Panel>) returns (result: seq<Panel>)
    ensures result == if admin then submitted else Merged(sees, existing, submitted)
  {
    if admin { return submitted; }
    var hidden := HiddenIds(sees, existing);
    var mine := OwnOf(hidden, submitted);
    ghost var queued := mine;
    result := [];
    FillEnds(existing, hidden);
    hide Fill;
    for i := 0 to |existing|
      invariant result + Fill(existing[i..], hidden, mine) == Fill(existing, hidden, queued)
    {
      var p := existing[i];
      FillNext(existing, hidden, mine, i);
      if p.id in hidden {
        result := result + [p];
      } else if |mine| > 0 {
        result := result + [mine[0]];
        mine := mine[1..];
      }
    }
    result := result + mine;
  }

  method OwnOf(hidden: set<string>, panels: seq<Panel>) returns (own: seq<Panel>)
    ensures own == Own(hidden, panels)
  {
    own := [];
    for i := 0 to |panels|
      invariant own + Own(hidden, panels[i..]) == Own(hidden, panels)
    {
      assert panels[i..][0] == panels[i] && panels[i..][1..] == panels[i + 1..];
      if panels[i].id !in hidden {
        own := own + [panels[i]];
      }
    }
    assert panels[|panels|..] == [];
  }

  // ------------------------------------------------------------------ laws

  lemma {:induction false} OwnIsOwn(hidden: set<string>, panels: seq<Panel>)
    ensures forall p :: p in Own(hidden, panels) ==> p.id !in hidden && p in panels
    ensures Own(hidden, Own(hidden, panels)) == Own(hidden, panels)
  {
    if panels != [] {
      OwnIsOwn(hidden, panels[1..]);
      var own := Own(hidden, panels[1..]);
      assert ([panels[0]] + own)[1..] == own;
    }
  }

  lemma {:induction false} OwnOfVisible(sees: Sight, hidden: set<string>, panels: seq<Panel>)
    requires forall p :: p in panels && !sees(p) ==> p.id in hidden
    ensures Own(hidden, Visible(sees, panels)) == Own(hidden, panels)
  {
    if panels != [] {
      OwnOfVisible(sees, hidden, panels[1..]);
      if sees(panels[0]) {
        assert Visible(sees, panels)[1..] == Visible(sees, panels[1..]);
      }
    }
  }

  lemma {:induction false} VisibleOfMore(sees: Sight, a: seq<Panel>, b: seq<Panel>)
    ensures Visible(sees, a + b) == Visible(sees, a) + Visible(sees, b)
  {
    if a == [] {
      assert a + b == b;
    } else {
      VisibleOfMore(sees, a[1..], b);
      assert (a + b)[1..] == a[1..] + b && (a + b)[0] == a[0];
    }
  }

  lemma {:induction false} OwnOfMore(hidden: set<string>, a: seq<Panel>, b: seq<Panel>)
    ensures Own(hidden, a + b) == Own(hidden, a) + Own(hidden, b)
  {
    if a == [] {
      assert a + b == b;
    } else {
      OwnOfMore(hidden, a[1..], b);
      assert (a + b)[1..] == a[1..] + b && (a + b)[0] == a[0];
    }
  }

  /** A panel among others is shown exactly when it is seen, and the person's own exactly when it is not hidden. */
  lemma PanelIsParted(sees: Sight, hidden: set<string>, a: seq<Panel>, p: Panel, b: seq<Panel>)
    ensures Visible(sees, a + [p] + b) == Visible(sees, a) + (if sees(p) then [p] else []) + Visible(sees, b)
    ensures Own(hidden, a + [p] + b) == Own(hidden, a) + (if p.id in hidden then [] else [p]) + Own(hidden, b)
  {
    OnePanelIsParted(sees, hidden, p);
    hide Visible, Own;
    VisibleOfMore(sees, a + [p], b);
    VisibleOfMore(sees, a, [p]);
    OwnOfMore(hidden, a + [p], b);
    OwnOfMore(hidden, a, [p]);
  }

  lemma OnePanelIsParted(sees: Sight, hidden: set<string>, p: Panel)
    ensures Visible(sees, [p]) == (if sees(p) then [p] else [])
    ensures Own(hidden, [p]) == (if p.id in hidden then [] else [p])
  {
    assert [p][1..] == [];
  }

  lemma {:induction false} FillWithOwn(existing: seq<Panel>, hidden: set<string>)
    ensures Fill(existing, hidden, Own(hidden, existing)) == existing
  {
    if existing != [] {
      FillWithOwn(existing[1..], hidden);
      assert existing == [existing[0]] + existing[1..];
      if existing[0].id !in hidden {
        assert Own(hidden, existing)[1..] == Own(hidden, existing[1..]);
      }
    }
  }

  /** Saving what one was shown, unchanged, changes nothing. */
  lemma SavingTheViewChangesNothing(sees: Sight, existing: seq<Panel>)
    ensures Merged(sees, existing, Visible(sees, existing)) == existing
  {
    OwnOfVisible(sees, HiddenIds(sees, existing), existing);
    FillWithOwn(existing, HiddenIds(sees, existing));
  }

  lemma OwnOfFirst(hidden: set<string>, p: Panel, rest: seq<Panel>)
    ensures Own(hidden, [p] + rest) == (if p.id in hidden then [] else [p]) + Own(hidden, rest)
  {
    assert ([p] + rest)[1..] == rest;
  }

  lemma {:induction false} OwnOfFill(existing: seq<Panel>, hidden: set<string>, mine: seq<Panel>)
    requires forall p :: p in mine ==> p.id !in hidden
    ensures Own(hidden, Fill(existing, hidden, mine)) == mine
  {
    hide Own;
    if existing == [] {
      OwnAll(hidden, mine);
    } else if existing[0].id in hidden {
      OwnOfFill(existing[1..], hidden, mine);
      OwnOfFirst(hidden, existing[0], Fill(existing[1..], hidden, mine));
    } else if mine == [] {
      OwnOfFill(existing[1..], hidden, []);
    } else {
      OwnOfFill(existing[1..], hidden, mine[1..]);
      OwnOfFirst(hidden, mine[0], Fill(existing[1..], hidden, mine[1..]));
      assert mine[0] in mine && mine == [mine[0]] + mine[1..];
    }
  }

  lemma {:induction false} OwnAll(hidden: set<string>, mine: seq<Panel>)
    requires forall p :: p in mine ==> p.id !in hidden
    ensures Own(hidden, mine) == mine
  {
    if mine != [] {
      assert mine[0] in mine;
      OwnAll(hidden, mine[1..]);
    }
  }

  /** What is saved is what was submitted: the result without the hidden identifiers
    is the accepted submission, in order. */
  lemma SubmissionIsSaved(sees: Sight, existing: seq<Panel>, submitted: seq<Panel>)
    ensures var hidden := HiddenIds(sees, existing);
            Own(hidden, Merged(sees, existing, submitted)) == Own(hidden, submitted)
  {
    var hidden := HiddenIds(sees, existing);
    OwnIsOwn(hidden, submitted);
    OwnOfFill(existing, hidden, Own(hidden, submitted));
  }

  /** The places of one's own among the first i panels. */
  function Slots(existing: seq<Panel>, hidden: set<string>, i: nat): nat
    requires i <= |existing|
  {
    if i == 0 then 0 else Slots(existing[1..], hidden, i - 1) + if existing[0].id in hidden then 0 else 1
  }

  lemma SlotsBound(existing: seq<Panel>, hidden: set<string>, i: nat)
    requires i <= |existing|
    ensures Slots(existing, hidden, i) <= i
  {
  }

  function Min(a: nat, b: nat): nat {
    if a < b then a else b
  }

  /** A hidden panel survives, after the hidden ones before it and as many own panels as fit before it. */
  lemma {:induction false} HiddenPanelsKeepTheirPlace(existing: seq<Panel>, hidden: set<string>, mine: seq<Panel>,
      i: nat)
    requires i < |existing| && existing[i].id in hidden
    ensures var at := i - Slots(existing, hidden, i) + Min(Slots(existing, hidden, i), |mine|);
            0 <= at < |Fill(existing, hidden, mine)| && Fill(existing, hidden, mine)[at] == existing[i]
  {
    SlotsBound(existing, hidden, i);
    if i > 0 {
      SlotsBound(existing[1..], hidden, i - 1);
      if existing[0].id in hidden || mine == [] {
        HiddenPanelsKeepTheirPlace(existing[1..], hidden, mine, i - 1);
      } else {
        HiddenPanelsKeepTheirPlace(existing[1..], hidden, mine[1..], i - 1);
      }
    }
  }

  function Hidden(hidden: set<string>, panels: seq<Panel>): seq<Panel> {
    if panels == [] then []
    else if panels[0].id in hidden then [panels[0]] + Hidden(hidden, panels[1..])
    else Hidden(hidden, panels[1..])
  }

  /** No hidden panel is lost, changed or moved past another. */
  lemma {:induction false} HiddenPanelsSurvive(existing: seq<Panel>, hidden: set<string>, mine: seq<Panel>)
    requires forall p :: p in mine ==> p.id !in hidden
    ensures Hidden(hidden, Fill(existing, hidden, mine)) == Hidden(hidden, existing)
  {
    if existing == [] {
      NoneHidden(hidden, mine);
    } else if existing[0].id in hidden {
      HiddenPanelsSurvive(existing[1..], hidden, mine);
      assert Fill(existing, hidden, mine)[1..] == Fill(existing[1..], hidden, mine);
    } else if mine == [] {
      HiddenPanelsSurvive(existing[1..], hidden, []);
    } else {
      HiddenPanelsSurvive(existing[1..], hidden, mine[1..]);
      assert Fill(existing, hidden, mine)[1..] == Fill(existing[1..], hidden, mine[1..]);
      assert mine[0] in mine;
    }
  }

  lemma {:induction false} NoneHidden(hidden: set<string>, mine: seq<Panel>)
    requires forall p :: p in mine ==> p.id !in hidden
    ensures Hidden(hidden, mine) == []
  {
    if mine != [] {
      assert mine[0] in mine;
      NoneHidden(hidden, mine[1..]);
    }
  }

  // ------------------------------------------------------------------ two saves in a row

  /** How many of one's own places come before the last hidden panel. */
  function LeadingSlots(existing: seq<Panel>, hidden: set<string>): nat {
    if existing == [] then 0
    else if existing[0].id in hidden then LeadingSlots(existing[1..], hidden)
    else if exists p :: p in existing[1..] && p.id in hidden then 1 + LeadingSlots(existing[1..], hidden)
    else 0
  }

  lemma {:induction false} FillTwice(existing: seq<Panel>, hidden: set<string>, first: seq<Panel>, second: seq<Panel>)
    requires forall p :: p in first ==> p.id !in hidden
    requires |first| >= LeadingSlots(existing, hidden)
    ensures Fill(Fill(existing, hidden, first), hidden, second) == Fill(existing, hidden, second)
    decreases |existing|
  {
    if existing == [] {
      FillOwnPlaces(first, hidden, second);
    } else if existing[0].id in hidden {
      FillTwice(existing[1..], hidden, first, second);
      assert Fill(existing, hidden, first)[1..] == Fill(existing[1..], hidden, first);
    } else if exists p :: p in existing[1..] && p.id in hidden {
      assert first[0] in first;
      assert Fill(existing, hidden, first)[1..] == Fill(existing[1..], hidden, first[1..]);
      FillTwice(existing[1..], hidden, first[1..], if second == [] then [] else second[1..]);
    } else {
      assert existing == [existing[0]] + existing[1..];
      FillOwnPlaces(existing, hidden, first);
      FillOwnPlaces(first, hidden, second);
      FillOwnPlaces(existing, hidden, second);
    }
  }

  lemma {:induction false} FillOwnPlaces(places: seq<Panel>, hidden: set<string>, mine: seq<Panel>)
    requires forall p :: p in places ==> p.id !in hidden
    ensures Fill(places, hidden, mine) == mine
  {
    if places != [] {
      assert places[0] in places;
      FillOwnPlaces(places[1..], hidden, if mine == [] then [] else mine[1..]);
    }
  }

  lemma {:induction false} LastHidden(existing: seq<Panel>, hidden: set<string>) returns (i: nat)
    requires LeadingSlots(existing, hidden) > 0
    ensures i < |existing| && existing[i].id in hidden && Slots(existing, hidden, i) == LeadingSlots(existing, hidden)
  {
    if existing[0].id in hidden {
      i := LastHidden(existing[1..], hidden);
      i := i + 1;
    } else if LeadingSlots(existing[1..], hidden) > 0 {
      i := LastHidden(existing[1..], hidden);
      i := i + 1;
    } else {
      i := FirstHidden(existing[1..], hidden);
      i := i + 1;
    }
  }

  lemma {:induction false} FirstHidden(existing: seq<Panel>, hidden: set<string>) returns (i: nat)
    requires LeadingSlots(existing, hidden) == 0 && exists p :: p in existing && p.id in hidden
    ensures i < |existing| && existing[i].id in hidden && Slots(existing, hidden, i) == 0
  {
    assert existing == [existing[0]] + existing[1..];
    assert existing[0].id in hidden;
    i := 0;
  }

  lemma {:induction false} SlotsNext(panels: seq<Panel>, hidden: set<string>, k: nat)
    requires k < |panels|
    ensures Slots(panels, hidden, k + 1) == Slots(panels, hidden, k) + if panels[k].id in hidden then 0 else 1
  {
    if k > 0 {
      SlotsNext(panels[1..], hidden, k - 1);
    }
  }

  /** Position `at` of the list has n own places before it. */
  predicate HasBefore(panels: seq<Panel>, hidden: set<string>, at: int, n: int) {
    0 <= at < |panels| && Slots(panels, hidden, at) == n
  }

  lemma OneMoreBefore(first: Panel, rest: seq<Panel>, hidden: set<string>, at: int, n: int)
    requires HasBefore(rest, hidden, at, n)
    ensures HasBefore([first] + rest, hidden, at + 1, if first.id in hidden then n else n + 1)
  {
    assert ([first] + rest)[1..] == rest;
  }

  /** Where the hidden panel at index i lands. */
  function Place(existing: seq<Panel>, hidden: set<string>, mine: seq<Panel>, i: nat): int
    requires i <= |existing|
  {
    i - Slots(existing, hidden, i) + Min(Slots(existing, hidden, i), |mine|)
  }

  lemma {:induction false} SlotsOfFill(existing: seq<Panel>, hidden: set<string>, mine: seq<Panel>, i: nat)
    requires i < |existing| && existing[i].id in hidden
    requires forall p :: p in mine ==> p.id !in hidden
    ensures HasBefore(Fill(existing, hidden, mine), hidden, Place(existing, hidden, mine, i),
                      Min(Slots(existing, hidden, i), |mine|))
  {
    SlotsBound(existing, hidden, i);
    if i > 0 {
      var first, rest := existing[0], existing[1..];
      SlotsBound(rest, hidden, i - 1);
      if first.id in hidden {
        SlotsOfFill(rest, hidden, mine, i - 1);
        OneMoreBefore(first, Fill(rest, hidden, mine), hidden, Place(rest, hidden, mine, i - 1),
          Min(Slots(rest, hidden, i - 1), |mine|));
      } else if mine == [] {
        SlotsOfFill(rest, hidden, [], i - 1);
      } else {
        assert mine[0] in mine;
        SlotsOfFill(rest, hidden, mine[1..], i - 1);
        OneMoreBefore(mine[0], Fill(rest, hidden, mine[1..]), hidden, Place(rest, hidden, mine[1..], i - 1),
          Min(Slots(rest, hidden, i - 1), |mine| - 1));
      }
    } else {
      HiddenPanelsKeepTheirPlace(existing, hidden, mine, i);
    }
  }

  /** A hidden panel with more own places before it than there are own panels lands right after these. */
  lemma ShortSave(existing: seq<Panel>, hidden: set<string>, first: seq<Panel>, i: nat) returns (j: nat)
    requires i < |existing| && existing[i].id in hidden && |first| < Slots(existing, hidden, i)
    requires forall p :: p in first ==> p.id !in hidden
    ensures j == i - Slots(existing, hidden, i) + |first|
    ensures HasBefore(Fill(existing, hidden, first), hidden, j, |first|)
    ensures Fill(existing, hidden, first)[j].id in hidden
  {
    hide Fill, Slots;
    SlotsBound(existing, hidden, i);
    HiddenPanelsKeepTheirPlace(existing, hidden, first, i);
    SlotsOfFill(existing, hidden, first, i);
    j := i - Slots(existing, hidden, i) + |first|;
  }

  lemma ShortSaveStays(once: seq<Panel>, hidden: set<string>, second: seq<Panel>, j: nat)
    requires j < |once| && once[j].id in hidden && Slots(once, hidden, j) < |second|
    requires forall p :: p in second ==> p.id !in hidden
    ensures HasBefore(Fill(once, hidden, second), hidden, j, Slots(once, hidden, j))
    ensures Slots(Fill(once, hidden, second), hidden, j + 1) == Slots(once, hidden, j)
  {
    hide Fill, Slots;
    HiddenPanelsKeepTheirPlace(once, hidden, second, j);
    SlotsOfFill(once, hidden, second, j);
    SlotsNext(Fill(once, hidden, second), hidden, j);
  }

  /** With too few own panels first, a second save of more of them lands differently. */
  lemma TooFewFirst(existing: seq<Panel>, hidden: set<string>, first: seq<Panel>, own: Panel)
    requires forall p :: p in first ==> p.id !in hidden
    requires own.id !in hidden && |first| < LeadingSlots(existing, hidden)
    ensures var second := seq(|first| + 1, _ => own);
            Fill(Fill(existing, hidden, first), hidden, second) != Fill(existing, hidden, second)
  {
    hide Fill, Slots;
    var second := seq(|first| + 1, _ => own);
    var i := LastHidden(existing, hidden);
    var j := ShortSave(existing, hidden, first, i);
    ShortSaveStays(Fill(existing, hidden, first), hidden, second, j);
    SlotsOfFill(existing, hidden, second, i);
  }

  lemma {:induction false} FillMembers(existing: seq<Panel>, hidden: set<string>, mine: seq<Panel>)
    ensures forall p :: p in Fill(existing, hidden, mine) ==> p in mine || (p in existing && p.id in hidden)
    ensures forall p :: p in existing && p.id in hidden ==> p in Fill(existing, hidden, mine)
  {
    if existing != [] {
      FillMembers(existing[1..], hidden, if existing[0].id in hidden || mine == [] then mine else mine[1..]);
      assert existing == [existing[0]] + existing[1..];
    }
  }

  lemma HiddenIdsStay(sees: Sight, existing: seq<Panel>, submitted: seq<Panel>)
    requires forall p :: p in Own(HiddenIds(sees, existing), submitted) ==> sees(p)
    ensures HiddenIds(sees, Merged(sees, existing, submitted)) == HiddenIds(sees, existing)
  {
    var hidden := HiddenIds(sees, existing);
    FillMembers(existing, hidden, Own(hidden, submitted));
  }

  lemma {:induction false} SomeOwnPlace(existing: seq<Panel>, hidden: set<string>) returns (own: Panel)
    requires LeadingSlots(existing, hidden) > 0
    ensures own.id !in hidden
  {
    if existing[0].id in hidden {
      own := SomeOwnPlace(existing[1..], hidden);
    } else {
      own := existing[0];
    }
  }

  ghost predicate LastSaveWins(sees: Sight, existing: seq<Panel>, first: seq<Panel>) {
    forall second :: Merged(sees, Merged(sees, existing, first), second) == Merged(sees, existing, second)
  }

  /**
   When the first save holds only visible panels, the second alone decides, whatever it is, exactly when the first
   filled every own place before the last hidden panel.
   */
  lemma LastSaveWinsExactlyWhen(sees: Sight, existing: seq<Panel>, first: seq<Panel>)
    requires forall p :: p in Own(HiddenIds(sees, existing), first) ==> sees(p)
    ensures var hidden := HiddenIds(sees, existing);
            LastSaveWins(sees, existing, first) <==> |Own(hidden, first)| >= LeadingSlots(existing, hidden)
  {
    var hidden := HiddenIds(sees, existing);
    var mine := Own(hidden, first);
    HiddenIdsStay(sees, existing, first);
    OwnIsOwn(hidden, first);
    if |mine| >= LeadingSlots(existing, hidden) {
      forall second ensures Merged(sees, Merged(sees, existing, first), second) == Merged(sees, existing, second) {
        FillTwice(existing, hidden, mine, Own(hidden, second));
      }
    } else {
      var own := SomeOwnPlace(existing, hidden);
      var second := seq(|mine| + 1, _ => own);
      OwnAll(hidden, second);
      TooFewFirst(existing, hidden, mine, own);
      assert Merged(sees, Merged(sees, existing, first), second) != Merged(sees, existing, second);
    }
  }
}
