/** Substring assertions of a search filter: parts in order, without overlap, case ignored. */
module SearchFilter {
  import opened Wrappers
  import opened Strings

  /** `part` stands in `v` at position k. */
  predicate PartAt(v: string, part: string, k: nat) {
    k + |part| <= |v| && v[k..k + |part|] == part
  }

  predicate EndsWith(v: string, part: string) {
    |part| <= |v| && v[|v| - |part|..] == part
  }

  /** `v` can be cut into a gap and a part, once for each part, then a gap and the final part (or only a gap). */
  ghost predicate CanBeCut(v: string, parts: seq<string>, final: Option<string>) {
    if parts == [] then final.Some? ==> EndsWith(v, final.value)
    else exists k: nat :: PartAt(v, parts[0], k) && CanBeCut(v[k + |parts[0]|..], parts[1..], final)
  }

  function Folded(parts: seq<string>): seq<string> {
    seq(|parts|, i requires 0 <= i < |parts| => Lower(parts[i]))
  }

  function FoldedOption(part: Option<string>): Option<string> {
    if part.Some? then Some(Lower(part.value)) else None
  }

  /** The value matches: case folded, it begins with the initial part and the rest can be cut. */
  ghost predicate Matches(value: string, initial: Option<string>, any_: seq<string>, final: Option<string>) {
    var v := Lower(value);
    var from := if initial.Some? then |initial.value| else 0;
    && (initial.Some? ==> PartAt(v, Lower(initial.value), 0))
    && CanBeCut(v[from..], Folded(any_), FoldedOption(final))
  }

  /** Parts with gaps before and between them and at the end. */
  function Woven(gaps: seq<string>, parts: seq<string>): string
    requires |gaps| == |parts| + 1
  {
    if parts == [] then gaps[0] else gaps[0] + parts[0] + Woven(gaps[1..], parts[1..])
  }

  ghost predicate IsWoven(v: string, gaps: seq<string>, parts: seq<string>, final: string) {
    |gaps| == |parts| + 1 && v == Woven(gaps, parts) + final
  }

  function TextOf(part: Option<string>): string {
    if part.Some? then Lower(part.value) else ""
  }

  lemma {:induction false} CutIsWoven(v: string, parts: seq<string>, final: Option<string>) returns (gaps: seq<string>)
    requires CanBeCut(v, parts, final)
    ensures IsWoven(v, gaps, parts, if final.Some? then final.value else "")
  {
    if parts == [] {
      gaps := [if final.Some? then v[..|v| - |final.value|] else v];
    } else {
      var k: nat :| PartAt(v, parts[0], k) && CanBeCut(v[k + |parts[0]|..], parts[1..], final);
      var rest := CutIsWoven(v[k + |parts[0]|..], parts[1..], final);
      gaps := [v[..k]] + rest;
      OneMoreWoven(v, k, rest, parts, if final.Some? then final.value else "");
    }
  }

  lemma OneMoreWoven(v: string, k: nat, rest: seq<string>, parts: seq<string>, final: string)
    requires parts != [] && PartAt(v, parts[0], k)
    requires IsWoven(v[k + |parts[0]|..], rest, parts[1..], final)
    ensures IsWoven(v, [v[..k]] + rest, parts, final)
  {
    var gaps := [v[..k]] + rest;
    assert gaps[1..] == rest;
    assert v == v[..k] + parts[0] + v[k + |parts[0]|..];
    assert v == v[..k] + parts[0] + Woven(rest, parts[1..]) + final;
  }

  lemma {:induction false} WovenCanBeCut(v: string, gaps: seq<string>, parts: seq<string>, final: Option<string>)
    requires IsWoven(v, gaps, parts, if final.Some? then final.value else "")
    ensures CanBeCut(v, parts, final)
  {
    var last := if final.Some? then final.value else "";
    if parts == [] {
      assert v[|v| - |last|..] == last;
    } else {
      var rest := Woven(gaps[1..], parts[1..]) + last;
      assert v == gaps[0] + parts[0] + rest;
      assert v[|gaps[0]| + |parts[0]|..] == rest;
      WovenCanBeCut(rest, gaps[1..], parts[1..], final);
      assert PartAt(v, parts[0], |gaps[0]|);
    }
  }

  /** A value matches exactly when, case folded, it is its parts put end to end in order, with any text between them. */
  lemma MatchesExactlyWhen(value: string, initial: Option<string>, any_: seq<string>, final: Option<string>)
    ensures Matches(value, initial, any_, final) <==>
      exists gaps, rest :: Lower(value) == TextOf(initial) + rest && IsWoven(rest, gaps, Folded(any_), TextOf(final))
  {
    var v, from := Lower(value), |TextOf(initial)|;
    if Matches(value, initial, any_, final) {
      var gaps := CutIsWoven(v[from..], Folded(any_), FoldedOption(final));
      assert v == TextOf(initial) + v[from..];
      assert IsWoven(v[from..], gaps, Folded(any_), TextOf(final));
    }
    if gaps, rest :| v == TextOf(initial) + rest && IsWoven(rest, gaps, Folded(any_), TextOf(final)) {
      assert v[from..] == rest;
      WovenCanBeCut(rest, gaps, Folded(any_), FoldedOption(final));
    }
  }

  /** More text in front only widens the first gap. */
  lemma {:induction false} WiderGap(v: string, k: nat, parts: seq<string>, final: Option<string>)
    requires k <= |v| && CanBeCut(v[k..], parts, final)
    ensures CanBeCut(v, parts, final)
  {
    if parts == [] {
      if final.Some? {
        assert v[k..][|v| - k - |final.value|..] == v[|v| - |final.value|..];
      }
    } else {
      var part := parts[0];
      var j: nat :| PartAt(v[k..], part, j) && CanBeCut(v[k..][j + |part|..], parts[1..], final);
      assert v[k..][j..j + |part|] == v[k + j..k + j + |part|];
      assert v[k..][j + |part|..] == v[k + j + |part|..];
      assert PartAt(v, part, k + j);
    }
  }

  /** Taking the leftmost place of the first part loses nothing. */
  lemma LeftmostIsEnough(v: string, f: nat, parts: seq<string>, final: Option<string>)
    requires parts != [] && PartAt(v, parts[0], f)
    requires forall k: nat :: k < f ==> !PartAt(v, parts[0], k)
    ensures CanBeCut(v, parts, final) <==> CanBeCut(v[f + |parts[0]|..], parts[1..], final)
  {
    if CanBeCut(v, parts, final) {
      var n := |parts[0]|;
      var k: nat :| PartAt(v, parts[0], k) && CanBeCut(v[k + n..], parts[1..], final);
      assert v[f + n..][k - f..] == v[k + n..];
      WiderGap(v[f + n..], k - f, parts[1..], final);
    }
  }

  /** The first position from `from` on where the part stands, case ignored; -1 if there is none. */
  method IndexOfPart(value: string, part: string, from: nat) returns (found: int)
    requires from <= |value|
    ensures found >= 0 ==> from <= found && PartAt(Lower(value), Lower(part), found)
    ensures forall k: nat :: from <= k && (found < 0 || k < found) ==> !PartAt(Lower(value), Lower(part), k)
  {
    var at := from;
    while at + |part| <= |value|
      invariant from <= at
      invariant forall k: nat :: from <= k < at ==> !PartAt(Lower(value), Lower(part), k)
    {
      if Lower(value)[at..at + |part|] == Lower(part) { return at; }
      at := at + 1;
    }
    found := -1;
  }

  /** Greedy matching decides exactly whether the value matches. */
  method Substring(value: string, initial: Option<string>, any_: seq<string>, final: Option<string>)
      returns (matches: bool)
    ensures matches <==> Matches(value, initial, any_, final)
  {
    ghost var v, parts, last := Lower(value), Folded(any_), FoldedOption(final);
    var position := 0;
    if initial.Some? {
      if |initial.value| > |value| || Lower(value)[..|initial.value|] != Lower(initial.value) { return false; }
      position := |initial.value|;
    }
    ghost var from := position;
    assert parts[0..] == parts;
    for i := 0 to |any_|
      invariant from <= position <= |value|
      invariant CanBeCut(v[from..], parts, last) <==> CanBeCut(v[position..], parts[i..], last)
    {
      var found := IndexOfPart(value, any_[i], position);
      assert parts[i..][0] == parts[i] && parts[i..][1..] == parts[i + 1..];
      NextPart(v, position, parts[i..], last, found);
      if found < 0 { return false; }
      position := found + |any_[i]|;
    }
    assert parts[|any_|..] == [];
    if final.None? { return true; }
    matches := |value| - position >= |final.value| && Lower(value)[|value| - |final.value|..] == Lower(final.value);
    assert |value| - position >= |final.value|
           ==> v[position..][|v| - position - |final.value|..] == v[|v| - |final.value|..];
  }

  lemma PlaceFrom(v: string, from: nat, part: string, j: nat)
    requires from <= |v|
    ensures PartAt(v[from..], part, j) <==> PartAt(v, part, from + j)
  {
    if from + j + |part| <= |v| {
      assert v[from..][j..j + |part|] == v[from + j..from + j + |part|];
    }
  }

  /** The step of the loop: go on after the leftmost place, or give up when there is none. */
  lemma NextPart(v: string, position: nat, parts: seq<string>, final: Option<string>, found: int)
    requires position <= |v| && parts != []
    requires found >= 0 ==> position <= found && PartAt(v, parts[0], found)
    requires forall k: nat :: position <= k && (found < 0 || k < found) ==> !PartAt(v, parts[0], k)
    ensures found < 0 ==> !CanBeCut(v[position..], parts, final)
    ensures found >= 0
            ==> (CanBeCut(v[position..], parts, final) <==> CanBeCut(v[found + |parts[0]|..], parts[1..], final))
  {
    forall j: nat | found < 0 || j < found - position ensures !PartAt(v[position..], parts[0], j) {
      PlaceFrom(v, position, parts[0], j);
      assert position <= position + j;
    }
    if found >= 0 {
      PlaceFrom(v, position, parts[0], found - position);
      LeftmostIsEnough(v[position..], found - position, parts, final);
      assert v[position..][found - position + |parts[0]|..] == v[found + |parts[0]|..];
    }
  }
}
