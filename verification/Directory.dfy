/** The in-memory directory: entries by distinguished name, and nested groups through two inverse links. */
module Directory {
  import opened Wrappers
  import opened Strings
  import opened Closure

  // ------------------------------------------------------------------ distinguished names

  function NormalizeRdn(rdn: string): string {
    var equal := IndexOf(rdn, '=');
    if equal == |rdn| then Lower(Trim(rdn))
    else Lower(Trim(rdn[..equal])) + "=" + Lower(Trim(rdn[equal + 1..]))
  }

  function NormalizeAll(rdns: seq<string>): seq<string> {
    seq(|rdns|, i requires 0 <= i < |rdns| => NormalizeRdn(rdns[i]))
  }

  function Normalize(dn: string): string {
    Join(NormalizeAll(Split(dn, ',')), ",")
  }

  lemma {:induction false} IndexOfLower(s: string, c: char)
    requires forall d :: LowerChar(d) == c <==> d == c
    ensures IndexOf(Lower(s), c) == IndexOf(s, c)
  {
    if s != "" && s[0] != c {
      assert Lower(s)[1..] == Lower(s[1..]);
      IndexOfLower(s[1..], c);
    }
  }

  function LowerAll(parts: seq<string>): seq<string> {
    seq(|parts|, i requires 0 <= i < |parts| => Lower(parts[i]))
  }

  lemma LowerFirst(c: char, rest: seq<string>)
    requires rest != []
    ensures LowerAll([""] + rest) == [""] + LowerAll(rest)
    ensures LowerAll([[c] + rest[0]] + rest[1..]) == [[LowerChar(c)] + LowerAll(rest)[0]] + LowerAll(rest)[1..]
  {
    assert Lower([c] + rest[0]) == [LowerChar(c)] + Lower(rest[0]);
  }

  lemma {:induction false} SplitOfLower(s: string)
    ensures Split(Lower(s), ',') == LowerAll(Split(s, ','))
  {
    if s != "" {
      assert Lower(s)[1..] == Lower(s[1..]);
      SplitOfLower(s[1..]);
      LowerFirst(s[0], Split(s[1..], ','));
    }
  }

  /** Names that differ only in case are the same name. */
  lemma CaseDoesNotMatter(a: string, b: string)
    requires SameText(a, b)
    ensures Normalize(a) == Normalize(b)
  {
    NormalizeOfLower(a);
    NormalizeOfLower(b);
  }

  lemma NormalizeOfLower(s: string)
    ensures Normalize(Lower(s)) == Normalize(s)
  {
    SplitOfLower(s);
    forall i | 0 <= i < |Split(s, ',')|
      ensures NormalizeRdn(Split(Lower(s), ',')[i]) == NormalizeRdn(Split(s, ',')[i]) {
      NormalizeRdnOfLower(Split(s, ',')[i]);
    }
    assert NormalizeAll(Split(Lower(s), ',')) == NormalizeAll(Split(s, ','));
  }

  lemma NormalizeRdnOfLower(rdn: string)
    ensures NormalizeRdn(Lower(rdn)) == NormalizeRdn(rdn)
  {
    IndexOfLower(rdn, '=');
    var equal := IndexOf(rdn, '=');
    if equal == |rdn| {
      LowerTrimmed(rdn);
    } else {
      assert Lower(rdn)[..equal] == Lower(rdn[..equal]) && Lower(rdn)[equal + 1..] == Lower(rdn[equal + 1..]);
      LowerTrimmed(rdn[..equal]);
      LowerTrimmed(rdn[equal + 1..]);
    }
  }

  lemma LowerTrimmed(s: string)
    ensures Lower(Trim(Lower(s))) == Lower(Trim(s))
  {
    LowerTrim(s);
    LowerIdempotent(Trim(s));
  }

  /** How names are compared: any form that ignores case will do for the search. */
  type Form = string -> string

  ghost predicate IgnoresCase(form: Form) {
    forall a, b :: SameText(a, b) ==> form(a) == form(b)
  }

  lemma NormalizeIgnoresCase()
    ensures IgnoresCase(Normalize)
  {
    forall a, b | SameText(a, b) ensures Normalize(a) == Normalize(b) {
      CaseDoesNotMatter(a, b);
    }
  }

  // ------------------------------------------------------------------ which names are the same

  predicate SameTrimmed(a: string, b: string) {
    SameText(Trim(a), Trim(b))
  }

  /** The same attribute and the same value, case and white space around each of them aside. */
  predicate SameRdn(a: string, b: string) {
    var i, j := IndexOf(a, '='), IndexOf(b, '=');
    if '=' in a && '=' in b then SameTrimmed(a[..i], b[..j]) && SameTrimmed(a[i + 1..], b[j + 1..])
    else '=' !in a && '=' !in b && SameTrimmed(a, b)
  }

  lemma {:induction false} TrimStartHolds(s: string, c: char)
    requires c !in s
    ensures c !in TrimStart(s)
  {
    if s != "" && IsWhite(s[0]) {
      TrimStartHolds(s[1..], c);
    }
  }

  lemma {:induction false} TrimEndHolds(s: string, c: char)
    requires c !in s
    ensures c !in TrimEnd(s)
  {
    if s != "" && IsWhite(s[|s| - 1]) {
      TrimEndHolds(s[..|s| - 1], c);
    }
  }

  /** Trimming and small letters bring in no separator. */
  lemma NormalHolds(s: string, c: char)
    requires c !in s && c in ",="
    ensures c !in Lower(Trim(s))
  {
    TrimStartHolds(s, c);
    TrimEndHolds(TrimStart(s), c);
    var t := Trim(s);
    forall i | 0 <= i < |t| ensures Lower(t)[i] != c {
      assert t[i] in t;
    }
  }

  lemma IndexIs(s: string, c: char)
    ensures IndexOf(s, c) < |s| <==> c in s
  {
    if IndexOf(s, c) == |s| {
      assert s[..|s|] == s;
    }
  }

  lemma SameParts(a: string, x: string, b: string, y: string)
    requires '=' !in a && '=' !in b
    ensures a + "=" + x == b + "=" + y <==> a == b && x == y
  {
    var s, t := a + "=" + x, b + "=" + y;
    if s == t {
      assert s[|a|] == '=' && t[|b|] == '=';
      assert a == s[..|a|] == b && x == s[|a| + 1..] == y;
    }
  }

  lemma NormalRdn(rdn: string)
    requires ',' !in rdn
    ensures ',' !in NormalizeRdn(rdn) && ('=' in NormalizeRdn(rdn) <==> '=' in rdn)
  {
    var equal := IndexOf(rdn, '=');
    IndexIs(rdn, '=');
    if equal == |rdn| {
      NormalHolds(rdn, ',');
      NormalHolds(rdn, '=');
    } else {
      NormalHolds(rdn[..equal], ',');
      NormalHolds(rdn[equal + 1..], ',');
    }
  }

  lemma SameRdnExactlyWhen(a: string, b: string)
    requires ',' !in a && ',' !in b
    ensures NormalizeRdn(a) == NormalizeRdn(b) <==> SameRdn(a, b)
  {
    NormalRdn(a);
    NormalRdn(b);
    IndexIs(a, '=');
    IndexIs(b, '=');
    var i, j := IndexOf(a, '='), IndexOf(b, '=');
    if '=' in a && '=' in b {
      NormalHolds(a[..i], '=');
      NormalHolds(b[..j], '=');
      SameParts(Lower(Trim(a[..i])), Lower(Trim(a[i + 1..])), Lower(Trim(b[..j])), Lower(Trim(b[j + 1..])));
    }
  }

  lemma NormalParts(dn: string)
    ensures Split(Normalize(dn), ',') == NormalizeAll(Split(dn, ','))
    ensures forall i :: 0 <= i < |Split(dn, ',')| ==> ',' !in Split(dn, ',')[i]
  {
    var parts := Split(dn, ',');
    forall i | 0 <= i < |parts| ensures ',' !in parts[i] && ',' !in NormalizeRdn(parts[i]) {
      SplitPartsHaveNoSeparator(dn, ',', i);
      NormalRdn(parts[i]);
    }
    SplitOfJoin(NormalizeAll(parts), ',');
  }

  /**
   Two distinguished names are the same exactly when they have the same parts, in the same order, case and white space
   around the separators aside.
   */
  lemma SameNameExactlyWhen(a: string, b: string)
    ensures var x, y := Split(a, ','), Split(b, ',');
      Normalize(a) == Normalize(b) <==> |x| == |y| && forall i :: 0 <= i < |x| ==> SameRdn(x[i], y[i])
  {
    var x, y := Split(a, ','), Split(b, ',');
    NormalParts(a);
    NormalParts(b);
    hide SameRdn, NormalizeRdn;
    if |x| == |y| {
      forall i | 0 <= i < |x|
        ensures NormalizeAll(x)[i] == NormalizeAll(y)[i] <==> SameRdn(x[i], y[i])
      {
        SameRdnExactlyWhen(x[i], y[i]);
      }
      assert (forall i :: 0 <= i < |x| ==> NormalizeAll(x)[i] == NormalizeAll(y)[i]) <==>
        NormalizeAll(x) == NormalizeAll(y);
    }
    JoinOfSplit(Normalize(a), ',');
    JoinOfSplit(Normalize(b), ',');
  }

  // ------------------------------------------------------------------ links

  function KeysOf(form: Form, dns: seq<string>): set<string> {
    set dn | dn in dns :: form(dn)
  }

  predicate Holds(values: seq<string>, value: string) {
    exists v :: v in values && SameText(v, value)
  }

  function Appended(values: seq<string>, value: string): seq<string> {
    if Holds(values, value) then values else values + [value]
  }

  predicate AreDistinct(values: seq<string>) {
    forall i, j :: 0 <= i < j < |values| ==> !SameText(values[i], values[j])
  }

  /** A value is added at the end once, case ignored: the list has it then, and holds no two that are the same. */
  lemma AppendedOnce(values: seq<string>, value: string)
    ensures values <= Appended(values, value) && Holds(Appended(values, value), value)
    ensures AreDistinct(values) ==> AreDistinct(Appended(values, value))
    ensures forall v :: v in Appended(values, value) ==> v in values || v == value
  {
    if !Holds(values, value) {
      assert value in values + [value] && SameText(value, value);
      forall i | 0 <= i < |values| ensures !SameText(values[i], value) {
        assert values[i] in values;
      }
    }
  }

  lemma AppendedKeys(form: Form, values: seq<string>, value: string)
    requires IgnoresCase(form)
    ensures KeysOf(form, Appended(values, value)) == KeysOf(form, values) + {form(value)}
  {
    if Holds(values, value) {
      var v :| v in values && SameText(v, value);
    } else {
      var longer := values + [value];
      assert forall v :: v in longer <==> v in values || v == value;
      assert value in longer;
      forall k | k in KeysOf(form, values) ensures k in KeysOf(form, longer) {
        var v :| v in values && form(v) == k;
        assert v in longer;
      }
    }
  }

  /** Both questions about any two entries have the same answer. */
  ghost predicate AnswersAgree(member: Graph<string>, memberOf: Graph<string>) {
    forall entry, group :: entry in memberOf && group in member && entry in member && group in memberOf ==>
      (Connected(memberOf, memberOf[entry], group) <==> Connected(member, member[group], entry))
  }

  lemma InverseAgrees(member: Graph<string>, memberOf: Graph<string>)
    requires Inverse(member, memberOf)
    ensures AnswersAgree(member, memberOf)
  {
    forall entry, group | entry in memberOf && group in member && entry in member && group in memberOf
      ensures Connected(memberOf, memberOf[entry], group) <==> Connected(member, member[group], entry)
    {
      BothWaysAgree(member, memberOf, entry, group);
    }
  }

  function WithArc(g: Graph<string>, x: string, y: string): Graph<string> {
    if x in g then g[x := g[x] + {y}] else g
  }

  lemma MembershipKeepsInverse(member: Graph<string>, memberOf: Graph<string>, g: string, m: string)
    requires Inverse(member, memberOf) && g in member && m in member
    ensures Inverse(WithArc(member, g, m), WithArc(memberOf, m, g))
  {
    var member', memberOf' := WithArc(member, g, m), WithArc(memberOf, m, g);
    assert member'.Keys == member.Keys && memberOf'.Keys == memberOf.Keys;
    forall x, y | x in member' && y in memberOf' ensures Arc(member', x, y) <==> Arc(memberOf', y, x) {
      assert Arc(member, x, y) <==> Arc(memberOf, y, x);
    }
  }

  /** A link to a name that is no entry is no link between entries. */
  lemma HalfMembershipKeepsInverse(member: Graph<string>, memberOf: Graph<string>, g: string, m: string)
    requires Inverse(member, memberOf) && g in member && m !in member
    ensures Inverse(WithArc(member, g, m), memberOf)
  {
    var member' := WithArc(member, g, m);
    assert member'.Keys == member.Keys;
    forall x, y | x in member' && y in memberOf ensures Arc(member', x, y) <==> Arc(memberOf, y, x) {
      assert Arc(member, x, y) <==> Arc(memberOf, y, x);
    }
  }

  /** No other entry has a link to this name. */
  predicate IsUnknown(member: Graph<string>, memberOf: Graph<string>, key: string) {
    && (forall x :: x in member && x != key ==> key !in member[x])
    && (forall x :: x in memberOf && x != key ==> key !in memberOf[x])
  }

  lemma UnknownKeepsInverse(member: Graph<string>, memberOf: Graph<string>, key: string)
    requires Inverse(member, memberOf) && IsUnknown(member, memberOf, key)
    ensures Inverse(member[key := {}], memberOf[key := {}])
  {
    var member', memberOf' := member[key := {}], memberOf[key := {}];
    assert member'.Keys == member.Keys + {key} && memberOf'.Keys == memberOf.Keys + {key};
    forall x, y | x in member' && y in memberOf' ensures Arc(member', x, y) <==> Arc(memberOf', y, x) {
      assert x in member && y in memberOf ==> (Arc(member, x, y) <==> Arc(memberOf, y, x));
    }
  }

  lemma LinkedDisagrees(member: Graph<string>, memberOf: Graph<string>, x: string, key: string)
    requires member.Keys == memberOf.Keys && x in member && key in member
    requires (key in member[x] && memberOf[key] == {}) || (key in memberOf[x] && member[key] == {})
    ensures !AnswersAgree(member, memberOf)
  {
    PathBegins(member, member[x]);
    PathBegins(memberOf, memberOf[x]);
    if key in member[x] && memberOf[key] == {} {
      assert !Connected(memberOf, memberOf[key], x);
    } else {
      assert !Connected(member, member[key], x);
    }
  }

  /** After an entry is added, or replaced, all answers agree exactly when no other entry has a link to its name. */
  lemma AddedAgreesExactlyWhen(member: Graph<string>, memberOf: Graph<string>, key: string)
    requires Inverse(member, memberOf)
    ensures AnswersAgree(member[key := {}], memberOf[key := {}]) <==> IsUnknown(member, memberOf, key)
  {
    var member', memberOf' := member[key := {}], memberOf[key := {}];
    assert member'.Keys == member.Keys + {key} && memberOf'.Keys == memberOf.Keys + {key};
    if IsUnknown(member, memberOf, key) {
      UnknownKeepsInverse(member, memberOf, key);
      InverseAgrees(member', memberOf');
    } else if x :| x in member && x != key && key in member[x] {
      LinkedDisagrees(member', memberOf', x, key);
    } else {
      var x :| x in memberOf && x != key && key in memberOf[x];
      LinkedDisagrees(member', memberOf', x, key);
    }
  }

  // ------------------------------------------------------------------ what the directory holds, as values

  type Attributes = map<string, seq<string>>

  /** The attributes of every entry, by its normalised name. */
  type Table = map<string, Attributes>

  function ValuesOf(attributes: Attributes, attribute: string): seq<string> {
    if Lower(attribute) in attributes then attributes[Lower(attribute)] else []
  }

  function WithValue(attributes: Attributes, attribute: string, value: string): Attributes {
    attributes[Lower(attribute) := Appended(ValuesOf(attributes, attribute), value)]
  }

  /** One link attribute of all entries. */
  function Links(form: Form, table: Table, attribute: string): Graph<string> {
    map k | k in table :: KeysOf(form, ValuesOf(table[k], attribute))
  }

  lemma AttributesDiffer()
    ensures Lower("distinguishedName") != Lower("member")
    ensures Lower("distinguishedName") != Lower("memberOf")
    ensures Lower("member") != Lower("memberOf")
  {
    assert Lower("distinguishedName")[0] == 'd' && Lower("member")[0] == 'm' && Lower("memberOf")[0] == 'm';
    assert |Lower("member")| == 6 && |Lower("memberOf")| == 8;
  }

  lemma LinksOfOther(form: Form, table: Table, key: string, attribute: string, value: string, other: string)
    requires key in table && Lower(other) != Lower(attribute)
    ensures Links(form, table[key := WithValue(table[key], attribute, value)], other) == Links(form, table, other)
  {
    assert ValuesOf(WithValue(table[key], attribute, value), other) == ValuesOf(table[key], other);
  }

  lemma LinksOfValue(form: Form, table: Table, key: string, attribute: string, value: string)
    requires IgnoresCase(form) && key in table
    ensures Links(form, table[key := WithValue(table[key], attribute, value)], attribute)
         == WithArc(Links(form, table, attribute), key, form(value))
  {
    AppendedKeys(form, ValuesOf(table[key], attribute), value);
  }

  /** The table after both sides of a membership are written. */
  function WithMember(table: Table, g: string, m: string, groupDn: string, memberDn: string): Table
    requires g in table && m in table
  {
    var half := HalfMember(table, g, memberDn);
    half[m := WithValue(half[m], "memberOf", groupDn)]
  }

  /** The two link attributes of all entries are inverse relations. */
  ghost predicate IsInverse(form: Form, table: Table) {
    Inverse(Links(form, table, "member"), Links(form, table, "memberOf"))
  }

  lemma MemberKeepsInverse(form: Form, table: Table, groupDn: string, memberDn: string)
    requires IgnoresCase(form) && form(groupDn) in table && form(memberDn) in table && IsInverse(form, table)
    ensures IsInverse(form, WithMember(table, form(groupDn), form(memberDn), groupDn, memberDn))
  {
    var g, m := form(groupDn), form(memberDn);
    var half := table[g := WithValue(table[g], "member", memberDn)];
    AttributesDiffer();
    LinksOfValue(form, table, g, "member", memberDn);
    LinksOfOther(form, table, g, "member", memberDn, "memberOf");
    LinksOfValue(form, half, m, "memberOf", groupDn);
    LinksOfOther(form, half, m, "memberOf", groupDn, "member");
    MembershipKeepsInverse(Links(form, table, "member"), Links(form, table, "memberOf"), g, m);
  }

  /** The table after the group's side alone is written. */
  function HalfMember(table: Table, g: string, memberDn: string): Table
    requires g in table
  {
    table[g := WithValue(table[g], "member", memberDn)]
  }

  lemma HalfMemberKeepsInverse(form: Form, table: Table, groupDn: string, memberDn: string)
    requires IgnoresCase(form) && form(groupDn) in table && form(memberDn) !in table && IsInverse(form, table)
    ensures IsInverse(form, HalfMember(table, form(groupDn), memberDn))
  {
    var g := form(groupDn);
    AttributesDiffer();
    LinksOfValue(form, table, g, "member", memberDn);
    LinksOfOther(form, table, g, "member", memberDn, "memberOf");
    HalfMembershipKeepsInverse(Links(form, table, "member"), Links(form, table, "memberOf"), g, form(memberDn));
  }

  function NewAttributes(dn: string): Attributes {
    map[Lower("distinguishedName") := [dn]]
  }

  lemma LinksOfNew(form: Form, table: Table, key: string, dn: string)
    ensures Links(form, table[key := NewAttributes(dn)], "member") == Links(form, table, "member")[key := {}]
    ensures Links(form, table[key := NewAttributes(dn)], "memberOf") == Links(form, table, "memberOf")[key := {}]
  {
    AttributesDiffer();
    assert KeysOf(form, []) == {};
  }

  /**
   A membership of an unknown member fails after the group's side is written. When that name is added later,
   the two questions about the pair no longer agree.
   */
  lemma FailedMembershipCanBreakAgreement(form: Form, table: Table, groupDn: string, memberDn: string)
    requires IgnoresCase(form) && form(groupDn) in table && form(memberDn) !in table
    ensures var g, m := form(groupDn), form(memberDn);
            var table' := HalfMember(table, g, memberDn)[m := NewAttributes(memberDn)];
            var member, memberOf := Links(form, table', "member"), Links(form, table', "memberOf");
            Connected(member, member[g], m) && !Connected(memberOf, memberOf[m], g)
  {
    var g, m := form(groupDn), form(memberDn);
    var half := HalfMember(table, g, memberDn);
    LinksOfValue(form, table, g, "member", memberDn);
    LinksOfNew(form, half, m, memberDn);
    var table' := half[m := NewAttributes(memberDn)];
    var member, memberOf := Links(form, table', "member"), Links(form, table', "memberOf");
    PathBegins(member, member[g]);
    assert memberOf[m] == {};
  }

  // ------------------------------------------------------------------ any sequence of additions

  datatype Operation = Add(dn: string) | AddMember(groupDn: string, memberDn: string)

  /** What an operation makes of the directory; a membership that fails may have written the group's side. */
  function Applied(form: Form, table: Table, op: Operation): Table {
    match op
    case Add(dn) => table[form(dn) := NewAttributes(dn)]
    case AddMember(groupDn, memberDn) =>
      if form(groupDn) !in table then table
      else if form(memberDn) !in table then HalfMember(table, form(groupDn), memberDn)
      else WithMember(table, form(groupDn), form(memberDn), groupDn, memberDn)
  }

  function AllApplied(form: Form, ops: seq<Operation>): Table {
    if ops == [] then map[] else Applied(form, AllApplied(form, ops[..|ops| - 1]), ops[|ops| - 1])
  }

  /** Operations are applied in turn, from the empty directory. */
  lemma AppliedInTurn(form: Form, ops: seq<Operation>, op: Operation)
    ensures AllApplied(form, []) == map[]
    ensures AllApplied(form, ops + [op]) == Applied(form, AllApplied(form, ops), op)
  {
    assert (ops + [op])[..|ops|] == ops;
  }

  ghost predicate Agree(form: Form, table: Table) {
    AnswersAgree(Links(form, table, "member"), Links(form, table, "memberOf"))
  }

  /** The name of an entry to add: no other entry has a link to it. A membership may always be written. */
  predicate IsSafe(form: Form, table: Table, op: Operation) {
    op.Add? ==> IsUnknown(Links(form, table, "member"), Links(form, table, "memberOf"), form(op.dn))
  }

  lemma MembershipIsSafe(form: Form, table: Table, op: Operation)
    requires IgnoresCase(form) && IsInverse(form, table) && op.AddMember?
    ensures IsInverse(form, Applied(form, table, op))
  {
    if form(op.groupDn) in table {
      if form(op.memberDn) in table {
        MemberKeepsInverse(form, table, op.groupDn, op.memberDn);
      } else {
        HalfMemberKeepsInverse(form, table, op.groupDn, op.memberDn);
      }
    }
  }

  /** An operation on a directory whose links are inverse leaves them so when it is safe, and disagreement otherwise. */
  lemma OneMoreAgrees(form: Form, table: Table, op: Operation)
    requires IgnoresCase(form) && IsInverse(form, table)
    ensures Agree(form, Applied(form, table, op)) <==> IsSafe(form, table, op)
    ensures IsSafe(form, table, op) ==> IsInverse(form, Applied(form, table, op))
  {
    var member, memberOf := Links(form, table, "member"), Links(form, table, "memberOf");
    if op.Add? {
      LinksOfNew(form, table, form(op.dn), op.dn);
      AddedAgreesExactlyWhen(member, memberOf, form(op.dn));
      if IsSafe(form, table, op) {
        UnknownKeepsInverse(member, memberOf, form(op.dn));
      }
    } else {
      MembershipIsSafe(form, table, op);
      InverseAgrees(Links(form, Applied(form, table, op), "member"), Links(form, Applied(form, table, op), "memberOf"));
    }
  }

  /** Each operation is safe when its turn comes. */
  predicate AreSafe(form: Form, ops: seq<Operation>) {
    ops == [] || (
      var init := ops[..|ops| - 1];
      AreSafe(form, init) && IsSafe(form, AllApplied(form, init), ops[|ops| - 1]))
  }

  /** The answers agree at the start, and after each of the operations in turn. */
  ghost predicate AlwaysAgree(form: Form, ops: seq<Operation>) {
    Agree(form, AllApplied(form, ops)) && (ops == [] || AlwaysAgree(form, ops[..|ops| - 1]))
  }

  lemma {:induction false} SafeIsInverse(form: Form, ops: seq<Operation>)
    requires IgnoresCase(form) && AreSafe(form, ops)
    ensures IsInverse(form, AllApplied(form, ops))
  {
    if ops != [] {
      SafeIsInverse(form, ops[..|ops| - 1]);
      OneMoreAgrees(form, AllApplied(form, ops[..|ops| - 1]), ops[|ops| - 1]);
    }
  }

  lemma {:induction false} AgreementIsSafety(form: Form, ops: seq<Operation>)
    requires IgnoresCase(form)
    ensures AlwaysAgree(form, ops) <==> AreSafe(form, ops)
  {
    if ops == [] {
      SafeIsInverse(form, ops);
      InverseAgrees(Links(form, map[], "member"), Links(form, map[], "memberOf"));
    } else {
      var init := ops[..|ops| - 1];
      AgreementIsSafety(form, init);
      if AreSafe(form, init) {
        SafeIsInverse(form, init);
        OneMoreAgrees(form, AllApplied(form, init), ops[|ops| - 1]);
      }
    }
  }

  /**
   For directories built by any sequence of additions and memberships, failed ones included, with names compared as
   the program compares them: both questions always have the same answer exactly when no entry was added under a
   name to which another entry had a link.
   */
  lemma AnswersAlwaysAgreeExactlyWhen(ops: seq<Operation>)
    ensures AlwaysAgree(Normalize, ops) <==> AreSafe(Normalize, ops)
  {
    NormalizeIgnoresCase();
    AgreementIsSafety(Normalize, ops);
  }

  /** A group, a membership of a name that is unknown, and then that name: the answers agree no more. */
  lemma AgreementCanBeLost(groupDn: string, memberDn: string)
    requires Normalize(groupDn) != Normalize(memberDn)
    ensures !AlwaysAgree(Normalize, [Add(groupDn), AddMember(groupDn, memberDn), Add(memberDn)])
  {
    var g, m := Normalize(groupDn), Normalize(memberDn);
    var table := map[g := NewAttributes(groupDn)];
    var after := HalfMember(table, g, memberDn)[m := NewAttributes(memberDn)];
    NormalizeIgnoresCase();
    ThreeApplied(Normalize, groupDn, memberDn);
    FailedMembershipCanBreakAgreement(Normalize, table, groupDn, memberDn);
    hide HalfMember, NewAttributes, Normalize, Links, Connected, IgnoresCase, AllApplied;
    assert g in Links(Normalize, after, "member") && m in Links(Normalize, after, "member") by {
      AreLinked(Normalize, after, g);
      AreLinked(Normalize, after, m);
    }
    assert !Agree(Normalize, after);
  }

  lemma AreLinked(form: Form, table: Table, key: string)
    requires key in table
    ensures key in Links(form, table, "member")
  {
  }

  lemma ThreeApplied(form: Form, groupDn: string, memberDn: string)
    requires form(groupDn) != form(memberDn)
    ensures AllApplied(form, [Add(groupDn), AddMember(groupDn, memberDn), Add(memberDn)]) ==
      HalfMember(map[form(groupDn) := NewAttributes(groupDn)], form(groupDn), memberDn)[
        form(memberDn) := NewAttributes(memberDn)]
  {
    var a, b, c := Add(groupDn), AddMember(groupDn, memberDn), Add(memberDn);
    var one := map[form(groupDn) := NewAttributes(groupDn)];
    var two := HalfMember(one, form(groupDn), memberDn);
    assert Applied(form, map[], a) == one && Applied(form, one, b) == two;
    assert Applied(form, two, c) == two[form(memberDn) := NewAttributes(memberDn)];
    hide *;
    AppliedInTurn(form, [], a);
    AppliedInTurn(form, [a], b);
    AppliedInTurn(form, [a, b], c);
    assert [] + [a] == [a];
    assert [a] + [b] == [a, b];
    assert [a, b] + [c] == [a, b, c];
  }

  // ------------------------------------------------------------------ entries

  /** An entry: its name and its attributes, whose names have no case. */
  class DirectoryEntry {
    const dn: string
    var attributes: Attributes

    constructor (dn: string)
      ensures this.dn == dn && attributes == map[]
    {
      this.dn := dn;
      attributes := map[];
    }

    function Values(attribute: string): seq<string>
      reads this
    {
      ValuesOf(attributes, attribute)
    }

    method Set(attribute: string, values: seq<string>)
      modifies this
      ensures attributes == old(attributes)[Lower(attribute) := values]
    {
      attributes := attributes[Lower(attribute) := values];
    }

    /** A value already present, case ignored, is not added twice. */
    method Append(attribute: string, value: string)
      modifies this
      ensures attributes == WithValue(old(attributes), attribute, value)
    {
      attributes := attributes[Lower(attribute) := Appended(Values(attribute), value)];
    }
  }

  datatype Outcome = Done | UnknownGroup | UnknownMember

  class InMemoryDirectory {
    const form: Form
    var entries: map<string, DirectoryEntry>
    var ordered: seq<DirectoryEntry>

    /** Every entry is filed once, under its own name. */
    ghost predicate Valid()
      reads this
    {
      && IgnoresCase(form)
      && forall k :: k in entries ==> form(entries[k].dn) == k
    }

    ghost function Contents(): Table
      reads this, entries.Values
    {
      map k | k in entries :: entries[k].attributes
    }

    constructor (form: Form)
      requires IgnoresCase(form)
      ensures Valid() && entries == map[] && ordered == [] && this.form == form
    {
      this.form := form;
      entries, ordered := map[], [];
    }

    function Find(dn: string): Option<DirectoryEntry>
      reads this
    {
      if form(dn) in entries then Some(entries[form(dn)]) else None
    }

    /** A name joins without links; a name already there is replaced. */
    method Add(dn: string) returns (entry: DirectoryEntry)
      requires Valid()
      modifies this
      ensures Valid() && fresh(entry) && entry.dn == dn
      ensures entries == old(entries)[form(dn) := entry] && ordered == old(ordered) + [entry]
      ensures Contents() == Applied(form, old(Contents()), Operation.Add(dn))
    {
      ghost var before, table := entries, Contents();
      entry := new DirectoryEntry(dn);
      entry.Set("distinguishedName", [dn]);
      assert forall k :: k in before ==> before[k] != entry;
      entries := entries[form(dn) := entry];
      ordered := ordered + [entry];
      ghost var after := table[form(dn) := NewAttributes(dn)];
      assert entry.attributes == NewAttributes(dn) && Contents().Keys == after.Keys;
      forall k | k in entries ensures Contents()[k] == after[k] {
        if k != form(dn) {
          assert entries[k] == before[k] && before[k].attributes == table[k];
        }
      }
      assert Contents() == after;
    }

    /**
     Membership is written on both sides. The group's side is written first: when the member is unknown the call
     fails after that, and the link stays.
     */
    method AddMember(groupDn: string, memberDn: string) returns (outcome: Outcome)
      requires Valid()
      modifies entries.Values
      ensures Valid()
      ensures outcome == if form(groupDn) !in entries then UnknownGroup
                         else if form(memberDn) !in entries then UnknownMember else Done
      ensures Contents() == Applied(form, old(Contents()), Operation.AddMember(groupDn, memberDn))
    {
      var group := Find(groupDn);
      if group.None? { return UnknownGroup; }
      Write(groupDn, "member", memberDn);
      var member := Find(memberDn);
      if member.None? { return UnknownMember; }
      Write(memberDn, "memberOf", groupDn);
      outcome := Done;
    }

    method Write(dn: string, attribute: string, value: string)
      requires Valid() && form(dn) in entries
      modifies entries[form(dn)]
      ensures Valid()
      ensures Contents() == old(Contents())[form(dn) := WithValue(old(Contents())[form(dn)], attribute, value)]
    {
      var entry := entries[form(dn)];
      entry.Append(attribute, value);
      assert forall k :: k in entries && k != form(dn) ==> entries[k] != entry;
    }

    /** Breadth-first search along one link; true exactly when the target is in its transitive closure. */
    method Reaches(start: DirectoryEntry, link: string, targetDn: string) returns (found: bool)
      ensures found <==> Connected(Links(form, Contents(), link), KeysOf(form, start.Values(link)), form(targetDn))
    {
      var target := form(targetDn);
      var seen: set<string> := {};
      var pending := start.Values(link);
      ghost var g, from := Links(form, Contents(), link), KeysOf(form, pending);
      SearchBegins(g, from);
      while pending != []
        invariant Searching(g, from, seen, KeysOf(form, pending)) && target !in seen
        decreases entries.Keys - seen, |pending|
      {
        var dn, key := pending[0], form(pending[0]);
        KeysOfHead(form, pending);
        pending := pending[1..];
        SearchAdvances(g, from, seen, key, KeysOf(form, pending));
        if key == target { return true; }
        if key in seen { continue; }
        seen := seen + {key};
        var next := Find(dn);
        if next.Some? {
          KeysOfConcat(form, pending, next.value.Values(link));
          pending := pending + next.value.Values(link);
        }
      }
      assert KeysOf(form, pending) == {};
      SearchEnds(g, from, seen, target);
      found := false;
    }

    /** Member of the group, directly or through groups that are members. */
    method IsMemberOf(entry: DirectoryEntry, groupDn: string) returns (found: bool)
      ensures found
              <==> Connected(Links(form, Contents(), "memberOf"), KeysOf(form, entry.Values("memberOf")), form(groupDn))
    {
      found := Reaches(entry, "memberOf", groupDn);
    }

    method HasMember(group: DirectoryEntry, memberDn: string) returns (found: bool)
      ensures found
              <==> Connected(Links(form, Contents(), "member"), KeysOf(form, group.Values("member")), form(memberDn))
    {
      found := Reaches(group, "member", memberDn);
    }

    /** Where the links are inverse, both questions about two entries have the same answer. */
    lemma SameAnswer(entry: DirectoryEntry, group: DirectoryEntry)
      requires Valid() && IsInverse(form, Contents())
      requires Find(entry.dn) == Some(entry) && Find(group.dn) == Some(group)
      ensures Connected(Links(form, Contents(), "memberOf"), KeysOf(form, entry.Values("memberOf")), form(group.dn))
         <==> Connected(Links(form, Contents(), "member"), KeysOf(form, group.Values("member")), form(entry.dn))
    {
      BothWaysAgree(Links(form, Contents(), "member"), Links(form, Contents(), "memberOf"), form(entry.dn),
        form(group.dn));
    }
  }

  lemma KeysOfHead(form: Form, dns: seq<string>)
    requires dns != []
    ensures KeysOf(form, dns) == {form(dns[0])} + KeysOf(form, dns[1..])
  {
    KeysOfConcat(form, [dns[0]], dns[1..]);
    assert dns == [dns[0]] + dns[1..];
  }

  lemma KeysOfConcat(form: Form, a: seq<string>, b: seq<string>)
    ensures KeysOf(form, a + b) == KeysOf(form, a) + KeysOf(form, b)
    ensures |a| == 1 ==> KeysOf(form, a) == {form(a[0])}
  {
    forall k | k in KeysOf(form, a) + KeysOf(form, b) ensures k in KeysOf(form, a + b) {
      if k in KeysOf(form, a) {
        var v :| v in a && form(v) == k;
        assert v in a + b;
      } else {
        var v :| v in b && form(v) == k;
        assert v in a + b;
      }
    }
    if |a| == 1 {
      assert a == [a[0]];
    }
  }
}
