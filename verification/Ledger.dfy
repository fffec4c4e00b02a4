/**
 Sets of keys and the owner of each key: what adding keys to one of the sets keeps. The automatic grouping
 keeps such a ledger while it moves received values: a key is a value with its case ignored, and the sets
 are the values that each environment groups. A ledger agrees with the sets when the owned keys are those of
 the sets, each in the set of its owner. Agreement lasts as keys and sets are added, and as long as no key
 is added to a set while another set owns it, no key is in two of them.
 */
module Ledger {

  type Owners = map<string, nat>

  /** Every owned key is in the set of its owner, and every key of a set is owned. */
  predicate Agree(owners: Owners, sets: seq<set<string>>) {
    && (forall key :: key in owners ==> owners[key] < |sets| && key in sets[owners[key]])
    && (forall i, key :: 0 <= i < |sets| && key in sets[i] ==> key in owners)
  }

  /** No key is in two sets. */
  predicate IsSole(sets: seq<set<string>>) {
    forall i, j :: 0 <= i < j < |sets| ==> sets[i] !! sets[j]
  }

  predicate Extends(before: Owners, after: Owners) {
    forall key :: key in before ==> key in after && after[key] == before[key]
  }

  lemma AddedAgrees(owners: Owners, sets: seq<set<string>>, i: nat, key: string)
    requires Agree(owners, sets) && i < |sets|
    ensures Agree(owners[key := i], sets[i := sets[i] + {key}])
    ensures key in owners && owners[key] != i ==> Agree(owners, sets[i := sets[i] + {key}])
  {
  }

  lemma AddedIsSole(owners: Owners, sets: seq<set<string>>, i: nat, key: string)
    requires Agree(owners, sets) && i < |sets| && IsSole(sets)
    requires key in owners ==> owners[key] == i
    ensures IsSole(sets[i := sets[i] + {key}])
  {
    forall j | 0 <= j < |sets| && j != i ensures key !in sets[j] {
    }
  }

  lemma NewSetAgrees(owners: Owners, sets: seq<set<string>>, key: string)
    requires Agree(owners, sets) && key !in owners
    ensures Agree(owners[key := |sets|], sets + [{key}])
    ensures IsSole(sets) ==> IsSole(sets + [{key}])
    ensures Extends(owners, owners[key := |sets|])
  {
  }

  /** With no key in two sets, the owner of a key is the only set that has it. */
  lemma OwnerIsTheOnlyOne(owners: Owners, sets: seq<set<string>>, key: string, i: nat)
    requires Agree(owners, sets) && IsSole(sets) && i < |sets|
    ensures key in sets[i] <==> key in owners && owners[key] == i
  {
  }
}
