/** The kernel's ordered rule table: insertion, deletion by slot, and filters. */
module RuleTable {
  import opened PolicyRules

  ghost predicate Sorted(rules: seq<Rule>) {
    forall i, j :: 0 <= i < j < |rules| ==> rules[i].priority <= rules[j].priority
  }

  /** A new rule goes behind every rule of the same or a smaller priority. */
  function Insert(rules: seq<Rule>, r: Rule): seq<Rule> {
    if rules == [] || rules[0].priority > r.priority then [r] + rules
    else [rules[0]] + Insert(rules[1..], r)
  }

  function InsertAll(rules: seq<Rule>, added: seq<Rule>): seq<Rule>
    decreases added
  {
    if added == [] then rules else InsertAll(Insert(rules, added[0]), added[1..])
  }

  /** `ip rule del priority p` removes the first rule of the slot. */
  function DeleteSlot(rules: seq<Rule>, p: nat): seq<Rule> {
    if rules == [] then []
    else if rules[0].priority == p then rules[1..]
    else [rules[0]] + DeleteSlot(rules[1..], p)
  }

  function Filter(keep: Rule -> bool, rules: seq<Rule>): seq<Rule> {
    if rules == [] then []
    else if keep(rules[0]) then [rules[0]] + Filter(keep, rules[1..])
    else Filter(keep, rules[1..])
  }

  lemma {:induction false} InsertMember(rules: seq<Rule>, r: Rule, x: Rule)
    ensures x in Insert(rules, r) <==> x == r || x in rules
  {
    if rules != [] && rules[0].priority <= r.priority {
      InsertMember(rules[1..], r, x);
      assert rules == [rules[0]] + rules[1..];
    }
  }

  lemma {:induction false} InsertAllMember(rules: seq<Rule>, added: seq<Rule>, x: Rule)
    ensures x in InsertAll(rules, added) <==> x in rules || x in added
    decreases added
  {
    if added != [] {
      InsertMember(rules, added[0], x);
      InsertAllMember(Insert(rules, added[0]), added[1..], x);
      assert added == [added[0]] + added[1..];
    }
  }

  lemma {:induction false} InsertSorted(rules: seq<Rule>, r: Rule)
    requires Sorted(rules)
    ensures Sorted(Insert(rules, r))
  {
    if rules != [] && rules[0].priority <= r.priority {
      InsertSorted(rules[1..], r);
      forall x | x in Insert(rules[1..], r)
        ensures rules[0].priority <= x.priority
      {
        InsertMember(rules[1..], r, x);
      }
    }
  }

  lemma {:induction false} InsertAllSnoc(rules: seq<Rule>, added: seq<Rule>, r: Rule)
    ensures InsertAll(rules, added + [r]) == Insert(InsertAll(rules, added), r)
    decreases added
  {
    if added == [] {
      assert InsertAll(rules, [r]) == InsertAll(Insert(rules, r), [r][1..]);
    } else {
      InsertAllSnoc(Insert(rules, added[0]), added[1..], r);
      assert (added + [r])[1..] == added[1..] + [r];
    }
  }

  lemma {:induction false} InsertAllSorted(rules: seq<Rule>, added: seq<Rule>)
    requires Sorted(rules)
    ensures Sorted(InsertAll(rules, added))
    decreases added
  {
    if added != [] {
      InsertSorted(rules, added[0]);
      InsertAllSorted(Insert(rules, added[0]), added[1..]);
    }
  }

  lemma {:induction false} FilterMember(keep: Rule -> bool, rules: seq<Rule>, x: Rule)
    ensures x in Filter(keep, rules) <==> x in rules && keep(x)
  {
    if rules != [] {
      FilterMember(keep, rules[1..], x);
      assert rules == [rules[0]] + rules[1..];
    }
  }

  lemma {:induction false} FilterConcat(keep: Rule -> bool, a: seq<Rule>, b: seq<Rule>)
    ensures Filter(keep, a + b) == Filter(keep, a) + Filter(keep, b)
  {
    if a == [] {
      assert a + b == b;
    } else {
      assert (a + b)[0] == a[0] && (a + b)[1..] == a[1..] + b;
      FilterConcat(keep, a[1..], b);
    }
  }

  lemma {:induction false} FilterNone(keep: Rule -> bool, rules: seq<Rule>)
    requires forall x :: x in rules ==> !keep(x)
    ensures Filter(keep, rules) == []
  {
    if rules != [] { FilterNone(keep, rules[1..]); }
  }

  lemma {:induction false} FilterAll(keep: Rule -> bool, rules: seq<Rule>)
    requires forall x :: x in rules ==> keep(x)
    ensures Filter(keep, rules) == rules
  {
    if rules != [] {
      assert rules[0] in rules;
      FilterAll(keep, rules[1..]);
    }
  }

  lemma {:induction false} FilterInsert(keep: Rule -> bool, rules: seq<Rule>, r: Rule)
    requires Sorted(rules)
    ensures Filter(keep, Insert(rules, r)) == if keep(r) then Insert(Filter(keep, rules), r) else Filter(keep, rules)
  {
    if rules == [] {
      assert [r][1..] == [];
    } else if rules[0].priority > r.priority {
      assert ([r] + rules)[1..] == rules;
      InsertBefore(keep, rules, r);
    } else {
      FilterInsert(keep, rules[1..], r);
      if keep(rules[0]) {
        assert ([rules[0]] + Filter(keep, rules[1..]))[1..] == Filter(keep, rules[1..]);
      }
    }
  }

  lemma {:induction false} InsertBefore(keep: Rule -> bool, rules: seq<Rule>, r: Rule)
    requires Sorted(rules) && rules != [] && rules[0].priority > r.priority
    ensures Insert(Filter(keep, rules), r) == [r] + Filter(keep, rules)
  {
    if Filter(keep, rules) != [] {
      FilterMember(keep, rules, Filter(keep, rules)[0]);
    }
  }

  lemma {:induction false} InsertLast(rules: seq<Rule>, r: Rule)
    requires forall x :: x in rules ==> x.priority <= r.priority
    ensures Insert(rules, r) == rules + [r]
  {
    if rules != [] {
      assert rules[0] in rules;
      InsertLast(rules[1..], r);
    }
  }

  /** A part of the table that drops every installed rule does not change. */
  lemma {:induction false} FilterInsertNone(keep: Rule -> bool, rules: seq<Rule>, added: seq<Rule>)
    requires Sorted(rules) && forall x :: x in added ==> !keep(x)
    ensures Filter(keep, InsertAll(rules, added)) == Filter(keep, rules)
    decreases added
  {
    if added != [] {
      assert added[0] in added;
      InsertSorted(rules, added[0]);
      FilterInsert(keep, rules, added[0]);
      FilterInsertNone(keep, Insert(rules, added[0]), added[1..]);
    }
  }

  // ---- deleting what the service owns -----------------------------------------

  // `own` says which rules are the service's.

  function Not(own: Rule -> bool): Rule -> bool { (r: Rule) => !own(r) }

  /** Every managed rule of the listing deletes its slot once. */
  function ClearListed(own: Rule -> bool, listing: seq<Rule>, rules: seq<Rule>): seq<Rule> {
    if listing == [] then rules
    else if own(listing[0]) then ClearListed(own, listing[1..], DeleteSlot(rules, listing[0].priority))
    else ClearListed(own, listing[1..], rules)
  }

  function Cleared(own: Rule -> bool, rules: seq<Rule>): seq<Rule> { ClearListed(own, rules, rules) }

  /** In every slot the managed rules come before the foreign ones. */
  ghost predicate ManagedFirst(own: Rule -> bool, rules: seq<Rule>) {
    forall i, j :: 0 <= i < j < |rules| && rules[i].priority == rules[j].priority && own(rules[j])
                   ==> own(rules[i])
  }

  lemma {:induction false} DeleteSkips(front: seq<Rule>, r: Rule, rest: seq<Rule>)
    requires forall x :: x in front ==> x.priority != r.priority
    ensures DeleteSlot(front + [r] + rest, r.priority) == front + rest
  {
    var s := front + [r] + rest;
    if front == [] {
      assert s == [r] + rest && front + rest == rest;
    } else {
      assert front[0] in front;
      assert s[1..] == front[1..] + [r] + rest;
      DeleteSkips(front[1..], r, rest);
    }
  }

  /** Below, `front` is what clearing has gone past and left. */
  ghost predicate ApartFrom(own: Rule -> bool, front: seq<Rule>, listing: seq<Rule>) {
    forall x, y :: x in front && y in listing && own(y) ==> x.priority != y.priority
  }

  lemma ApartTail(own: Rule -> bool, front: seq<Rule>, listing: seq<Rule>)
    requires listing != [] && ApartFrom(own, front, listing) && ManagedFirst(own, listing)
    ensures ApartFrom(own, front, listing[1..]) && ManagedFirst(own, listing[1..])
    ensures !own(listing[0]) ==> ApartFrom(own, front + [listing[0]], listing[1..])
  {
    var (r, rest) := (listing[0], listing[1..]);
    forall i, j | 0 <= i < j < |rest| && rest[i].priority == rest[j].priority && own(rest[j])
      ensures own(rest[i])
    {
      assert listing[i + 1] == rest[i] && listing[j + 1] == rest[j];
    }
    forall y | y in rest && own(y)
      ensures own(r) || r.priority != y.priority
    {
      var j :| 0 <= j < |rest| && rest[j] == y;
      assert listing[0] == r && listing[j + 1] == y;
    }
  }

  lemma {:induction false} ClearKeepsForeign(own: Rule -> bool, front: seq<Rule>, listing: seq<Rule>)
    requires ApartFrom(own, front, listing) && ManagedFirst(own, listing)
    ensures ClearListed(own, listing, front + listing) == front + Filter(Not(own), listing)
    decreases listing
  {
    if listing == [] {
      assert front + [] == front;
    } else {
      var (r, rest) := (listing[0], listing[1..]);
      ApartTail(own, front, listing);
      assert front + listing == front + [r] + rest;
      if own(r) {
        assert r in listing;
        DeleteSkips(front, r, rest);
        ClearKeepsForeign(own, front, rest);
      } else {
        ClearKeepsForeign(own, front + [r], rest);
        assert front + [r] + Filter(Not(own), rest) == front + ([r] + Filter(Not(own), rest));
      }
    }
  }

  function Slot(p: nat): Rule -> bool { (r: Rule) => r.priority == p }

  /** How many managed rules of the listing sit in slot p. */
  function OwnedInSlot(own: Rule -> bool, listing: seq<Rule>, p: nat): nat {
    if listing == [] then 0
    else (if listing[0].priority == p && own(listing[0]) then 1 else 0) + OwnedInSlot(own, listing[1..], p)
  }

  lemma {:induction false} DeleteSlotOf(rules: seq<Rule>, p: nat, q: nat)
    ensures var (before, after) := (Filter(Slot(q), rules), Filter(Slot(q), DeleteSlot(rules, p)));
            after == if p == q && before != [] then before[1..] else before
  {
    if rules != [] && rules[0].priority != p {
      DeleteSlotOf(rules[1..], p, q);
      assert ([rules[0]] + DeleteSlot(rules[1..], p))[1..] == DeleteSlot(rules[1..], p);
    }
  }

  /** Clearing drops, from the front of each slot, as many rules as it owns there. */
  lemma {:induction false} ClearDropsFront(own: Rule -> bool, listing: seq<Rule>, rules: seq<Rule>, p: nat)
    requires OwnedInSlot(own, listing, p) <= |Filter(Slot(p), rules)|
    ensures Filter(Slot(p), ClearListed(own, listing, rules)) == Filter(Slot(p), rules)[OwnedInSlot(own, listing, p)..]
    decreases listing
  {
    if listing != [] {
      if own(listing[0]) {
        DeleteSlotOf(rules, listing[0].priority, p);
        ClearDropsFront(own, listing[1..], DeleteSlot(rules, listing[0].priority), p);
      } else {
        ClearDropsFront(own, listing[1..], rules, p);
      }
    }
  }

  lemma {:induction false} OwnedAtMostSlot(own: Rule -> bool, rules: seq<Rule>, p: nat)
    ensures OwnedInSlot(own, rules, p) <= |Filter(Slot(p), rules)|
    ensures OwnedInSlot(own, rules, p) == |Filter(own, Filter(Slot(p), rules))|
  {
    if rules != [] {
      OwnedAtMostSlot(own, rules[1..], p);
      if rules[0].priority == p {
        assert ([rules[0]] + Filter(Slot(p), rules[1..]))[1..] == Filter(Slot(p), rules[1..]);
      }
    }
  }

  lemma {:induction false} FilterLength(keep: Rule -> bool, rules: seq<Rule>)
    ensures |Filter(keep, rules)| <= |rules|
    ensures |Filter(keep, rules)| == |rules| ==> forall x :: x in rules ==> keep(x)
  {
    if rules != [] { FilterLength(keep, rules[1..]); }
  }

  /** If what is left of a slot is foreign, its first rules were all managed. */
  lemma SlotFrontManaged(own: Rule -> bool, slot: seq<Rule>, n: nat)
    requires n == |Filter(own, slot)| <= |slot|
    requires forall x :: x in slot[n..] ==> !own(x)
    ensures forall x :: x in slot[..n] ==> own(x)
  {
    assert slot == slot[..n] + slot[n..];
    FilterConcat(own, slot[..n], slot[n..]);
    FilterNone(own, slot[n..]);
    FilterLength(own, slot[..n]);
  }

  lemma {:induction false} FilterKeepsOrder(keep: Rule -> bool, rules: seq<Rule>, i: nat, j: nat)
    returns (a: nat, b: nat)
    requires i < j < |rules| && keep(rules[i]) && keep(rules[j])
    ensures a < b < |Filter(keep, rules)| && Filter(keep, rules)[a] == rules[i] && Filter(keep, rules)[b] == rules[j]
  {
    var (front, mid, back) := (rules[..i], rules[i + 1..j], rules[j + 1..]);
    assert rules == front + ([rules[i]] + (mid + ([rules[j]] + back)));
    FilterConcat(keep, front, [rules[i]] + (mid + ([rules[j]] + back)));
    FilterConcat(keep, [rules[i]], mid + ([rules[j]] + back));
    FilterConcat(keep, mid, [rules[j]] + back);
    FilterConcat(keep, [rules[j]], back);
    assert Filter(keep, [rules[i]]) == [rules[i]] && Filter(keep, [rules[j]]) == [rules[j]] by {
      assert [rules[i]][1..] == [] && [rules[j]][1..] == [];
    }
    a := |Filter(keep, front)|;
    b := a + 1 + |Filter(keep, mid)|;
  }

  lemma InRest(rules: seq<Rule>, n: nat, k: nat)
    requires n <= k < |rules|
    ensures rules[k] in rules[n..]
  {
    assert rules[n..][k - n] == rules[k];
  }

  /** If no managed rule is left, every slot had its managed rules in front. */
  lemma CleanSlotIsOrdered(own: Rule -> bool, rules: seq<Rule>, i: nat, j: nat)
    requires forall x :: x in Cleared(own, rules) ==> !own(x)
    requires i < j < |rules| && rules[i].priority == rules[j].priority && own(rules[j])
    ensures own(rules[i])
  {
    var p := rules[i].priority;
    var slot, n := Filter(Slot(p), rules), OwnedInSlot(own, rules, p);
    OwnedAtMostSlot(own, rules, p);
    RestOfSlotForeign(own, rules, p);
    SlotFrontManaged(own, slot, n);
    var a, b := FilterKeepsOrder(Slot(p), rules, i, j);
    assert b < n by {
      if b >= n { InRest(slot, n, b); }
    }
    assert slot[a] == slot[..n][a];
  }

  lemma RestOfSlotForeign(own: Rule -> bool, rules: seq<Rule>, p: nat)
    requires forall x :: x in Cleared(own, rules) ==> !own(x)
    requires OwnedInSlot(own, rules, p) <= |Filter(Slot(p), rules)|
    ensures forall x :: x in Filter(Slot(p), rules)[OwnedInSlot(own, rules, p)..] ==> !own(x)
  {
    ClearDropsFront(own, rules, rules, p);
    forall x | x in Filter(Slot(p), rules)[OwnedInSlot(own, rules, p)..]
      ensures !own(x)
    {
      FilterMember(Slot(p), Cleared(own, rules), x);
    }
  }

  /** Clearing leaves exactly the foreign rules, in order, if and only if no
      foreign rule precedes a managed one in the same slot. */
  lemma ClearedIsForeignIff(own: Rule -> bool, rules: seq<Rule>)
    ensures Cleared(own, rules) == Filter(Not(own), rules) <==> ManagedFirst(own, rules)
  {
    if ManagedFirst(own, rules) {
      ClearKeepsForeign(own, [], rules);
      assert [] + rules == rules && [] + Filter(Not(own), rules) == Filter(Not(own), rules);
    }
    if Cleared(own, rules) == Filter(Not(own), rules) {
      forall x | x in Cleared(own, rules) ensures !own(x) { FilterMember(Not(own), rules, x); }
      NothingOwnedIsOrdered(own, rules);
    }
  }

  lemma NothingOwnedIsOrdered(own: Rule -> bool, rules: seq<Rule>)
    requires forall x :: x in Cleared(own, rules) ==> !own(x)
    ensures ManagedFirst(own, rules)
  {
    forall i, j | 0 <= i < j < |rules| && rules[i].priority == rules[j].priority && own(rules[j])
      ensures own(rules[i])
    {
      CleanSlotIsOrdered(own, rules, i, j);
    }
  }

  // ---- what clearing costs --------------------------------------------------------

  lemma {:induction false} DeleteSlotLength(rules: seq<Rule>, p: nat)
    ensures |DeleteSlot(rules, p)| == |rules| - if Filter(Slot(p), rules) != [] then 1 else 0
  {
    if rules != [] { DeleteSlotLength(rules[1..], p); }
  }

  lemma {:induction false} ClearLength(own: Rule -> bool, listing: seq<Rule>, rules: seq<Rule>)
    requires forall p :: OwnedInSlot(own, listing, p) <= |Filter(Slot(p), rules)|
    ensures |ClearListed(own, listing, rules)| == |rules| - |Filter(own, listing)|
    decreases listing
  {
    if listing != [] {
      var (q, rest) := (listing[0].priority, listing[1..]);
      if own(listing[0]) {
        assert OwnedInSlot(own, listing, q) > 0;
        forall p ensures OwnedInSlot(own, rest, p) <= |Filter(Slot(p), DeleteSlot(rules, q))| {
          DeleteSlotOf(rules, q, p);
          assert OwnedInSlot(own, listing, p) <= |Filter(Slot(p), rules)|;
        }
        DeleteSlotLength(rules, q);
        ClearLength(own, rest, DeleteSlot(rules, q));
      } else {
        forall p ensures OwnedInSlot(own, rest, p) <= |Filter(Slot(p), rules)| {
          assert OwnedInSlot(own, listing, p) <= |Filter(Slot(p), rules)|;
        }
        ClearLength(own, rest, rules);
      }
    }
  }

  lemma {:induction false} FilterParts(keep: Rule -> bool, rules: seq<Rule>)
    ensures |Filter(keep, rules)| + |Filter(Not(keep), rules)| == |rules|
  {
    if rules != [] { FilterParts(keep, rules[1..]); }
  }

  function Foreign(own: Rule -> bool, rules: seq<Rule>): nat { |Filter(Not(own), rules)| }

  /** Clearing costs exactly as many foreign rules as it leaves managed ones behind,
      and it leaves some behind exactly if a foreign rule preceded a managed one in
      its slot. */
  lemma ClearCostsForeign(own: Rule -> bool, rules: seq<Rule>)
    ensures Foreign(own, Cleared(own, rules)) + |Filter(own, Cleared(own, rules))| == Foreign(own, rules)
    ensures Filter(own, Cleared(own, rules)) == [] <==> ManagedFirst(own, rules)
  {
    forall p ensures OwnedInSlot(own, rules, p) <= |Filter(Slot(p), rules)| { OwnedAtMostSlot(own, rules, p); }
    ClearLength(own, rules, rules);
    FilterParts(own, rules);
    FilterParts(own, Cleared(own, rules));
    if ManagedFirst(own, rules) {
      ClearedIsForeignIff(own, rules);
      forall x | x in Cleared(own, rules) ensures !own(x) { FilterMember(Not(own), rules, x); }
      FilterNone(own, Cleared(own, rules));
    } else if Filter(own, Cleared(own, rules)) == [] {
      forall x | x in Cleared(own, rules) ensures !own(x) { FilterMember(own, Cleared(own, rules), x); }
      NothingOwnedIsOrdered(own, rules);
    }
  }

  lemma {:induction false} DeleteSlotMember(rules: seq<Rule>, p: nat, x: Rule)
    ensures x in DeleteSlot(rules, p) ==> x in rules
  {
    if rules != [] && rules[0].priority != p {
      DeleteSlotMember(rules[1..], p, x);
    }
  }

  lemma {:induction false} DeleteSlotSorted(rules: seq<Rule>, p: nat)
    requires Sorted(rules)
    ensures Sorted(DeleteSlot(rules, p))
    ensures forall x :: x in DeleteSlot(rules, p) ==> x in rules
  {
    forall x | x in DeleteSlot(rules, p) ensures x in rules { DeleteSlotMember(rules, p, x); }
    if rules != [] && rules[0].priority != p {
      DeleteSlotSorted(rules[1..], p);
      forall x | x in DeleteSlot(rules[1..], p)
        ensures rules[0].priority <= x.priority
      {
        DeleteSlotMember(rules[1..], p, x);
      }
    }
  }

  lemma {:induction false} ClearListedMember(own: Rule -> bool, listing: seq<Rule>, rules: seq<Rule>, x: Rule)
    ensures x in ClearListed(own, listing, rules) ==> x in rules
    decreases listing
  {
    if listing != [] {
      if own(listing[0]) {
        DeleteSlotMember(rules, listing[0].priority, x);
        ClearListedMember(own, listing[1..], DeleteSlot(rules, listing[0].priority), x);
      } else {
        ClearListedMember(own, listing[1..], rules, x);
      }
    }
  }

  lemma {:induction false} ClearListedSorted(own: Rule -> bool, listing: seq<Rule>, rules: seq<Rule>)
    requires Sorted(rules)
    ensures Sorted(ClearListed(own, listing, rules))
    ensures forall x :: x in ClearListed(own, listing, rules) ==> x in rules
    decreases listing
  {
    if listing != [] {
      if own(listing[0]) {
        DeleteSlotSorted(rules, listing[0].priority);
        ClearListedSorted(own, listing[1..], DeleteSlot(rules, listing[0].priority));
      } else {
        ClearListedSorted(own, listing[1..], rules);
      }
    }
  }
}
