/** Secret rotation, and what rejected and accepted updates and deletions leave in the lease register. */
module UpdateRollback {
  import opened Text
  import opened Lists
  import opened Services
  import opened Ipam
  import opened Mutation
  import opened Validation
  import opened LeaseFacts
  import opened Rollback
  import M = MutationFacts
  import L = LeaseCoverage
  import Pools

  // ---------------------------------------------------------------- secret rotation

  /** `after` is `before` with the secret of the slots of `S` changed from one value to another, nothing else. */
  ghost predicate Rekeyed(before: Leases, after: Leases, S: set<Slot>, oldSecret: string, newSecret: string) {
    && (forall s :: s !in S ==> SameAt(before, after, s))
    && (forall s :: s in S ==> HeldUnder(before, s, oldSecret) && HeldUnder(after, s, newSecret))
    && (forall s :: s in S ==> MembersAt(before, s) == MembersAt(after, s))
  }

  /** One rotation call: it swaps the secret, or fails; refused locally it sends nothing. */
  lemma RotateCall(a: string, m: Annotations, id: Id, oldSecret: string, newSecret: string, r: Register)
    ensures var call := RotateSecret(a, m, id, oldSecret, newSecret, r);
            var slot := SlotOf(Get(m, Zone), a);
            && call.reg.tally.lost >= r.tally.lost && call.reg.tally.deletesFailed == r.tally.deletesFailed
            && call.reg.tally.postsFailed
               == r.tally.postsFailed + (if call.address.None? && Sendable(m) && IsValidIp(a) then 1 else 0)
            && (call.address.Some? ==> Sendable(m) && IsValidIp(a) && call.reg.tally.lost == r.tally.lost
                                       && Rekeyed(r.leases, call.reg.leases, {slot}, oldSecret, newSecret))
            && (call.address.None? && call.reg.tally.lost == r.tally.lost ==> call.reg.leases == r.leases)
  {
    hide Sendable, IsValidIp, Rewrite;
    if IsValidIp(a) {
      RewriteValid(id, m, oldSecret, Some(newSecret), a);
    }
  }

  lemma RekeyTwice(l1: Leases, l2: Leases, l3: Leases, S: set<Slot>, T: set<Slot>, oldSecret: string, newSecret: string)
    requires Rekeyed(l1, l2, S, oldSecret, newSecret) && Rekeyed(l2, l3, T, oldSecret, newSecret)
    ensures Rekeyed(l1, l3, S + T, oldSecret, newSecret)
  {
    forall s ensures s in S && s !in T ==> SameAt(l2, l3, s)
             ensures s !in S ==> SameAt(l1, l2, s)
             ensures s !in S + T ==> SameAt(l1, l3, s)
             ensures s in S && s in T ==> oldSecret == newSecret
    {
      assert s !in T ==> SameAt(l2, l3, s);
      assert s in S && s in T ==> HeldUnder(l2, s, newSecret) && HeldUnder(l2, s, oldSecret);
    }
  }

  lemma RekeyBack(l1: Leases, l2: Leases, l3: Leases, S: set<Slot>, oldSecret: string, newSecret: string)
    requires Rekeyed(l1, l2, S, oldSecret, newSecret) && Rekeyed(l2, l3, S, newSecret, oldSecret)
    ensures l1 == l3
  {
    forall s ensures SameAt(l1, l3, s) {
      if s in S {
        assert HeldUnder(l1, s, oldSecret) && HeldUnder(l3, s, oldSecret);
      } else {
        assert SameAt(l1, l2, s) && SameAt(l2, l3, s);
      }
    }
    SameLeases(l1, l3);
  }

  /** The rotation up to its first failing call: `count` addresses have been rotated. */
  function RotateUntil(keep: seq<string>, index: nat, m: Annotations, id: Id, oldSecret: string, newSecret: string,
                       r: Register): (p: Progress)
    requires index <= |keep|
    ensures index <= p.count <= |keep|
    decreases |keep| - index
  {
    if index == |keep| then Progress(index, r)
    else
      var call := RotateSecret(keep[index], m, id, oldSecret, newSecret, r);
      if call.address.Some? then RotateUntil(keep, index + 1, m, id, oldSecret, newSecret, call.reg)
      else Progress(index, call.reg)
  }

  /** The loop of updateSecret is that rotation with a revert if it ends at index 1. */
  lemma {:induction false} RotateSplit(keep: seq<string>, index: nat, before: Annotations, m: Annotations, id: Id,
                                       oldSecret: string, newSecret: string, r: Register)
    requires index <= |keep|
    ensures var end := RotateFrom(keep, index, before, m, id, oldSecret, newSecret, r);
            var p := RotateUntil(keep, index, m, id, oldSecret, newSecret, r);
            && (end.ok <==> p.count == |keep|)
            && end.reg == if p.count == 1 && p.count < |keep|
                          then RotateSecret(keep[0], before, id, newSecret, oldSecret, p.reg).reg else p.reg
    decreases |keep| - index
  {
    hide RotateSecret;
    if index < |keep| {
      var call := RotateSecret(keep[index], m, id, oldSecret, newSecret, r);
      if call.address.Some? {
        RotateSplit(keep, index + 1, before, m, id, oldSecret, newSecret, call.reg);
      }
    }
  }

  /** The rotated addresses, and only they, have changed their secret; the call that ends the rotation fails in the API
      or, for an invalid address, locally. */
  lemma {:induction false} RotatePrefix(keep: seq<string>, index: nat, m: Annotations, id: Id,
                                        oldSecret: string, newSecret: string, r: Register)
    requires index <= |keep|
    ensures var p := RotateUntil(keep, index, m, id, oldSecret, newSecret, r);
            && p.reg.tally.lost >= r.tally.lost && p.reg.tally.deletesFailed == r.tally.deletesFailed
            && (p.count == |keep| ==> p.reg.tally.lost == r.tally.lost && p.reg.tally.postsFailed == r.tally.postsFailed)
            && (p.count < |keep| ==>
                  p.reg.tally.postsFailed == r.tally.postsFailed + if Sendable(m) && IsValidIp(keep[p.count]) then 1 else 0)
            && (p.count > index ==> Sendable(m) && IsValidIp(keep[index]))
            && (p.reg.tally.lost == r.tally.lost ==>
                  Rekeyed(r.leases, p.reg.leases, Slots(Get(m, Zone), keep[index..p.count]), oldSecret, newSecret))
    decreases |keep| - index
  {
    hide RotateSecret, Sendable, IsValidIp, Rekeyed;
    var zone, p := Get(m, Zone), RotateUntil(keep, index, m, id, oldSecret, newSecret, r);
    NothingRekeyed(r.leases, zone, oldSecret, newSecret);
    if index == |keep| {
      assert keep[index..p.count] == [];
    } else {
      var call := RotateSecret(keep[index], m, id, oldSecret, newSecret, r);
      RotateCall(keep[index], m, id, oldSecret, newSecret, r);
      if call.address.None? {
        assert keep[index..p.count] == [];
      } else {
        RotatePrefix(keep, index + 1, m, id, oldSecret, newSecret, call.reg);
        if p.reg.tally.lost == r.tally.lost {
          assert keep[index..p.count][1..] == keep[index + 1..p.count];
          SlotsCons(zone, keep[index..p.count]);
          RekeyTwice(r.leases, call.reg.leases, p.reg.leases, {SlotOf(zone, keep[index])},
                     Slots(zone, keep[index + 1..p.count]), oldSecret, newSecret);
        }
      }
    }
  }

  lemma NothingRekeyed(leases: Leases, zone: string, oldSecret: string, newSecret: string)
    ensures Rekeyed(leases, leases, Slots(zone, []), oldSecret, newSecret)
  {
  }

  /** A rotation that goes through changes the secret of every address, and of no other. */
  lemma RotateAll(keep: seq<string>, before: Annotations, m: Annotations, id: Id, oldSecret: string, newSecret: string,
                  r: Register)
    requires RotateFrom(keep, 0, before, m, id, oldSecret, newSecret, r).ok
    ensures var end := RotateFrom(keep, 0, before, m, id, oldSecret, newSecret, r).reg;
            && Rekeyed(r.leases, end.leases, Slots(Get(m, Zone), keep), oldSecret, newSecret)
            && end.tally.lost == r.tally.lost && end.tally.deletesFailed == r.tally.deletesFailed
  {
    hide RotateFrom, RotateUntil, Rekeyed, Sendable, IsValidIp;
    RotateSplit(keep, 0, before, m, id, oldSecret, newSecret, r);
    RotatePrefix(keep, 0, m, id, oldSecret, newSecret, r);
    assert keep[0..|keep|] == keep;
  }

  /** A rotation that ends after `k` addresses is undone: none was rotated, or the two values agree, or it was just one
      and the stored annotations let the revert be sent. */
  predicate Undone(k: nat, before: Annotations, oldSecret: string, newSecret: string) {
    k == 0 || oldSecret == newSecret || (k == 1 && Sendable(before))
  }

  /** Among the POSTs of a failed rotation none fails but the one that ends it. */
  predicate RevertAnswered(keep: seq<string>, before: Annotations, m: Annotations, id: Id, oldSecret: string,
                           newSecret: string, r: Register)
  {
    var p := RotateUntil(keep, 0, m, id, oldSecret, newSecret, r);
    p.count < |keep| ==>
      RotateFrom(keep, 0, before, m, id, oldSecret, newSecret, r).reg.tally.postsFailed
      <= r.tally.postsFailed + if IsValidIp(keep[p.count]) then 1 else 0
  }

  /** A rotation that fails, with the revert answered if it was sent, leaves the register as it was iff it is undone:
      a rotation that fails at the third address or later never is, unless the two values agree. */
  lemma RotationAtomic(keep: seq<string>, before: Annotations, m: Annotations, id: Id,
                       oldSecret: string, newSecret: string, r: Register)
    requires Get(before, Zone) == Get(m, Zone) && RevertAnswered(keep, before, m, id, oldSecret, newSecret, r)
    requires var end := RotateFrom(keep, 0, before, m, id, oldSecret, newSecret, r);
             !end.ok && end.reg.tally.lost == r.tally.lost
    ensures var k := RotateUntil(keep, 0, m, id, oldSecret, newSecret, r).count;
            var end := RotateFrom(keep, 0, before, m, id, oldSecret, newSecret, r).reg;
            && (end.leases == r.leases <==> Undone(k, before, oldSecret, newSecret))
            && (!Undone(k, before, oldSecret, newSecret) ==>
                  Rekeyed(r.leases, end.leases, Slots(Get(m, Zone), keep[..k]), oldSecret, newSecret))
  {
    hide RotateFrom, RotateUntil, RotateSecret, Sendable, IsValidIp, Rekeyed;
    var zone, p := Get(m, Zone), RotateUntil(keep, 0, m, id, oldSecret, newSecret, r);
    var end := RotateFrom(keep, 0, before, m, id, oldSecret, newSecret, r).reg;
    RotateSplit(keep, 0, before, m, id, oldSecret, newSecret, r);
    RotatePrefix(keep, 0, m, id, oldSecret, newSecret, r);
    assert keep[0..p.count] == keep[..p.count];
    if p.count == 1 {
      RotateCall(keep[0], before, id, newSecret, oldSecret, p.reg);
      assert keep[..1] == [keep[0]];
      assert Slots(zone, [keep[0]]) == {SlotOf(zone, keep[0])};
      var revert := RotateSecret(keep[0], before, id, newSecret, oldSecret, p.reg);
      RevertOutcome(SlotOf(zone, keep[0]), r.leases, p.reg.leases, revert, Sendable(before), oldSecret, newSecret);
    } else if p.count == 0 {
      assert keep[..0] == [];
      NoneRekeyed(r.leases, p.reg.leases, zone, oldSecret, newSecret);
    } else {
      assert keep[..p.count][0] in keep[..p.count];
      SlotsHas(zone, keep[..p.count], keep[0]);
      Moved(r.leases, p.reg.leases, Slots(zone, keep[..p.count]), SlotOf(zone, keep[0]), oldSecret, newSecret);
    }
  }

  lemma NoneRekeyed(l0: Leases, l1: Leases, zone: string, oldSecret: string, newSecret: string)
    requires Rekeyed(l0, l1, Slots(zone, []), oldSecret, newSecret)
    ensures l0 == l1
  {
    forall s ensures SameAt(l0, l1, s) {
    }
    SameLeases(l0, l1);
  }

  /** Changing the secret of some slots changes nothing iff the two values agree. */
  lemma Moved(l0: Leases, l1: Leases, S: set<Slot>, slot: Slot, oldSecret: string, newSecret: string)
    requires Rekeyed(l0, l1, S, oldSecret, newSecret) && slot in S
    ensures l0 == l1 <==> oldSecret == newSecret
  {
    assert HeldUnder(l0, slot, oldSecret) && HeldUnder(l1, slot, newSecret);
    if oldSecret == newSecret {
      forall s ensures SameAt(l0, l1, s) {
        assert s in S ==> HeldUnder(l0, s, oldSecret) && HeldUnder(l1, s, newSecret) && l0[s].members == MembersAt(l1, s);
      }
      SameLeases(l0, l1);
    }
  }

  lemma RevertOutcome(slot: Slot, l0: Leases, l1: Leases, revert: Answer, sent: bool, oldSecret: string, newSecret: string)
    requires Rekeyed(l0, l1, {slot}, oldSecret, newSecret)
    requires sent ==> revert.address.Some? && Rekeyed(l1, revert.reg.leases, {slot}, newSecret, oldSecret)
    requires !sent ==> revert.reg.leases == l1
    ensures revert.reg.leases == l0 <==> sent || oldSecret == newSecret
  {
    if sent {
      RekeyBack(l0, l1, revert.reg.leases, {slot}, oldSecret, newSecret);
    } else {
      Moved(l0, l1, {slot}, slot, oldSecret, newSecret);
    }
  }

  // ---------------------------------------------------------------- rejected updates

  predicate HeldBy(leases: Leases, s: Slot, id: Id, secret: string) {
    Member(leases, s, id) && leases[s].secret == secret
  }

  /** A failed rotation of the kept addresses is undone. */
  predicate RotationUndone(p: Plan, r: Register, id: Id) {
    var v := ValidateEach(p.added, p.after, id, p.newSecret, r).reg;
    Undone(RotateUntil(p.kept, 0, p.after, id, p.oldSecret, p.newSecret, v).count, p.before, p.oldSecret, p.newSecret)
  }

  /** An early rejection sends a release of the first new address. */
  predicate FirstSent(p: Plan) {
    p.added != [] && Sendable(p.after) && IsValidIp(p.added[0])
  }

  /** How many new addresses an early rejection has validated. */
  function EarlyCount(p: Plan, r: Register, id: Id): (k: nat)
    ensures k <= |p.added|
  {
    if Get(p.before, Zone) != Get(p.after, Zone) && p.kept != [] then 0
    else ValidateEach(p.added, p.after, id, p.newSecret, r).count
  }

  /** The addresses validated before an early rejection, but for the first one, which is released, were held already. */
  predicate RestHeld(p: Plan, k: nat, id: Id, l0: Leases)
    requires k <= |p.added|
  {
    forall a | a in p.added[..k] :: a == p.added[0] || Member(l0, SlotOf(Get(p.after, Zone), a), id)
  }

  /** What a rejected update gives back of the addresses `added` that the mutating hook leased, `l0` being the leases
      before that hook. An early rejection releases the first new address: no other may be fresh, that one may not have
      been held before, and what was validated besides must have been. A failed rotation releases all new addresses. */
  predicate GivesBack(p: Plan, r: Register, added: seq<string>, id: Id, l0: Leases) {
    if RejectedEarly(p, r, id) then
      && (forall a | a in added :: FirstSent(p) && a == p.added[0])
      && !(FirstSent(p) && HeldBy(l0, SlotOf(Get(p.after, Zone), p.added[0]), id, p.newSecret))
      && RestHeld(p, EarlyCount(p, r, id), id, l0)
    else
      && (forall a | a in added :: a in p.added)
      && NoneHeld(l0, Get(p.after, Zone), p.added, id)
      && RotationUndone(p, r, id)
  }

  /** The zone guard or the validation of the new addresses rejects. */
  predicate RejectedEarly(p: Plan, r: Register, id: Id) {
    (Get(p.before, Zone) != Get(p.after, Zone) && p.kept != [])
    || ValidateEach(p.added, p.after, id, p.newSecret, r).count < |p.added|
  }

  /** An early rejection: the register it comes to before the release, and the release. */
  lemma EarlyEnd(id: Id, p: Plan, r: Register) returns (from: Register)
    requires RejectedEarly(p, r, id)
    ensures !UpdateLeases(id, p, r).ok
    ensures Progress(EarlyCount(p, r, id), from) in {Progress(0, r), ValidateEach(p.added, p.after, id, p.newSecret, r)}
    ensures UpdateLeases(id, p, r).reg
         == if p.added == [] then r else RemoveAddress(p.added[0], p.after, id, p.newSecret, from).reg
  {
    hide ValidateEach, RemoveAddress;
    from := if Get(p.before, Zone) != Get(p.after, Zone) && p.kept != [] then r
            else ValidateEach(p.added, p.after, id, p.newSecret, r).reg;
  }

  /** A release that is delivered: nothing happens to a membership under another secret. */
  lemma FirstReleased(a: string, m: Annotations, id: Id, secret: string, r: Register)
    requires IsValidIp(a) && Sendable(m)
    requires RemoveAddress(a, m, id, secret, r).reg.tally.deletesFailed == r.tally.deletesFailed
    ensures var slot := SlotOf(Get(m, Zone), a);
            var end := RemoveAddress(a, m, id, secret, r).reg.leases;
            if Member(r.leases, slot, id) && !HeldBy(r.leases, slot, id, secret) then end == r.leases
            else Dropped(r.leases, end, {slot}, id)
  {
    hide RemoveAddress, Sendable, IsValidIp, Dropped;
    M.ReleaseOutcome(a, m, id, secret, r);
    var slot := SlotOf(Get(m, Zone), a);
    if !(Member(r.leases, slot, id) && !HeldBy(r.leases, slot, id, secret)) {
      RemoveOutcome(a, m, id, secret, r);
    }
  }

  lemma MemberSame(l0: Leases, l1: Leases, s: Slot, id: Id)
    ensures SameAt(l0, l1, s) ==> (Member(l0, s, id) <==> Member(l1, s, id))
  {
  }

  /** After a grant, an enlisting and the release of one slot: nothing has changed iff no other slot was granted, that
      one was not held under the secret, and the other enlisted ones were. */
  lemma EarlyIff(l0: Leases, l1: Leases, l2: Leases, l3: Leases, granted: set<Slot>, S: set<Slot>, slot: Slot,
                 secret: string, id: Id)
    requires GrantedTo(l0, l1, granted, secret, id) && Enlisted(l1, l2, S, secret, id) && (S == {} || slot in S)
    requires if Member(l2, slot, id) && !HeldBy(l2, slot, id, secret) then l3 == l2 else Dropped(l2, l3, {slot}, id)
    ensures l3 == l0
       <==> granted <= {slot} && !HeldBy(l0, slot, id, secret) && forall s | s in S :: s == slot || Member(l0, s, id)
  {
    forall s | s != slot ensures SameAt(l2, l3, s) {
    }
    SlotRestored(l0, l1, l2, l3, granted, S, slot, secret, id);
    forall s | s != slot ensures SameAt(l0, l3, s) <==> s !in granted && (s in S ==> Member(l0, s, id)) {
      OtherRestored(l0, l1, l2, granted, S, s, secret, id);
      assert SameAt(l2, l3, s);
    }
    if forall s :: SameAt(l0, l3, s) {
      SameLeases(l0, l3);
    }
  }

  lemma SlotRestored(l0: Leases, l1: Leases, l2: Leases, l3: Leases, granted: set<Slot>, S: set<Slot>, slot: Slot,
                     secret: string, id: Id)
    requires GrantedTo(l0, l1, granted, secret, id) && Enlisted(l1, l2, S, secret, id) && (S == {} || slot in S)
    requires if Member(l2, slot, id) && !HeldBy(l2, slot, id, secret) then l3 == l2 else Dropped(l2, l3, {slot}, id)
    ensures SameAt(l0, l3, slot) <==> !HeldBy(l0, slot, id, secret)
  {
    assert slot !in granted ==> SameAt(l0, l1, slot);
    assert slot in granted ==> slot !in l0 && l1[slot] == Lease(secret, {id});
    if slot in S {
      assert HeldUnder(l2, slot, secret) && l2[slot].members == MembersAt(l1, slot) + {id};
      assert slot in l1 ==> l1[slot].secret == secret;
    } else {
      assert SameAt(l1, l2, slot);
    }
    if !(Member(l2, slot, id) && !HeldBy(l2, slot, id, secret)) {
      assert slot in {slot} && (!Member(l2, slot, id) ==> SameAt(l2, l3, slot));
    }
  }

  lemma OtherRestored(l0: Leases, l1: Leases, l2: Leases, granted: set<Slot>, S: set<Slot>, s: Slot, secret: string, id: Id)
    requires GrantedTo(l0, l1, granted, secret, id) && Enlisted(l1, l2, S, secret, id)
    ensures SameAt(l0, l2, s) <==> s !in granted && (s in S ==> Member(l0, s, id))
  {
    assert s !in granted ==> SameAt(l0, l1, s);
    assert s !in S ==> SameAt(l1, l2, s);
    if s in S {
      assert HeldUnder(l2, s, secret) && l2[s].members == MembersAt(l1, s) + {id};
      assert s in l1 ==> l1[s].secret == secret;
    }
  }

  /** Every update rejected by the zone guard or by a refused new address, `added` being what the mutating hook leased:
      exactly when the register is back to `l0`. */
  lemma EarlyRejection(p: Plan, added: seq<string>, id: Id, l0: Leases, r: Register)
    requires RejectedEarly(p, r, id) && M.AllFree(l0, Get(p.after, Zone), added)
    requires r.leases == M.Granted(l0, Get(p.after, Zone), added, p.newSecret, id)
    requires UpdateLeases(id, p, r).reg.tally.lost == r.tally.lost
    requires UpdateLeases(id, p, r).reg.tally.deletesFailed == r.tally.deletesFailed
    ensures !UpdateLeases(id, p, r).ok
    ensures UpdateLeases(id, p, r).reg.leases == l0 <==> GivesBack(p, r, added, id, l0)
  {
    hide ValidateEach, RemoveAddress, Sendable, IsValidIp, M.AllFree, M.Granted, Dropped, Enlisted, Member, HeldBy,
         GrantedTo, RejectedEarly, EarlyCount, UpdateLeases;
    var zone, k := Get(p.after, Zone), EarlyCount(p, r, id);
    var from := EarlyEnd(id, p, r);
    var end := UpdateLeases(id, p, r).reg;
    GrantedSlots(l0, zone, added, p.newSecret, id);
    EarlyPrefix(p, r, id, from, end);
    if FirstSent(p) {
      var a := p.added[0];
      FirstReleased(a, p.after, id, p.newSecret, from);
      PrefixSlots(p, k);
      EarlyIff(l0, r.leases, from.leases, end.leases, Slots(zone, added), Slots(zone, p.added[..k]), SlotOf(zone, a),
               p.newSecret, id);
      assert Slots(zone, [a]) == {SlotOf(zone, a)};
      SlotsWithin(zone, added, [a]);
      assert (forall x | x in added :: x in [a]) <==> (forall x | x in added :: x == a);
      RestSlots(p, k, id, l0);
    } else {
      GrantChanges(l0, zone, added, p.newSecret, id);
      assert added != [] ==> added[0] in added;
    }
  }

  /** What has been validated when an early rejection comes to its release. */
  lemma EarlyPrefix(p: Plan, r: Register, id: Id, from: Register, end: Register)
    requires Progress(EarlyCount(p, r, id), from) in {Progress(0, r), ValidateEach(p.added, p.after, id, p.newSecret, r)}
    requires end == if p.added == [] then r else RemoveAddress(p.added[0], p.after, id, p.newSecret, from).reg
    requires end.tally.lost == r.tally.lost && end.tally.deletesFailed == r.tally.deletesFailed
    ensures Enlisted(r.leases, from.leases, Slots(Get(p.after, Zone), p.added[..EarlyCount(p, r, id)]), p.newSecret, id)
    ensures p.added != [] ==> end.tally.deletesFailed == from.tally.deletesFailed
    ensures !FirstSent(p) ==> end == r && EarlyCount(p, r, id) == 0
  {
    hide ValidateEach, RemoveAddress, Sendable, IsValidIp, Enlisted, EarlyCount;
    var zone := Get(p.after, Zone);
    ValidateOutcome(p.added, p.after, id, p.newSecret, r);
    if p.added != [] {
      M.ReleaseOutcome(p.added[0], p.after, id, p.newSecret, from);
    }
    NothingEnlisted(r.leases, zone, p.newSecret, id);
    assert p.added[..0] == [];
    if !FirstSent(p) {
      NoneValidated(p, r, id);
    }
  }

  lemma NoneValidated(p: Plan, r: Register, id: Id)
    requires !FirstSent(p)
    ensures ValidateEach(p.added, p.after, id, p.newSecret, r) == Progress(0, r)
  {
    hide Sendable, IsValidIp;
  }

  lemma PrefixSlots(p: Plan, k: nat)
    requires k <= |p.added| && p.added != []
    ensures var S := Slots(Get(p.after, Zone), p.added[..k]); S == {} || SlotOf(Get(p.after, Zone), p.added[0]) in S
  {
    if k > 0 {
      assert p.added[..k][0] in p.added[..k];
    }
  }

  lemma RestSlots(p: Plan, k: nat, id: Id, l0: Leases)
    requires k <= |p.added| && p.added != []
    ensures RestHeld(p, k, id, l0)
       <==> forall s | s in Slots(Get(p.after, Zone), p.added[..k]) ::
              s == SlotOf(Get(p.after, Zone), p.added[0]) || Member(l0, s, id)
  {
    hide Member;
    var zone := Get(p.after, Zone);
    forall a | a in p.added[..k]
      ensures SlotOf(zone, a) in Slots(zone, p.added[..k])
      ensures SlotOf(zone, a) == SlotOf(zone, p.added[0]) ==> a == p.added[0]
    {
      if SlotOf(zone, a) == SlotOf(zone, p.added[0]) {
        PrefixedInjective(a, p.added[0]);
      }
    }
  }

  /** Every update rejected by a failed rotation whose revert was answered if it was sent, `added` being what the
      mutating hook leased: exactly when the register is back to `l0`. */
  lemma RotationRejection(p: Plan, added: seq<string>, id: Id, l0: Leases, r: Register)
    requires !RejectedEarly(p, r, id) && !UpdateLeases(id, p, r).ok && RotationAnswered(p, r, id)
    requires forall a | a in p.kept :: a !in p.added
    requires M.AllFree(l0, Get(p.after, Zone), added)
    requires r.leases == M.Granted(l0, Get(p.after, Zone), added, p.newSecret, id)
    requires UpdateLeases(id, p, r).reg.tally.lost == r.tally.lost
    requires UpdateLeases(id, p, r).reg.tally.deletesFailed == r.tally.deletesFailed
    ensures UpdateLeases(id, p, r).reg.leases == l0 <==> GivesBack(p, r, added, id, l0)
  {
    hide ValidateEach, ReleaseEach, RotateFrom, RotateUntil, Sendable, IsValidIp, M.AllFree, M.Granted, Dropped,
         Enlisted, Rekeyed, Member, NoneHeld, GrantedTo, RevertAnswered, UpdateLeases, RejectedEarly, Undone;
    var zone := Get(p.after, Zone);
    var S := Slots(zone, p.added);
    var v := ValidateEach(p.added, p.after, id, p.newSecret, r).reg;
    var rotated := RotateFrom(p.kept, 0, p.before, p.after, id, p.oldSecret, p.newSecret, v).reg;
    var end := ReleaseEach(p.added, p.after, id, p.newSecret, rotated);
    LateStages(p, r, id);
    RotationAtomic(p.kept, p.before, p.after, id, p.oldSecret, p.newSecret, v);
    ValidatedSecret(r.leases, v.leases, S, p.newSecret, id);
    GrantedSlots(l0, zone, added, p.newSecret, id);
    if RotationUndone(p, r, id) {
      ReleaseOutcome(p.added, p.after, id, p.newSecret, rotated);
      EnlistThenDrop(r.leases, v.leases, end.leases, S, p.newSecret, id);
      RestoredIff(l0, r.leases, end.leases, Slots(zone, added), S, p.newSecret, id);
      SlotsWithin(zone, added, p.added);
      NoneHeldSlots(l0, zone, p.added, id);
    } else {
      var k := RotateUntil(p.kept, 0, p.after, id, p.oldSecret, p.newSecret, v).count;
      var slot := SlotOf(zone, p.kept[0]);
      assert k > 0 && p.oldSecret != p.newSecret by { NotUndone(k, p.before, p.oldSecret, p.newSecret); }
      assert p.kept[..k][0] in p.kept[..k] && p.kept[0] in p.kept;
      SlotsHas(zone, p.kept[..k], p.kept[0]);
      SlotsHas(zone, p.added, p.kept[0]);
      NotInValidSlots(zone, p.kept[0], p.added);
      ReleaseElsewhere(p.added, p.after, id, p.newSecret, rotated, slot);
      HalfRotated(l0, r.leases, v.leases, rotated.leases, end.leases, Slots(zone, added), S, Slots(zone, p.kept[..k]), slot,
                  p.oldSecret, p.newSecret, id);
    }
  }

  lemma NotUndone(k: nat, before: Annotations, oldSecret: string, newSecret: string)
    requires !Undone(k, before, oldSecret, newSecret)
    ensures k > 0 && oldSecret != newSecret
  {
    hide Sendable;
  }

  /** If the secret's name changes, the revert of a failed rotation is answered if it is sent. */
  predicate RotationAnswered(p: Plan, r: Register, id: Id) {
    Get(p.before, SecretName) != Get(p.after, SecretName) ==>
      RevertAnswered(p.kept, p.before, p.after, id, p.oldSecret, p.newSecret,
                     ValidateEach(p.added, p.after, id, p.newSecret, r).reg)
  }

  /** The stages of an update that fails in its rotation. */
  lemma LateStages(p: Plan, r: Register, id: Id)
    requires !RejectedEarly(p, r, id) && !UpdateLeases(id, p, r).ok
    requires UpdateLeases(id, p, r).reg.tally.lost == r.tally.lost
    ensures var v := ValidateEach(p.added, p.after, id, p.newSecret, r).reg;
            var rotated := RotateFrom(p.kept, 0, p.before, p.after, id, p.oldSecret, p.newSecret, v);
            var end := UpdateLeases(id, p, r).reg;
            && !rotated.ok && end == ReleaseEach(p.added, p.after, id, p.newSecret, rotated.reg)
            && p.kept != [] && Get(p.before, Zone) == Get(p.after, Zone) && Get(p.before, SecretName) != Get(p.after, SecretName)
            && rotated.reg.tally.lost == v.tally.lost == r.tally.lost
            && end.tally.deletesFailed >= rotated.reg.tally.deletesFailed >= v.tally.deletesFailed == r.tally.deletesFailed
            && Enlisted(r.leases, v.leases, Slots(Get(p.after, Zone), p.added), p.newSecret, id)
            && (p.added != [] ==> Sendable(p.after)) && (forall a | a in p.added :: IsValidIp(a))
  {
    hide ValidateEach, ReleaseEach, RotateFrom, Sendable, IsValidIp, Enlisted;
    ValidateOutcome(p.added, p.after, id, p.newSecret, r);
    assert p.added[..|p.added|] == p.added;
    var v := ValidateEach(p.added, p.after, id, p.newSecret, r).reg;
    var rotated := RotateFrom(p.kept, 0, p.before, p.after, id, p.oldSecret, p.newSecret, v).reg;
    RotateTally(p.kept, 0, p.before, p.after, id, p.oldSecret, p.newSecret, v);
    ReleaseTally(p.added, p.after, id, p.newSecret, rotated);
  }

  lemma NotInValidSlots(zone: string, a: string, list: seq<string>)
    requires a !in list
    ensures SlotOf(zone, a) !in ValidSlots(zone, list)
  {
    NotReached(zone, a, zone, list);
  }

  /** A slot left under the new secret shows that nothing was restored. */
  lemma HalfRotated(l0: Leases, l1: Leases, l2: Leases, l3: Leases, l4: Leases, granted: set<Slot>, S: set<Slot>,
                    T: set<Slot>, slot: Slot, oldSecret: string, newSecret: string, id: Id)
    requires GrantedTo(l0, l1, granted, newSecret, id) && Enlisted(l1, l2, S, newSecret, id)
    requires Rekeyed(l2, l3, T, oldSecret, newSecret) && slot in T && slot !in S && SameAt(l3, l4, slot)
    requires oldSecret != newSecret
    ensures l4 != l0
  {
    assert HeldUnder(l2, slot, oldSecret) && HeldUnder(l3, slot, newSecret);
    assert SameAt(l1, l2, slot);
    if slot !in granted {
      assert SameAt(l0, l1, slot);
    }
  }

  lemma {:induction false} RotateTally(keep: seq<string>, index: nat, before: Annotations, m: Annotations, id: Id,
                                       oldSecret: string, newSecret: string, r: Register)
    requires index <= |keep|
    ensures var end := RotateFrom(keep, index, before, m, id, oldSecret, newSecret, r).reg;
            && end.tally.lost >= r.tally.lost && end.tally.deletesFailed == r.tally.deletesFailed
            && end.tally.postsFailed >= r.tally.postsFailed
    decreases |keep| - index
  {
    hide RotateSecret, Sendable, IsValidIp;
    if index < |keep| {
      var call := RotateSecret(keep[index], m, id, oldSecret, newSecret, r);
      RotateCall(keep[index], m, id, oldSecret, newSecret, r);
      if call.address.Some? {
        RotateTally(keep, index + 1, before, m, id, oldSecret, newSecret, call.reg);
      } else if index == 1 {
        RotateCall(keep[0], before, id, newSecret, oldSecret, call.reg);
      }
    }
  }

  /** The lookups of an update succeed and its IPAM annotations changed. */
  predicate UpdateReady(next: Svc, p: Plan, c: Pools.Cluster) {
    var ids := Pools.Call(c);
    var found := Pools.FetchSecret(ids.cluster, next.id, p.before);
    ids.ok && found.ok && Pools.FetchSecret(found.cluster, next.id, p.after).ok
  }

  lemma RejectedStage(prev: Svc, next: Svc, rand: string, c: Pools.Cluster, r: Register)
    requires !CheckUpdate(prev, next, false, rand, c, r).ok
    ensures var p := PlanFor(prev, next, rand, c);
            var v := CheckUpdate(prev, next, false, rand, c, r);
            if UpdateReady(next, p, c) then !UpdateLeases(next.id, p, r).ok && v.reg == UpdateLeases(next.id, p, r).reg
            else v.reg == r
  {
    hide UpdateLeases, PlanFor, UpdatePools, Pools.SecretValue, Pools.HasSecret;
  }

  /** The plan of an update in terms of the new Service, whatever it is. */
  lemma PlanBasics(prev: Svc, next: Svc, rand: string, c: Pools.Cluster)
    ensures var p := PlanFor(prev, next, rand, c);
            var list := AddressList(next.annotations);
            var olds := AddressList(IpamPart(OldAnnotations(prev, rand)));
            && p.added == Without(list, olds) && p.kept == Within(list, olds) && (forall a | a in p.kept :: a !in p.added)
            && Get(p.after, Zone) == ZoneOf(next) && Sendable(p.after) == Sendable(next.annotations)
            && p.newSecret == Pools.SecretValue(c, next.id, next.annotations)
  {
    hide AddressList, Without, Within, ParsesInt, ParsesBool, OldAnnotations, IpamPart;
    var p, list := PlanFor(prev, next, rand, c), AddressList(next.annotations);
    var olds := AddressList(IpamPart(OldAnnotations(prev, rand)));
    L.IpamGet(next.annotations, Addresses);
    L.IpamGet(next.annotations, Zone);
    L.IpamGet(next.annotations, SecretName);
    L.IpamGet(next.annotations, RetentionDays);
    L.IpamGet(next.annotations, DenyExternalCleanup);
    L.SameText(IpamPart(next.annotations), next.annotations);
    forall a | a in p.kept ensures a !in p.added {
      WithinHas(list, olds, a);
      WithoutHas(list, olds, a);
    }
  }

  /** A load balancer's new and kept addresses are at most two, distinct and valid. */
  lemma PlanShape(prev: Svc, next: Svc, rand: string, c: Pools.Cluster)
    requires ValidList(AddressList(next.annotations))
    ensures var p := PlanFor(prev, next, rand, c);
            && |p.added| <= 2 && Distinct(p.added) && |p.kept| <= 2 && Distinct(p.kept)
            && (forall a | a in p.added :: IsValidIp(a)) && (forall a | a in p.kept :: IsValidIp(a))
  {
    hide AddressList, Without, Within, Distinct, IsValidIp, CountWith, PlanFor, OldAnnotations, IpamPart, Sendable;
    var p, list := PlanFor(prev, next, rand, c), AddressList(next.annotations);
    var olds := AddressList(IpamPart(OldAnnotations(prev, rand)));
    PlanBasics(prev, next, rand, c);
    M.ValidListShape(list);
    WithoutDistinct(list, olds);
    WithinDistinct(list, olds);
    WithoutHas(list, olds, "");
    WithinHas(list, olds, "");
    forall a | a in p.added ensures IsValidIp(a) { WithoutHas(list, olds, a); }
    forall a | a in p.kept ensures IsValidIp(a) { WithinHas(list, olds, a); }
  }

  /** Every rejected update, after a mutation that leased the addresses `added`, none if the mutating hook passed the
      object over: exactly when the lease register is back to what it was before the mutating hook. */
  lemma UpdateRejection(prev: Svc, svc: Svc, rand: string, rand2: string, c: Pools.Cluster, r: Register,
                        m: Mutated, v: Verdict, p: Plan)
    requires m == Mutate(svc, false, false, rand, c, r) && m.ok
    requires v == CheckUpdate(prev, m.svc, false, rand2, m.cluster, m.reg) && !v.ok
    requires p == PlanFor(prev, m.svc, rand2, m.cluster)
    requires v.reg.tally.lost == r.tally.lost && v.reg.tally.deletesFailed == r.tally.deletesFailed
    requires UpdateReady(m.svc, p, m.cluster) && !RejectedEarly(p, m.reg, svc.id) ==> RotationAnswered(p, m.reg, svc.id)
    ensures var added := FreshOf(svc, rand, c, r);
            v.reg.leases == r.leases
            <==> if UpdateReady(m.svc, p, m.cluster) then GivesBack(p, m.reg, added, svc.id, r.leases) else added == []
  {
    hide Mutate, CheckUpdate, UpdateLeases, FreshOf, PlanFor, AddressList, M.AllFree, M.Granted, Sendable, Member,
         Pools.SecretValue, RejectedEarly, UpdateReady, GivesBack, Without, Within, RotationAnswered, OldAnnotations, IpamPart;
    var added := FreshOf(svc, rand, c, r);
    FreshFacts(svc, false, rand, c, r);
    PlanBasics(prev, m.svc, rand2, m.cluster);
    RejectedStage(prev, m.svc, rand2, m.cluster, m.reg);
    if !UpdateReady(m.svc, p, m.cluster) {
      GrantChanges(r.leases, ZoneOf(m.svc), added, p.newSecret, svc.id);
    } else if RejectedEarly(p, m.reg, svc.id) {
      EarlyRejection(p, added, svc.id, r.leases, m.reg);
    } else {
      RotationRejection(p, added, svc.id, r.leases, m.reg);
    }
  }
}
