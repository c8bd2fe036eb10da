/** What the hooks' hand-written compensations restore. */
module Rollback {
  import opened Text
  import opened Lists
  import opened Services
  import opened Ipam
  import opened Mutation
  import opened Validation
  import opened LeaseFacts
  import M = MutationFacts
  import Pools

  // ---------------------------------------------------------------- enlisting and dropping, slot by slot

  function MembersAt(leases: Leases, s: Slot): set<Id> {
    if s in leases then leases[s].members else {}
  }

  predicate SameAt(l1: Leases, l2: Leases, s: Slot) {
    (s in l1 <==> s in l2) && (s in l1 ==> l1[s] == l2[s])
  }

  predicate HeldUnder(leases: Leases, s: Slot, secret: string) {
    s in leases && leases[s].secret == secret
  }

  /** `after` is `before` with `id` enlisted under `secret` in the slots of `S` and nothing else changed. */
  ghost predicate Enlisted(before: Leases, after: Leases, S: set<Slot>, secret: string, id: Id) {
    && (forall s :: s !in S ==> SameAt(before, after, s))
    && (forall s :: s in S ==> HeldUnder(after, s, secret) && after[s].members == MembersAt(before, s) + {id})
    && (forall s :: s in S && s in before ==> before[s].secret == secret)
  }

  /** `after` is `before` with `id` dropped from the slots of `S`, freed ones gone, and nothing else changed. */
  ghost predicate Dropped(before: Leases, after: Leases, S: set<Slot>, id: Id) {
    && (forall s :: s !in S || !Member(before, s, id) ==> SameAt(before, after, s))
    && (forall s :: s in S && Member(before, s, id) ==>
          if before[s].members == {id} then s !in after
          else s in after && after[s].secret == before[s].secret && after[s].members == before[s].members - {id})
  }

  lemma SameLeases(l1: Leases, l2: Leases)
    requires forall s :: SameAt(l1, l2, s)
    ensures l1 == l2
  {
    forall s ensures (s in l1 <==> s in l2) && (s in l1 ==> l1[s] == l2[s]) {
      assert SameAt(l1, l2, s);
    }
  }

  /** Dropping what was enlisted amounts to dropping it from the original. */
  lemma EnlistThenDrop(l1: Leases, l2: Leases, l3: Leases, S: set<Slot>, secret: string, id: Id)
    requires Enlisted(l1, l2, S, secret, id) && Dropped(l2, l3, S, id)
    ensures Dropped(l1, l3, S, id)
  {
    forall s | s in S && !Member(l1, s, id) ensures SameAt(l1, l3, s) {
      assert Member(l2, s, id);
      assert l2[s].members - {id} == MembersAt(l1, s);
    }
    forall s | s in S && Member(l1, s, id) ensures l2[s].members == l1[s].members {
      assert Member(l2, s, id);
    }
    assert forall s :: s !in S ==> SameAt(l1, l2, s) && SameAt(l2, l3, s);
  }

  /** Enlisting again what was dropped gives the original back, if it was held under that secret. */
  lemma DropThenEnlist(l1: Leases, l2: Leases, l3: Leases, S: set<Slot>, secret: string, id: Id)
    requires Dropped(l1, l2, S, id) && Enlisted(l2, l3, S, secret, id)
    requires forall s :: s in S ==> Member(l1, s, id) && l1[s].secret == secret
    ensures l3 == l1
  {
    forall s ensures SameAt(l1, l3, s) {
      if s in S {
        assert Member(l1, s, id);
        assert MembersAt(l2, s) == l1[s].members - {id};
      } else {
        assert SameAt(l1, l2, s) && SameAt(l2, l3, s);
      }
    }
    SameLeases(l1, l3);
  }

  lemma EnlistTwice(l1: Leases, l2: Leases, l3: Leases, S: set<Slot>, T: set<Slot>, secret: string, id: Id)
    requires Enlisted(l1, l2, S, secret, id) && Enlisted(l2, l3, T, secret, id)
    ensures Enlisted(l1, l3, S + T, secret, id)
  {
    forall s ensures s in S && s !in T ==> SameAt(l2, l3, s)
    ensures s !in S ==> SameAt(l1, l2, s)
    ensures s !in S + T ==> SameAt(l1, l3, s) {
      assert s !in T ==> SameAt(l2, l3, s);
    }
  }

  lemma DropTwice(l1: Leases, l2: Leases, l3: Leases, S: set<Slot>, T: set<Slot>, id: Id)
    requires Dropped(l1, l2, S, id) && Dropped(l2, l3, T, id)
    ensures Dropped(l1, l3, S + T, id)
  {
    forall s ensures SameAt(l1, l2, s) || Member(l1, s, id)
             ensures SameAt(l2, l3, s) || Member(l2, s, id)
             ensures s in S && Member(l1, s, id) ==> SameAt(l2, l3, s)
    {
      assert s !in S || !Member(l1, s, id) ==> SameAt(l1, l2, s);
      assert s !in T || !Member(l2, s, id) ==> SameAt(l2, l3, s);
      assert s in S && Member(l1, s, id) ==> !Member(l2, s, id);
    }
  }

  // ---------------------------------------------------------------- the calls

  function Slots(zone: string, list: seq<string>): set<Slot> {
    set a | a in list :: SlotOf(zone, a)
  }

  lemma SlotsHas(zone: string, list: seq<string>, a: string)
    ensures SlotOf(zone, a) in Slots(zone, list) <==> a in list
  {
    forall b | b in list && SlotOf(zone, a) == SlotOf(zone, b) ensures a == b {
      PrefixedInjective(a, b);
    }
  }

  lemma SlotsCons(zone: string, list: seq<string>)
    requires list != []
    ensures Slots(zone, list) == {SlotOf(zone, list[0])} + Slots(zone, list[1..])
  {
    assert forall a :: a in list <==> a == list[0] || a in list[1..];
  }

  /** A failed validation call that was not lost changes no lease; a successful one enlists. */
  lemma UpdateOutcome(a: string, m: Annotations, id: Id, secret: string, r: Register)
    ensures var call := UpdateAddress(a, m, id, secret, r);
            && call.reg.tally.lost >= r.tally.lost && call.reg.tally.deletesFailed == r.tally.deletesFailed
            && call.reg.tally.postsFailed >= r.tally.postsFailed
            && (call.address.None? && call.reg.tally.lost == r.tally.lost ==> call.reg.leases == r.leases)
            && (call.address.Some? ==> IsValidIp(a) && Sendable(m) && call.reg.tally.lost == r.tally.lost)
            && (call.address.Some? ==> call.reg.tally.postsFailed == r.tally.postsFailed)
            && (call.address.Some? ==> Enlisted(r.leases, call.reg.leases, {SlotOf(Get(m, Zone), a)}, secret, id))
  {
    hide IsValidIp, Sendable, Rewrite;
    if IsValidIp(a) {
      RewriteValid(id, m, secret, None, a);
    }
  }

  /** The validated addresses, and only they, have been enlisted. */
  lemma {:induction false} ValidateOutcome(addrs: seq<string>, m: Annotations, id: Id, secret: string, r: Register)
    ensures var p := ValidateEach(addrs, m, id, secret, r);
            && p.reg.tally.lost >= r.tally.lost && p.reg.tally.deletesFailed == r.tally.deletesFailed
            && p.reg.tally.postsFailed >= r.tally.postsFailed
            && (p.count == |addrs| ==> p.reg.tally.lost == r.tally.lost && p.reg.tally.postsFailed == r.tally.postsFailed)
            && (p.reg.tally.lost == r.tally.lost ==>
                  Enlisted(r.leases, p.reg.leases, Slots(Get(m, Zone), addrs[..p.count]), secret, id))
            && (p.count > 0 ==> Sendable(m)) && (forall a | a in addrs[..p.count] :: IsValidIp(a))
  {
    hide UpdateAddress, Enlisted, IsValidIp, Sendable;
    var p := ValidateEach(addrs, m, id, secret, r);
    var zone := Get(m, Zone);
    if addrs == [] {
      NothingEnlisted(r.leases, zone, secret, id);
      assert addrs[..p.count] == [];
    } else {
      var first := UpdateAddress(addrs[0], m, id, secret, r);
      UpdateOutcome(addrs[0], m, id, secret, r);
      if first.address.None? {
        NothingEnlisted(r.leases, zone, secret, id);
        assert addrs[..p.count] == [];
      } else {
        var rest := ValidateEach(addrs[1..], m, id, secret, first.reg);
        ValidateOutcome(addrs[1..], m, id, secret, first.reg);
        assert addrs[..p.count][1..] == addrs[1..][..rest.count];
        assert addrs[..p.count] == [addrs[0]] + addrs[1..][..rest.count];
        SlotsCons(zone, addrs[..p.count]);
        if rest.reg.tally.lost == r.tally.lost {
          EnlistTwice(r.leases, first.reg.leases, rest.reg.leases, {SlotOf(zone, addrs[0])},
                      Slots(zone, addrs[1..][..rest.count]), secret, id);
        }
      }
    }
  }

  lemma NothingEnlisted(leases: Leases, zone: string, secret: string, id: Id)
    ensures Enlisted(leases, leases, Slots(zone, []), secret, id)
    ensures Dropped(leases, leases, Slots(zone, []), id)
  {
  }

  /** A release call that is delivered drops the membership if the secret is the lease's. */
  lemma RemoveOutcome(a: string, m: Annotations, id: Id, secret: string, r: Register)
    requires IsValidIp(a) && Sendable(m)
    requires Member(r.leases, SlotOf(Get(m, Zone), a), id) ==> r.leases[SlotOf(Get(m, Zone), a)].secret == secret
    requires RemoveAddress(a, m, id, secret, r).reg.tally.deletesFailed == r.tally.deletesFailed
    ensures Dropped(r.leases, RemoveAddress(a, m, id, secret, r).reg.leases, {SlotOf(Get(m, Zone), a)}, id)
  {
    hide RemoveAddress, IsValidIp, Sendable;
    M.ReleaseOutcome(a, m, id, secret, r);
  }

  lemma RemoveElsewhere(a: string, m: Annotations, id: Id, secret: string, r: Register, s: Slot)
    requires IsValidIp(a) ==> s != SlotOf(Get(m, Zone), a)
    ensures SameAt(r.leases, RemoveAddress(a, m, id, secret, r).reg.leases, s)
  {
    if IsValidIp(a) {
      RewriteValid(id, m, secret, None, a);
    }
  }

  lemma {:induction false} ReleaseElsewhere(addrs: seq<string>, m: Annotations, id: Id, secret: string, r: Register, s: Slot)
    requires s !in ValidSlots(Get(m, Zone), addrs)
    ensures SameAt(r.leases, ReleaseEach(addrs, m, id, secret, r).leases, s)
  {
    hide IsValidIp, Sendable;
    if addrs != [] {
      var first := RemoveAddress(addrs[0], m, id, secret, r).reg;
      assert IsValidIp(addrs[0]) ==> s != SlotOf(Get(m, Zone), addrs[0]);
      RemoveElsewhere(addrs[0], m, id, secret, r, s);
      ReleaseElsewhere(addrs[1..], m, id, secret, first, s);
    }
  }

  lemma {:induction false} ReleaseTally(addrs: seq<string>, m: Annotations, id: Id, secret: string, r: Register)
    ensures var after := ReleaseEach(addrs, m, id, secret, r);
            after.tally.deletesFailed >= r.tally.deletesFailed && after.tally.lost >= r.tally.lost
            && after.tally.postsFailed == r.tally.postsFailed
  {
    hide RemoveAddress;
    if addrs != [] {
      M.ReleaseOutcome(addrs[0], m, id, secret, r);
      ReleaseTally(addrs[1..], m, id, secret, RemoveAddress(addrs[0], m, id, secret, r).reg);
    }
  }

  /** Released addresses, and only they, have been dropped. */
  lemma {:induction false} ReleaseOutcome(addrs: seq<string>, m: Annotations, id: Id, secret: string, r: Register)
    requires addrs != [] ==> Sendable(m)
    requires forall a | a in addrs :: IsValidIp(a)
    requires forall s | s in Slots(Get(m, Zone), addrs) && Member(r.leases, s, id) :: r.leases[s].secret == secret
    requires ReleaseEach(addrs, m, id, secret, r).tally.deletesFailed == r.tally.deletesFailed
    ensures Dropped(r.leases, ReleaseEach(addrs, m, id, secret, r).leases, Slots(Get(m, Zone), addrs), id)
  {
    hide RemoveAddress, IsValidIp, Sendable;
    var zone := Get(m, Zone);
    if addrs == [] {
      NothingEnlisted(r.leases, zone, secret, id);
    } else {
      var first := RemoveAddress(addrs[0], m, id, secret, r).reg;
      SlotsCons(zone, addrs);
      M.ReleaseOutcome(addrs[0], m, id, secret, r);
      ReleaseTally(addrs[1..], m, id, secret, first);
      RemoveOutcome(addrs[0], m, id, secret, r);
      assert forall s :: Member(first.leases, s, id) ==> SameAt(r.leases, first.leases, s);
      ReleaseOutcome(addrs[1..], m, id, secret, first);
      DropTwice(r.leases, first.leases, ReleaseEach(addrs, m, id, secret, r).leases,
                {SlotOf(zone, addrs[0])}, Slots(zone, addrs[1..]), id);
    }
  }

  // ---------------------------------------------------------------- fresh addresses

  /** The leases after the mutating hook granted `added`: those slots were free and belong to `id` alone. */
  ghost predicate GrantedTo(before: Leases, after: Leases, S: set<Slot>, secret: string, id: Id) {
    && (forall s :: s !in S ==> SameAt(before, after, s))
    && (forall s :: s in S ==> s !in before && s in after && after[s] == Lease(secret, {id}))
  }

  lemma {:induction false} GrantedSlots(leases: Leases, zone: string, added: seq<string>, secret: string, id: Id)
    requires M.AllFree(leases, zone, added)
    ensures GrantedTo(leases, M.Granted(leases, zone, added, secret, id), Slots(zone, added), secret, id)
  {
    if added != [] {
      GrantedSlots(leases, zone, added[1..], secret, id);
      SlotsCons(zone, added);
    }
  }

  /** Dropping a set of slots after the grant restores the register iff the set covers every granted slot and the
      Service held none of the set's slots before. */
  lemma RestoredIff(l0: Leases, l1: Leases, l3: Leases, granted: set<Slot>, S: set<Slot>, secret: string, id: Id)
    requires GrantedTo(l0, l1, granted, secret, id) && Dropped(l1, l3, S, id)
    ensures l3 == l0 <==> granted <= S && forall s :: s in S ==> !Member(l0, s, id)
  {
    if s :| s in granted && s !in S {
      assert SameAt(l1, l3, s);
    } else if s :| s in S && Member(l0, s, id) {
      assert s !in granted && SameAt(l0, l1, s);
      assert Member(l1, s, id) && !Member(l3, s, id);
    } else {
      forall s ensures SameAt(l0, l3, s) {
        if s in granted {
          assert Member(l1, s, id);
        } else {
          assert SameAt(l0, l1, s);
          assert s !in S || !Member(l1, s, id);
          assert SameAt(l1, l3, s);
        }
      }
      SameLeases(l0, l3);
    }
  }

  /** No address of the list was leased to the Service. */
  predicate NoneHeld(leases: Leases, zone: string, list: seq<string>, id: Id) {
    forall a | a in list :: !Member(leases, SlotOf(zone, a), id)
  }

  lemma NoneHeldSlots(leases: Leases, zone: string, list: seq<string>, id: Id)
    ensures NoneHeld(leases, zone, list, id) <==> forall s :: s in Slots(zone, list) ==> !Member(leases, s, id)
  {
    hide Member;
    forall a | a in list ensures SlotOf(zone, a) in Slots(zone, list) {
    }
  }

  lemma SlotsWithin(zone: string, xs: seq<string>, ys: seq<string>)
    ensures Slots(zone, xs) <= Slots(zone, ys) <==> forall a | a in xs :: a in ys
  {
    forall a | a in xs ensures SlotOf(zone, a) in Slots(zone, ys) <==> a in ys {
      SlotsHas(zone, ys, a);
      SlotsHas(zone, xs, a);
    }
    forall s | s in Slots(zone, xs) ensures exists a :: a in xs && s == SlotOf(zone, a) {
    }
  }

  // ---------------------------------------------------------------- create

  /** The left-to-right validation of a creation fails: releasing the validated prefix restores the register the
      mutating hook found iff that prefix holds every freshly leased address and none that the Service held already. */
  lemma CreateRollback(addrs: seq<string>, added: seq<string>, m: Annotations, id: Id, secret: string,
                       l0: Leases, r: Register)
    requires M.AllFree(l0, Get(m, Zone), added) && r.leases == M.Granted(l0, Get(m, Zone), added, secret, id)
    requires var p := ValidateEach(addrs, m, id, secret, r);
             var end := ReleaseEach(addrs[..p.count], m, id, secret, p.reg);
             end.tally.lost == r.tally.lost && end.tally.deletesFailed == r.tally.deletesFailed
    ensures var p := ValidateEach(addrs, m, id, secret, r);
            var end := ReleaseEach(addrs[..p.count], m, id, secret, p.reg);
            end.leases == l0
            <==> (forall a | a in added :: a in addrs[..p.count]) && NoneHeld(l0, Get(m, Zone), addrs[..p.count], id)
  {
    hide ValidateEach, ReleaseEach, Member, M.AllFree, M.Granted, Enlisted, Dropped, GrantedTo, IsValidIp, Sendable;
    var zone := Get(m, Zone);
    var p := ValidateEach(addrs, m, id, secret, r);
    var prefix := addrs[..p.count];
    var end := ReleaseEach(prefix, m, id, secret, p.reg);
    ValidateOutcome(addrs, m, id, secret, r);
    ReleaseTally(prefix, m, id, secret, p.reg);
    ValidatedSecret(r.leases, p.reg.leases, Slots(zone, prefix), secret, id);
    ReleaseOutcome(prefix, m, id, secret, p.reg);
    EnlistThenDrop(r.leases, p.reg.leases, end.leases, Slots(zone, prefix), secret, id);
    GrantedSlots(l0, zone, added, secret, id);
    RestoredIff(l0, r.leases, end.leases, Slots(zone, added), Slots(zone, prefix), secret, id);
    SlotsWithin(zone, added, prefix);
    NoneHeldSlots(l0, zone, prefix, id);
  }

  /** Enlisting changes nothing iff the Service was a member of every slot already. */
  lemma EnlistNoOp(l1: Leases, l2: Leases, S: set<Slot>, secret: string, id: Id)
    requires Enlisted(l1, l2, S, secret, id)
    ensures l1 == l2 <==> forall s | s in S :: Member(l1, s, id)
  {
    forall s | s in S ensures Member(l2, s, id) {
      assert HeldUnder(l2, s, secret);
    }
    if forall s | s in S :: Member(l1, s, id) {
      forall s ensures SameAt(l1, l2, s) {
        if s in S {
          assert Member(l1, s, id) && HeldUnder(l2, s, secret);
        }
      }
      SameLeases(l1, l2);
    }
  }

  /** A creation whose addresses all pass changes the register unless nothing was leased and the Service held every
      address already. */
  lemma CreateKept(addrs: seq<string>, added: seq<string>, m: Annotations, id: Id, secret: string, l0: Leases, r: Register)
    requires M.AllFree(l0, Get(m, Zone), added) && r.leases == M.Granted(l0, Get(m, Zone), added, secret, id)
    requires ValidateEach(addrs, m, id, secret, r).count == |addrs|
    ensures ValidateEach(addrs, m, id, secret, r).reg.leases == l0
       <==> added == [] && forall a | a in addrs :: Member(l0, SlotOf(Get(m, Zone), a), id)
  {
    hide ValidateEach, Member, M.AllFree, M.Granted, Enlisted, GrantedTo, IsValidIp, Sendable;
    var zone, p := Get(m, Zone), ValidateEach(addrs, m, id, secret, r);
    ValidateOutcome(addrs, m, id, secret, r);
    assert addrs[..|addrs|] == addrs;
    GrantChanges(l0, zone, added, secret, id);
    if added == [] {
      EnlistNoOp(l0, p.reg.leases, Slots(zone, addrs), secret, id);
      forall a | a in addrs ensures SlotOf(zone, a) in Slots(zone, addrs) {
      }
    } else {
      GrantedSlots(l0, zone, added, secret, id);
      GrantStays(l0, r.leases, p.reg.leases, zone, added, addrs, secret, id);
    }
  }

  lemma GrantStays(l0: Leases, l1: Leases, l2: Leases, zone: string, added: seq<string>, addrs: seq<string>,
                   secret: string, id: Id)
    requires added != [] && GrantedTo(l0, l1, Slots(zone, added), secret, id)
    requires Enlisted(l1, l2, Slots(zone, addrs), secret, id)
    ensures l2 != l0
  {
    var s := SlotOf(zone, added[0]);
    assert added[0] in added && s in Slots(zone, added);
    assert s in Slots(zone, addrs) ==> HeldUnder(l2, s, secret);
    assert s !in Slots(zone, addrs) ==> SameAt(l1, l2, s);
  }

  lemma ValidatedSecret(l1: Leases, l2: Leases, S: set<Slot>, secret: string, id: Id)
    requires Enlisted(l1, l2, S, secret, id)
    ensures forall s | s in S && Member(l2, s, id) :: l2[s].secret == secret
  {
  }

  /** The lookups before the validation of a creation succeed. */
  predicate CreateReady(svc: Svc, c: Pools.Cluster) {
    Pools.Call(c).ok && Pools.FetchSecret(Pools.Call(c).cluster, svc.id, svc.annotations).ok
  }

  function CreateProgress(svc: Svc, c: Pools.Cluster, r: Register): Progress {
    ValidateEach(AddressList(svc.annotations), svc.annotations, svc.id, Pools.SecretValue(c, svc.id, svc.annotations), r)
  }

  /** The hooks of one admission work with the same secret value. */
  lemma SameSecret(svc: Svc, create: bool, rand: string, c: Pools.Cluster, r: Register)
    requires M.Mutates(svc, false) && Mutate(svc, create, false, rand, c, r).ok
    ensures var m, full := Mutate(svc, create, false, rand, c, r), WithDefaults(svc.annotations, rand);
            && m.cluster.secrets == c.secrets
            && Get(full, Zone) == ZoneOf(m.svc)
            && Pools.SecretValue(m.cluster, m.svc.id, m.svc.annotations) == Pools.SecretValue(c, svc.id, full)
            && Sendable(m.svc.annotations) == Sendable(full)
  {
    var m, full := Mutate(svc, create, false, rand, c, r), WithDefaults(svc.annotations, rand);
    assert m.cluster.secrets == c.secrets by {
      hide LeaseMissing, WithDefaults, Reconcilable, Pools.SecretValue, Pools.HasSecret, Exists;
    }
    hide Mutate, WithDefaults, LeaseMissing, M.LeasingOf, M.ExtendsLeases, M.Shaped, ParsesInt, ParsesBool;
    M.MutateShape(svc, create, rand, c, r);
    M.RestGet(full, m.svc.annotations, Zone);
    M.RestGet(full, m.svc.annotations, SecretName);
    M.RestGet(full, m.svc.annotations, RetentionDays);
    M.RestGet(full, m.svc.annotations, DenyExternalCleanup);
  }

  /** The addresses that the mutating hook leases; none when it passes the object over. */
  function FreshOf(svc: Svc, rand: string, c: Pools.Cluster, r: Register): seq<string> {
    if M.Mutates(svc, false) then M.Added(M.LeasingOf(svc, rand, c, r)) else []
  }

  /** What a mutation has done to the register, in the terms of the object it leaves. */
  lemma FreshFacts(svc: Svc, create: bool, rand: string, c: Pools.Cluster, r: Register)
    requires Mutate(svc, create, false, rand, c, r).ok
    ensures var m, added := Mutate(svc, create, false, rand, c, r), FreshOf(svc, rand, c, r);
            && m.svc.id == svc.id && m.cluster.secrets == c.secrets
            && m.reg.leases == M.Granted(r.leases, ZoneOf(m.svc), added,
                                         Pools.SecretValue(m.cluster, m.svc.id, m.svc.annotations), svc.id)
            && M.AllFree(r.leases, ZoneOf(m.svc), added)
            && m.reg.tally == r.tally.(sent := r.tally.sent + |added|)
            && (added != [] ==> Sendable(m.svc.annotations))
  {
    hide LeaseMissing, M.LeasingOf, M.Added, WithDefaults, M.Shaped, Sendable, Reconcilable,
         Pools.SecretValue, Pools.HasSecret, Exists, M.ExtendsText;
    if M.Mutates(svc, false) {
      hide Mutate;
      M.MutateShape(svc, create, rand, c, r);
      SameSecret(svc, create, rand, c, r);
      FreshText(WithDefaults(svc.annotations, rand), Mutate(svc, create, false, rand, c, r).svc.annotations,
                FreshOf(svc, rand, c, r));
    }
  }

  lemma FreshText(m1: Annotations, m2: Annotations, added: seq<string>)
    requires M.ExtendsText(m1, m2, added)
    ensures added != [] ==> Sendable(m1)
  {
    hide ValidList, Sendable;
  }

  /** What a rejected creation gives back, with `k` of the addresses validated: the lookups failed before anything was
      leased; or the refused address is one the user supplied and the Service held none of those before it; or, the
      pool addition having failed, everything was held already. */
  predicate CreateGivesBack(svc: Svc, c: Pools.Cluster, k: nat, added: seq<string>, l0: Leases)
    requires k <= |AddressList(svc.annotations)|
  {
    var list := AddressList(svc.annotations);
    if !CreateReady(svc, c) then added == []
    else if k < |list| then list[k] !in added && NoneHeld(l0, ZoneOf(svc), list[..k], svc.id)
    else added == [] && forall a | a in list :: Member(l0, SlotOf(ZoneOf(svc), a), svc.id)
  }

  /** Every rejected creation, after a mutation that leased the addresses `added`: exactly when the register is back to
      what it was before the mutating hook. */
  lemma CreateRejection(svc: Svc, rand: string, c: Pools.Cluster, r: Register, m: Mutated, v: Verdict)
    requires m == Mutate(svc, true, false, rand, c, r) && m.ok
    requires v == CheckCreate(m.svc, false, m.cluster, m.reg) && !v.ok
    requires v.reg.tally.lost == r.tally.lost && v.reg.tally.deletesFailed == r.tally.deletesFailed
    ensures v.reg.leases == r.leases
       <==> CreateGivesBack(m.svc, m.cluster, CreateProgress(m.svc, m.cluster, m.reg).count, FreshOf(svc, rand, c, r), r.leases)
  {
    hide Mutate, LeaseMissing, M.LeasingOf, M.Added, ValidateEach, ReleaseEach, AddressList, WithDefaults, M.AllFree,
         M.Granted, IsValidIp, CountWith, Sendable, Member, NoneHeld, Wants, Pools.SecretValue, Pools.HasSecret, Pools.AddToPool,
         Distinct;
    CreateMutated(svc, rand, c, r, m, v);
    var added, list := FreshOf(svc, rand, c, r), AddressList(m.svc.annotations);
    M.MutateShape(svc, true, rand, c, r);
    FreshFacts(svc, true, rand, c, r);
    var zone, full := ZoneOf(m.svc), WithDefaults(svc.annotations, rand);
    var secret := Pools.SecretValue(m.cluster, m.svc.id, m.svc.annotations);
    var p := CreateProgress(m.svc, m.cluster, m.reg);
    if !CreateReady(m.svc, m.cluster) {
      assert v.reg == m.reg;
      GrantChanges(r.leases, zone, added, secret, svc.id);
    } else if p.count < |list| {
      M.ValidListShape(list);
      FreshFirst(list, added, M.UserList(full), p.count);
      ReleaseTally(list[..p.count], m.svc.annotations, svc.id, secret, p.reg);
      ValidateOutcome(list, m.svc.annotations, svc.id, secret, m.reg);
      CreateRollback(list, added, m.svc.annotations, svc.id, secret, r.leases, m.reg);
    } else {
      assert v.reg == p.reg;
      CreateKept(list, added, m.svc.annotations, svc.id, secret, r.leases, m.reg);
    }
  }

  /** A creation that the mutating hook passes over is not rejected. */
  lemma CreateMutated(svc: Svc, rand: string, c: Pools.Cluster, r: Register, m: Mutated, v: Verdict)
    requires m == Mutate(svc, true, false, rand, c, r) && v == CheckCreate(m.svc, false, m.cluster, m.reg) && !v.ok
    ensures M.Mutates(svc, false)
  {
    hide LeaseMissing, WithDefaults, Reconcilable, Pools.SecretValue, Pools.HasSecret, Exists, ValidateEach, ReleaseEach,
         AddressList, Pools.AddToPool, Pools.FetchSecret;
  }

  lemma GrantChanges(leases: Leases, zone: string, added: seq<string>, secret: string, id: Id)
    requires M.AllFree(leases, zone, added)
    ensures M.Granted(leases, zone, added, secret, id) == leases <==> added == []
  {
    if added != [] {
      assert added[0] in added;
    }
  }

  /** Fresh addresses come first: a prefix of the list covers them iff the first address behind it is the user's. */
  lemma FreshFirst(list: seq<string>, added: seq<string>, user: seq<string>, k: nat)
    requires list == added + user && Distinct(list) && k < |list|
    ensures (forall a | a in added :: a in list[..k]) <==> list[k] !in added
  {
    if k < |added| {
      assert list[k] == added[k] && added[k] !in list[..k];
    } else {
      assert forall i | 0 <= i < |added| :: added[i] == list[..k][i];
      forall i | 0 <= i < |added| ensures added[i] != list[k] {
        assert added[i] == list[i];
      }
    }
  }
}
