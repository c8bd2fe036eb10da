/** What the hooks' calls do to lease memberships. */
module LeaseFacts {
  import opened Text
  import opened Services
  import opened Ipam
  import opened Mutation
  import opened Validation
  import M = MutationFacts
  import Pools

  // ---------------------------------------------------------------- memberships across calls

  /** No membership of another Service changes, and `id` loses no membership outside `dropped`. */
  ghost predicate Keeps(before: Leases, after: Leases, id: Id, dropped: set<Slot>) {
    && (forall s, i :: i != id ==> (Member(before, s, i) <==> Member(after, s, i)))
    && (forall s :: s !in dropped && Member(before, s, id) ==> Member(after, s, id))
  }

  lemma KeepsTwice(l1: Leases, l2: Leases, l3: Leases, id: Id, d1: set<Slot>, d2: set<Slot>)
    requires Keeps(l1, l2, id, d1) && Keeps(l2, l3, id, d2)
    ensures Keeps(l1, l3, id, d1 + d2)
  {
  }

  /** The slots of the valid addresses of a list: the only ones calls for the list can reach. */
  function ValidSlots(zone: string, list: seq<string>): set<Slot> {
    set a | a in list && IsValidIp(a) :: SlotOf(zone, a)
  }

  lemma EffectKeeps(leases: Leases, q: Request, pick: string)
    requires PostEffect(leases, q, pick).Some?
    ensures Keeps(leases, PostEffect(leases, q, pick).value.0, q.id, {})
  {
    var after := PostEffect(leases, q, pick).value.0;
    var slot := if q.address == "" then Slot(q.zone, RequestForm(pick)) else Slot(q.zone, q.address);
    assert forall s | s != slot :: s in leases <==> s in after;
    assert forall s | s != slot && s in leases :: after[s] == leases[s];
    assert slot in after && (slot in leases ==> leases[slot].members <= after[slot].members <= leases[slot].members + {q.id});
    assert slot !in leases ==> after[slot].members == {q.id};
  }

  lemma PostKeeps(q: Request, r: Register)
    ensures Keeps(r.leases, Post(q, r).reg.leases, q.id, {})
  {
    var reply := NextReply(r);
    var q' := Rewrite(q);
    assert q'.id == q.id;
    if !reply.Refused? && PostEffect(r.leases, q', reply.pick).Some? {
      EffectKeeps(r.leases, q', reply.pick);
    }
  }

  lemma DropKeeps(leases: Leases, slot: Slot, id: Id)
    ensures Keeps(leases, Drop(leases, slot, id), id, {slot})
  {
  }

  lemma RemoveKeeps(a: string, m: Annotations, id: Id, secret: string, r: Register)
    ensures Keeps(r.leases, RemoveAddress(a, m, id, secret, r).reg.leases, id, ValidSlots(Get(m, Zone), [a]))
  {
    if IsValidIp(a) {
      RewriteValid(id, m, secret, None, a);
      DropKeeps(r.leases, SlotOf(Get(m, Zone), a), id);
      assert a in [a];
    }
  }

  lemma {:induction false} ValidateKeeps(addrs: seq<string>, m: Annotations, id: Id, secret: string, r: Register)
    ensures Keeps(r.leases, ValidateEach(addrs, m, id, secret, r).reg.leases, id, {})
  {
    if addrs != [] {
      var first := UpdateAddress(addrs[0], m, id, secret, r);
      PostKeeps(RequestFor(id, m, secret, None, addrs[0]), r);
      if first.address.Some? {
        ValidateKeeps(addrs[1..], m, id, secret, first.reg);
        KeepsTwice(r.leases, first.reg.leases, ValidateEach(addrs, m, id, secret, r).reg.leases, id, {}, {});
      }
    }
  }

  lemma {:induction false} ReleaseKeeps(addrs: seq<string>, m: Annotations, id: Id, secret: string, r: Register)
    ensures Keeps(r.leases, ReleaseEach(addrs, m, id, secret, r).leases, id, ValidSlots(Get(m, Zone), addrs))
  {
    if addrs != [] {
      var first := RemoveAddress(addrs[0], m, id, secret, r).reg;
      RemoveKeeps(addrs[0], m, id, secret, r);
      ReleaseKeeps(addrs[1..], m, id, secret, first);
      KeepsTwice(r.leases, first.leases, ReleaseEach(addrs, m, id, secret, r).leases, id,
                 ValidSlots(Get(m, Zone), [addrs[0]]), ValidSlots(Get(m, Zone), addrs[1..]));
      assert ValidSlots(Get(m, Zone), [addrs[0]]) + ValidSlots(Get(m, Zone), addrs[1..]) <= ValidSlots(Get(m, Zone), addrs);
    }
  }

  lemma {:induction false} RotateKeeps(keep: seq<string>, index: nat, before: Annotations, m: Annotations, id: Id,
                                       oldSecret: string, newSecret: string, r: Register)
    requires index <= |keep|
    ensures Keeps(r.leases, RotateFrom(keep, index, before, m, id, oldSecret, newSecret, r).reg.leases, id, {})
    decreases |keep| - index
  {
    if index < |keep| {
      var call := RotateSecret(keep[index], m, id, oldSecret, newSecret, r);
      PostKeeps(RequestFor(id, m, oldSecret, Some(newSecret), keep[index]), r);
      var end := RotateFrom(keep, index, before, m, id, oldSecret, newSecret, r).reg;
      if call.address.Some? {
        RotateKeeps(keep, index + 1, before, m, id, oldSecret, newSecret, call.reg);
        KeepsTwice(r.leases, call.reg.leases, end.leases, id, {}, {});
      } else if index == 1 {
        PostKeeps(RequestFor(id, before, newSecret, Some(oldSecret), keep[0]), call.reg);
        KeepsTwice(r.leases, call.reg.leases, end.leases, id, {}, {});
      }
    }
  }

  lemma GetKeeps(family: string, m: Annotations, id: Id, secret: string, r: Register)
    ensures Keeps(r.leases, GetAddress(family, m, id, secret, r).reg.leases, id, {})
  {
    PostKeeps(Request(id, secret, None, Get(m, Zone), family, ""), r);
  }

  /** Leasing never costs a Service a lease: its compensation only gives up what the same run has just granted. */
  lemma LeasingKeeps(m: Annotations, id: Id, secret: string, r: Register)
    ensures Keeps(r.leases, LeaseMissing(m, id, secret, r).reg.leases, id, {})
  {
    var four := LeaseFour(m, id, secret, r);
    GetKeeps(IPV4_FAMILY, m, id, secret, r);
    if four.ok {
      if four.fresh4.Some? {
        M.GrantFacts(IPV4_FAMILY, m, id, secret, r);
      }
      SixKeeps(four, id, secret, r.leases);
    }
  }

  lemma SixKeeps(four: Leasing, id: Id, secret: string, leases: Leases)
    requires Keeps(leases, four.reg.leases, id, {})
    requires four.fresh4.Some? ==>
               var t := four.fresh4.value;
               var a := BeforeSlash(t);
               IsValidIp(a) && (t == a || t == Prefixed(a)) && SlotOf(Get(four.annotations, Zone), a) !in leases
    ensures Keeps(leases, LeaseSix(four, id, secret).reg.leases, id, {})
  {
    var m := four.annotations;
    var answer := GetAddress(IPV6_FAMILY, m, id, secret, four.reg);
    GetKeeps(IPV6_FAMILY, m, id, secret, four.reg);
    KeepsTwice(leases, four.reg.leases, answer.reg.leases, id, {}, {});
    if four.fresh4.Some? {
      CompensationKeeps(four.fresh4.value, m, id, secret, leases, answer.reg);
    }
  }

  lemma CompensationKeeps(t: string, m: Annotations, id: Id, secret: string, leases: Leases, r: Register)
    requires var a := BeforeSlash(t);
             IsValidIp(a) && (t == a || t == Prefixed(a)) && SlotOf(Get(m, Zone), a) !in leases
    requires Keeps(leases, r.leases, id, {})
    ensures Keeps(leases, RemoveAddress(t, m, id, secret, r).reg.leases, id, {})
  {
    var slots := ValidSlots(Get(m, Zone), [t]);
    RemoveKeeps(t, m, id, secret, r);
    KeepsTwice(leases, r.leases, RemoveAddress(t, m, id, secret, r).reg.leases, id, {}, slots);
    assert Prefixed(BeforeSlash(t))[|BeforeSlash(t)|] == '/';
    forall s | s in slots ensures s !in leases {
      ValidText(t);
    }
  }

  lemma MutateKeeps(svc: Svc, create: bool, dry: bool, rand: string, c: Pools.Cluster, r: Register)
    ensures Keeps(r.leases, Mutate(svc, create, dry, rand, c, r).reg.leases, svc.id, {})
  {
    var full := WithDefaults(svc.annotations, rand);
    LeasingKeeps(full, svc.id, Pools.SecretValue(c, svc.id, full), r);
  }

  // ---------------------------------------------------------------- validated means leased

  lemma UpdateLeased(a: string, m: Annotations, id: Id, secret: string, r: Register)
    requires UpdateAddress(a, m, id, secret, r).address.Some?
    ensures var after := UpdateAddress(a, m, id, secret, r).reg;
            var slot := SlotOf(Get(m, Zone), a);
            && Sendable(m) && IsValidIp(a)
            && after.leases == Enlist(r.leases, slot, secret, id)
            && (slot in r.leases ==> r.leases[slot].secret == secret)
            && after.tally == r.tally.(sent := r.tally.sent + 1)
  {
    RewriteValid(id, m, secret, None, a);
  }

  /** When every address passes, the Service holds a lease for every one of them. */
  lemma {:induction false} ValidatedLeased(addrs: seq<string>, m: Annotations, id: Id, secret: string, r: Register)
    requires ValidateEach(addrs, m, id, secret, r).count == |addrs|
    ensures forall a | a in addrs :: IsValidIp(a)
              && Member(ValidateEach(addrs, m, id, secret, r).reg.leases, SlotOf(Get(m, Zone), a), id)
  {
    if addrs != [] {
      var first := UpdateAddress(addrs[0], m, id, secret, r);
      UpdateLeased(addrs[0], m, id, secret, r);
      ValidateKeeps(addrs[1..], m, id, secret, first.reg);
      ValidatedLeased(addrs[1..], m, id, secret, first.reg);
      assert addrs == [addrs[0]] + addrs[1..];
    }
  }

  // ---------------------------------------------------------------- the IPAM side of an update

  /** An update changes only this Service's memberships. Accepted, it gives up the removed addresses in the old
      zone; rejected, the new addresses in the new zone. */
  lemma UpdateLeasesKeeps(id: Id, p: Plan, r: Register)
    ensures var u := UpdateLeases(id, p, r);
            Keeps(r.leases, u.reg.leases, id,
                  if u.ok then ValidSlots(Get(p.before, Zone), p.removed) else ValidSlots(Get(p.after, Zone), p.added))
  {
    var zone := Get(p.after, Zone);
    if p.added != [] {
      assert ValidSlots(zone, [p.added[0]]) <= ValidSlots(zone, p.added);
    }
    if Get(p.before, Zone) != zone && p.kept != [] {
      if p.added != [] {
        RemoveKeeps(p.added[0], p.after, id, p.newSecret, r);
      }
    } else {
      var checked := ValidateEach(p.added, p.after, id, p.newSecret, r);
      ValidateKeeps(p.added, p.after, id, p.newSecret, r);
      if checked.count < |p.added| {
        RemoveKeeps(p.added[0], p.after, id, p.newSecret, checked.reg);
      } else {
        ClosingKeeps(id, p, checked.reg);
      }
    }
  }

  /** The part of an update after the new addresses have been validated. */
  function Closing(id: Id, p: Plan, r: Register): Rotated {
    var rotated := RotateKept(p.kept, p.before, p.after, id, p.oldSecret, p.newSecret, r);
    if !rotated.ok then Rotated(false, ReleaseEach(p.added, p.after, id, p.newSecret, rotated.reg))
    else Rotated(true, ReleaseEach(p.removed, p.before, id, p.oldSecret, rotated.reg))
  }

  lemma ClosingKeeps(id: Id, p: Plan, r: Register)
    ensures var u := Closing(id, p, r);
            Keeps(r.leases, u.reg.leases, id,
                  if u.ok then ValidSlots(Get(p.before, Zone), p.removed) else ValidSlots(Get(p.after, Zone), p.added))
  {
    var rotated := RotateKept(p.kept, p.before, p.after, id, p.oldSecret, p.newSecret, r);
    if p.kept != [] {
      RotateKeeps(p.kept, 0, p.before, p.after, id, p.oldSecret, p.newSecret, r);
    }
    if rotated.ok {
      ReleaseKeeps(p.removed, p.before, id, p.oldSecret, rotated.reg);
    } else {
      ReleaseKeeps(p.added, p.after, id, p.newSecret, rotated.reg);
    }
  }

  /** The zone guard: an update that gets past it with kept addresses keeps the zone. */
  lemma KeptZone(id: Id, p: Plan, r: Register)
    requires UpdateLeases(id, p, r).ok && Get(p.before, Zone) != Get(p.after, Zone)
    ensures p.kept == []
  {
  }

  /** After an accepted update the Service holds every new address in the new zone. */
  lemma UpdateLeasesAdds(id: Id, p: Plan, r: Register)
    requires UpdateLeases(id, p, r).ok
    requires forall a | a in p.added :: a !in p.removed
    ensures Get(p.before, Zone) != Get(p.after, Zone) ==> p.kept == []
    ensures forall a | a in p.added :: IsValidIp(a)
              && Member(UpdateLeases(id, p, r).reg.leases, SlotOf(Get(p.after, Zone), a), id)
  {
    var checked := ValidateEach(p.added, p.after, id, p.newSecret, r);
    ValidatedLeased(p.added, p.after, id, p.newSecret, r);
    ClosingKeeps(id, p, checked.reg);
    forall a | a in p.added ensures SlotOf(Get(p.after, Zone), a) !in ValidSlots(Get(p.before, Zone), p.removed) {
      NotReached(Get(p.after, Zone), a, Get(p.before, Zone), p.removed);
    }
  }

  /** Calls for a list never reach the slot of an address that is not on it. */
  lemma NotReached(zone: string, a: string, zone2: string, list: seq<string>)
    requires a !in list
    ensures SlotOf(zone, a) !in ValidSlots(zone2, list)
  {
    forall b | b in list && SlotOf(zone, a) == SlotOf(zone2, b) ensures false {
      PrefixedInjective(a, b);
    }
  }
}
