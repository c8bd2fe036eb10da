/** Exact conditions for the assumptions of the runs: upgrades of Services that carry addresses, and pool additions
    that fail. */
module Limits {
  import opened Text
  import opened Lists
  import opened Services
  import opened Ipam
  import opened Mutation
  import opened Validation
  import opened LeaseFacts
  import opened Rollback
  import opened UpdateRollback
  import opened PoolFacts
  import opened PoolCoverage
  import opened PoolRuns
  import L = LeaseCoverage
  import Pools

  // ---------------------------------------------------------------- upgrades of Services that carry addresses

  lemma {:induction false} ReleaseAddsNothing(addrs: seq<string>, m: Annotations, id: Id, secret: string, r: Register, s: Slot)
    ensures Member(ReleaseEach(addrs, m, id, secret, r).leases, s, id) ==> Member(r.leases, s, id)
  {
    hide IsValidIp, Sendable;
    if addrs != [] {
      var first := RemoveAddress(addrs[0], m, id, secret, r).reg;
      RemoveAddsNothing(addrs[0], m, id, secret, r, s);
      ReleaseAddsNothing(addrs[1..], m, id, secret, first, s);
    }
  }

  lemma RemoveAddsNothing(a: string, m: Annotations, id: Id, secret: string, r: Register, s: Slot)
    ensures Member(RemoveAddress(a, m, id, secret, r).reg.leases, s, id) ==> Member(r.leases, s, id)
  {
    if IsValidIp(a) {
      RewriteValid(id, m, secret, None, a);
    }
  }

  /** The only leases an accepted update gains are those of its new addresses. */
  lemma UpdateGains(id: Id, p: Plan, r: Register, s: Slot)
    requires UpdateLeases(id, p, r).ok
    requires Member(UpdateLeases(id, p, r).reg.leases, s, id)
    ensures Member(r.leases, s, id) || s in Slots(Get(p.after, Zone), p.added)
  {
    hide ValidateEach, ReleaseEach, RotateFrom, IsValidIp, Sendable, Distinct, Member;
    var zone := Get(p.after, Zone);
    var v := ValidateEach(p.added, p.after, id, p.newSecret, r);
    ValidateOutcome(p.added, p.after, id, p.newSecret, r);
    assert p.added[..|p.added|] == p.added;
    var rotated := RotateKept(p.kept, p.before, p.after, id, p.oldSecret, p.newSecret, v.reg).reg;
    ReleaseAddsNothing(p.removed, p.before, id, p.oldSecret, rotated, s);
    if p.kept != [] && Get(p.before, SecretName) != Get(p.after, SecretName) {
      RotateAll(p.kept, p.before, p.after, id, p.oldSecret, p.newSecret, v.reg);
      RekeyMembers(v.reg.leases, rotated.leases, Slots(zone, p.kept[0..]), p.oldSecret, p.newSecret, s, id);
    }
    assert Member(v.reg.leases, s, id);
    if s !in Slots(zone, p.added) {
      assert SameAt(r.leases, v.reg.leases, s);
      MemberSame(r.leases, v.reg.leases, s, id);
    }
  }

  lemma RekeyMembers(l1: Leases, l2: Leases, S: set<Slot>, oldSecret: string, newSecret: string, s: Slot, id: Id)
    requires Rekeyed(l1, l2, S, oldSecret, newSecret) && Member(l2, s, id)
    ensures Member(l1, s, id)
  {
    assert s !in S ==> SameAt(l1, l2, s);
    assert s in S ==> HeldUnder(l1, s, oldSecret) && MembersAt(l1, s) == MembersAt(l2, s);
  }

  /** An accepted update that turns a Service into a load balancer: the new Service is covered iff the Service already
      holds, in the new zone, every address that it listed before. */
  lemma UpgradeCovered(prev: Svc, next: Svc, rand: string, c: Pools.Cluster, r: Register)
    requires prev.kind != LoadBalancer && next.kind == LoadBalancer && prev.id == next.id && L.Well(next)
    requires CheckUpdate(prev, next, false, rand, c, r).ok
    ensures L.Covered(next, CheckUpdate(prev, next, false, rand, c, r).reg.leases)
       <==> forall a | a in PlanFor(prev, next, rand, c).kept :: Member(r.leases, SlotOf(ZoneOf(next), a), next.id)
  {
    hide CheckUpdate, UpdateLeases, PlanFor, AddressList, Member, IsValidIp, CountWith, Distinct;
    var v, p := CheckUpdate(prev, next, false, rand, c, r), PlanFor(prev, next, rand, c);
    L.UpdateVerdict(prev, next, false, rand, c, r);
    UpgradePlan(prev, next, rand, c);
    if v.reg == r && p.before == p.after {
      assert forall a | a in AddressList(next.annotations) :: a in p.kept;
    } else {
      UpgradeLeases(next, p, r);
    }
  }

  /** The plan of an upgrade against the new list; nothing is added or removed when no IPAM annotation changed. */
  ghost predicate UpgradeFits(p: Plan, next: Svc) {
    && Get(p.after, Zone) == ZoneOf(next) && Distinct(p.kept)
    && (forall a :: a in AddressList(next.annotations) <==> a in p.added || a in p.kept)
    && (forall a :: a in p.added ==> a !in p.kept)
    && (forall a :: a in p.removed ==> a !in AddressList(next.annotations))
    && (p.before == p.after ==> p.added == [] && p.removed == [])
  }

  lemma UpgradePlan(prev: Svc, next: Svc, rand: string, c: Pools.Cluster)
    requires prev.kind != LoadBalancer && next.kind == LoadBalancer && L.Well(next)
    ensures UpgradeFits(PlanFor(prev, next, rand, c), next)
  {
    hide PlanFor, AddressList, Without, Within, IsValidIp, CountWith, OldAnnotations, Distinct, IpamPart;
    var p := PlanFor(prev, next, rand, c);
    var list, olds := AddressList(next.annotations), AddressList(IpamPart(OldAnnotations(prev, rand)));
    PlanBasics(prev, next, rand, c);
    PlanShape(prev, next, rand, c);
    RemovedFor(prev, next, rand, c);
    forall a: string
      ensures a in p.added <==> a in list && a !in olds
      ensures a in p.kept <==> a in list && a in olds
      ensures a in p.removed <==> a in olds && a !in list
    {
      WithoutHas(list, olds, a);
      WithinHas(list, olds, a);
      WithoutHas(olds, list, a);
    }
    if p.before == p.after {
      SameLists(prev, next, rand, c);
      SomeElement(p.added);
      SomeElement(p.removed);
    }
  }

  lemma SomeElement(list: seq<string>)
    ensures list != [] ==> exists a :: a in list
  {
    assert list != [] ==> list[0] in list;
  }

  lemma SameLists(prev: Svc, next: Svc, rand: string, c: Pools.Cluster)
    requires PlanFor(prev, next, rand, c).before == PlanFor(prev, next, rand, c).after
    ensures AddressList(IpamPart(OldAnnotations(prev, rand))) == AddressList(next.annotations)
  {
    hide AddressList, Without, Within, IpamPart, OldAnnotations, Pools.SecretValue;
    L.IpamGet(next.annotations, Addresses);
    L.SameText(IpamPart(next.annotations), next.annotations);
  }

  lemma UpgradeLeases(next: Svc, p: Plan, r: Register)
    requires next.kind == LoadBalancer && UpgradeFits(p, next) && UpdateLeases(next.id, p, r).ok
    ensures L.Covered(next, UpdateLeases(next.id, p, r).reg.leases)
       <==> forall a | a in p.kept :: Member(r.leases, SlotOf(ZoneOf(next), a), next.id)
  {
    hide UpdateLeases, AddressList, Member, Distinct;
    var after := UpdateLeases(next.id, p, r).reg.leases;
    UpdateLeasesAdds(next.id, p, r);
    UpdateLeasesKeeps(next.id, p, r);
    forall a | a in p.kept
      ensures Member(after, SlotOf(ZoneOf(next), a), next.id) <==> Member(r.leases, SlotOf(ZoneOf(next), a), next.id)
    {
      SlotsHas(ZoneOf(next), p.added, a);
      if Member(after, SlotOf(ZoneOf(next), a), next.id) {
        UpdateGains(next.id, p, r, SlotOf(ZoneOf(next), a));
      }
      NotReached(ZoneOf(next), a, Get(p.before, Zone), p.removed);
    }
  }

  lemma RemovedFor(prev: Svc, next: Svc, rand: string, c: Pools.Cluster)
    ensures PlanFor(prev, next, rand, c).removed
         == Without(AddressList(IpamPart(OldAnnotations(prev, rand))), AddressList(next.annotations))
  {
    hide AddressList, Without, Within, IpamPart, OldAnnotations, Pools.SecretValue;
    L.IpamGet(next.annotations, Addresses);
    L.SameText(IpamPart(next.annotations), next.annotations);
  }

  // ---------------------------------------------------------------- upgrades and the pools

  /** A removed text with exactly one LoadBalancer mention whose entry is needed in the old zone: by the Service that
      mentions it, or by the upgraded one. */
  predicate TakesAway(b: string, services: seq<Svc>, next: Svc, zone: string) {
    var x := BeforeSlash(b);
    Pools.Mentions(x, services) == 1
    && ((exists j :: 0 <= j < |services| && Mentioned(services[j], x) && ZoneOf(services[j]) == zone)
        || (x in AddressList(next.annotations) && ZoneOf(next) == zone))
  }

  /** The entry removed for a text that well-formed load balancers mention is the prefixed mention. */
  lemma RemovedEntry(b: string, services: seq<Svc>)
    requires AllWell(services) && Pools.Mentions(BeforeSlash(b), services) == 1
    ensures IsValidIp(BeforeSlash(b)) && RemoveForm(b) == Prefixed(BeforeSlash(b))
    ensures exists j :: 0 <= j < |services| && Mentioned(services[j], BeforeSlash(b))
  {
    hide AddressList, CountWith, IsValidIp, RemoveForm, Prefixed, BeforeSlash, L.Well;
    var x := BeforeSlash(b);
    if forall j | 0 <= j < |services| :: !Mentioned(services[j], x) {
      MentionsNone(x, services);
    }
    var j :| 0 <= j < |services| && Mentioned(services[j], x);
    ListedForms(services[j], x);
    RemoveFormOf(b);
  }

  /** The pool side of such an upgrade, when none of its calls fails. */
  lemma UpgradePlanPools(services: seq<Svc>, i: nat, next: Svc, p: Plan, c: Pools.Cluster)
    requires i < |services| && c.services == services && AllWell(services) && Covers(services, c)
    requires services[i].kind != LoadBalancer && next.kind == LoadBalancer && L.Well(next) && UpgradeFits(p, next)
    requires UpdatePools(p, c).faults == c.faults
    ensures Covers(services[i := next], UpdatePools(p, c))
       <==> (forall a | a in p.kept :: Prefixed(a) in Pools.PoolOf(c, ZoneOf(next)))
            && (forall b | b in p.removed :: !TakesAway(b, services, next, Get(p.before, Zone)))
  {
    hide UpdatePools, AddressList, Prefixed, L.Well, Pools.PoolOf, Orphaned, TakesAway, Uses, Pools.AddForms, Distinct;
    var oz, nz := Get(p.before, Zone), ZoneOf(next);
    var after := UpdatePools(p, c);
    if (forall a | a in p.kept :: Prefixed(a) in Pools.PoolOf(c, nz)) && (forall b | b in p.removed :: !TakesAway(b, services, next, oz)) {
      forall z, t | Needs(services[i := next], z, t) ensures t in Pools.PoolOf(after, z) {
        UpgradeStillPooled(services, i, next, p, c, z, t);
      }
    } else if a :| a in p.kept && Prefixed(a) !in Pools.PoolOf(c, nz) {
      ListedForms(next, a);
      UpdatePoolsExact(p, c, nz, Prefixed(a));
      NotAddedForm(next, p, a);
      NewNeed(services, i, next, a);
    } else {
      var b :| b in p.removed && TakesAway(b, services, next, oz);
      TakenAway(services, i, next, p, c, b);
    }
  }

  /** An accepted upgrade in which no Kubernetes call fails, from a covering state: every pool still covers iff every
      address the Service listed before is pooled in the new zone already, and no removed text takes away an entry
      that is needed in the old zone. */
  lemma UpgradePools(services: seq<Svc>, i: nat, next: Svc, rand: string, c: Pools.Cluster, r: Register, p: Plan)
    requires i < |services| && c.services == services && AllWell(services) && Covers(services, c)
    requires services[i].kind != LoadBalancer && next.kind == LoadBalancer && L.Well(next)
    requires p == PlanFor(services[i], next, rand, c)
    requires var v := CheckUpdate(services[i], next, false, rand, c, r); v.ok && v.cluster.faults == c.faults
    ensures Covers(services[i := next], CheckUpdate(services[i], next, false, rand, c, r).cluster)
       <==> (forall a | a in p.kept :: Prefixed(a) in Pools.PoolOf(c, ZoneOf(next)))
            && (forall b | b in p.removed :: !TakesAway(b, services, next, Get(p.before, Zone)))
  {
    hide CheckUpdate, UpdateLeases, UpdatePools, PlanFor, Prefixed, L.Well, TakesAway, UpgradeFits, Needs, AddressList;
    var v, c3 := CheckUpdate(services[i], next, false, rand, c, r), After3(c);
    UpgradePlan(services[i], next, rand, c);
    UpdatePoolsVerdict(services[i], next, false, rand, c, r);
    SamePools(services, c3, c);
    if v.cluster.pools == c.pools && p.before == p.after {
      assert UpdatePools(p, c) == c by { NothingToDo(p, c, next); }
      UpgradePlanPools(services, i, next, p, c);
      SamePools(services[i := next], v.cluster, c);
    } else {
      PoolsFaultsGrow(p, c3);
      UpgradePlanPools(services, i, next, p, c3);
    }
  }

  lemma NothingToDo(p: Plan, c: Pools.Cluster, next: Svc)
    requires UpgradeFits(p, next) && p.before == p.after
    ensures UpdatePools(p, c) == c
  {
  }

  lemma PoolsFaultsGrow(p: Plan, c: Pools.Cluster)
    ensures UpdatePools(p, c).faults >= c.faults
  {
    hide UpdatePools, Orphaned, Pools.AddForms;
    UpdatePoolsExact(p, c, "", "");
  }

  lemma NewNeed(services: seq<Svc>, i: nat, next: Svc, a: string)
    requires i < |services| && next.kind == LoadBalancer && a in AddressList(next.annotations)
    ensures Needs(services[i := next], ZoneOf(next), Prefixed(a))
  {
    hide AddressList, Prefixed;
    assert Uses(services[i := next][i], ZoneOf(next), Prefixed(a));
  }

  /** Kept addresses are not among the added forms. */
  lemma NotAddedForm(next: Svc, p: Plan, a: string)
    requires next.kind == LoadBalancer && L.Well(next) && UpgradeFits(p, next) && a in p.kept
    ensures Prefixed(a) !in Pools.AddForms(p.added)
  {
    hide AddressList, Prefixed, L.Well, Pools.AddForms, AddForm, Distinct;
    FormsHave(p.added, Prefixed(a));
    if Prefixed(a) in Pools.AddForms(p.added) {
      var b :| b in p.added && AddForm(b) == Prefixed(a);
      ListedForms(next, b);
      PrefixedInjective(a, b);
    }
  }

  lemma UpgradeStillPooled(services: seq<Svc>, i: nat, next: Svc, p: Plan, c: Pools.Cluster, z: string, t: string)
    requires i < |services| && c.services == services && AllWell(services) && Covers(services, c)
    requires services[i].kind != LoadBalancer && next.kind == LoadBalancer && L.Well(next) && UpgradeFits(p, next)
    requires UpdatePools(p, c).faults == c.faults
    requires forall a | a in p.kept :: Prefixed(a) in Pools.PoolOf(c, ZoneOf(next))
    requires forall b | b in p.removed :: !TakesAway(b, services, next, Get(p.before, Zone))
    requires Needs(services[i := next], z, t)
    ensures t in Pools.PoolOf(UpdatePools(p, c), z)
  {
    hide UpdatePools, AddressList, Prefixed, L.Well, Pools.PoolOf, Orphaned, TakesAway, Distinct, AddForm;
    UpdatePoolsExact(p, c, z, t);
    NeedsReplaced(services, i, next, z, t);
    var j: nat := i;
    if !Uses(next, z, t) {
      var k :| 0 <= k < |services| && k != i && Uses(services[k], z, t);
      j := k;
    }
    var svc := services[i := next][j];
    var a :| a in AddressList(svc.annotations) && Prefixed(a) == t;
    if j == i {
      ListedForms(next, a);
      FormsHave(p.added, t);
    }
    if z == Get(p.before, Zone) && Orphaned(t, p.removed, services) {
      NoOrphanNeeded(services, i, next, p, j, a);
    }
  }

  /** An entry somebody needs in the old zone is orphaned only by a text that takes it away. */
  lemma NoOrphanNeeded(services: seq<Svc>, i: nat, next: Svc, p: Plan, j: nat, a: string)
    requires i < |services| && AllWell(services) && j < |services| && L.Well(next)
    requires forall b | b in p.removed :: !TakesAway(b, services, next, Get(p.before, Zone))
    requires var svc := services[i := next][j];
             Mentioned(svc, a) && ZoneOf(svc) == Get(p.before, Zone)
    requires services[i].kind != LoadBalancer
    ensures !Orphaned(Prefixed(a), p.removed, services)
  {
    hide AddressList, Prefixed, L.Well, BeforeSlash, RemoveForm, Pools.Mentions, IsValidIp;
    forall b | b in p.removed && Pools.Mentions(BeforeSlash(b), services) == 1 && RemoveForm(b) == Prefixed(a) ensures false {
      RemovedEntry(b, services);
      PrefixedInjective(BeforeSlash(b), a);
    }
  }

  lemma TakenAway(services: seq<Svc>, i: nat, next: Svc, p: Plan, c: Pools.Cluster, b: string)
    requires i < |services| && c.services == services && AllWell(services)
    requires services[i].kind != LoadBalancer && next.kind == LoadBalancer
    requires UpdatePools(p, c).faults == c.faults
    requires b in p.removed && TakesAway(b, services, next, Get(p.before, Zone))
    ensures !Covers(services[i := next], UpdatePools(p, c))
  {
    hide UpdatePools, AddressList, Prefixed, L.Well, Pools.PoolOf, BeforeSlash, RemoveForm, Pools.Mentions, IsValidIp;
    var z, x := Get(p.before, Zone), BeforeSlash(b);
    RemovedEntry(b, services);
    assert Orphaned(Prefixed(x), p.removed, services);
    UpdatePoolsExact(p, c, z, Prefixed(x));
    NeedsReplaced(services, i, next, z, Prefixed(x));
    if j :| 0 <= j < |services| && Mentioned(services[j], x) && ZoneOf(services[j]) == z {
      assert j != i && Uses(services[j], z, Prefixed(x));
    } else {
      assert Uses(next, z, Prefixed(x));
    }
    assert Needs(services[i := next], z, Prefixed(x));
  }

  // ---------------------------------------------------------------- an accepted update whose pool addition failed

  lemma FailedAdditionPools(p: Plan, c: Pools.Cluster, z: string, t: string)
    requires p.added != [] && !Pools.AddToPool(c, Get(p.after, Zone), p.added).ok
    ensures t in Pools.PoolOf(UpdatePools(p, c), z) ==> t in Pools.PoolOf(c, z)
  {
    hide Pools.AddToPool, Pools.VerifyPool, Pools.RemoveFromPool, Orphaned, Subsequence, Distinct;
    var oz, nz := Get(p.before, Zone), Get(p.after, Zone);
    var grown := Pools.AddToPool(c, nz, p.added).cluster;
    AdditionFails(c, nz, p.added);
    PoolFaults(grown, oz, p.removed);
    var found := Pools.VerifyPool(grown, oz).cluster;
    if p.removed != [] && Pools.VerifyPool(grown, oz).ok {
      if Pools.RemoveFromPool(found, oz, p.removed).ok {
        RemovalExact(found, oz, p.removed, t);
      } else {
        RemovalFails(found, oz, p.removed);
      }
    }
  }

  /** An accepted update whose pool addition failed, in a covering state: the new Service's addresses are all pooled
      iff the new ones already were. */
  lemma FailedAddition(services: seq<Svc>, i: nat, next: Svc, p: Plan, c: Pools.Cluster)
    requires i < |services| && c.services == services && AllWell(services) && Covers(services, c) && L.Well(next)
    requires next.kind == LoadBalancer
    requires PlanFits(p, services[i], next) && (Get(p.before, Zone) != Get(p.after, Zone) ==> p.kept == [])
    requires p.added != [] && !Pools.AddToPool(c, Get(p.after, Zone), p.added).ok
    ensures (forall t :: Uses(next, ZoneOf(next), t) ==> t in Pools.PoolOf(UpdatePools(p, c), ZoneOf(next)))
       <==> (forall a | a in p.added :: Prefixed(a) in Pools.PoolOf(c, ZoneOf(next)))
  {
    hide UpdatePools, Orphaned, AddressList, Prefixed, L.Well, AddForm, Pools.AddToPool, Pools.PoolOf;
    var z := ZoneOf(next);
    forall t, a | a in AddressList(next.annotations) && Prefixed(a) == t
      ensures t in Pools.PoolOf(UpdatePools(p, c), z) <==> t in Pools.PoolOf(c, z)
      ensures a !in p.added ==> t in Pools.PoolOf(c, z)
    {
      ListedForms(next, a);
      NotOrphanedByUpdate(services, i, i, services[i], next, p, a);
      UpdatePoolsExact(p, c, z, t);
      FailedAdditionPools(p, c, z, t);
      if a !in p.added {
        EmptyInvalid(a);
        assert Uses(services[i], z, t);
        assert Needs(services, z, t);
      }
    }
    forall a | a in p.added ensures Uses(next, z, Prefixed(a)) {
    }
  }
}
