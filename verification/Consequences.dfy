/** What the rollback results come to for the cases the hooks were written for. */
module Consequences {
  import opened Text
  import opened Lists
  import opened Services
  import opened Ipam
  import opened Mutation
  import opened Validation
  import opened LeaseFacts
  import opened Rollback
  import opened UpdateRollback
  import M = MutationFacts
  import L = LeaseCoverage
  import Pools

  // ---------------------------------------------------------------- the zone guard

  /** Every accepted update of a load balancer that keeps an address keeps the zone. */
  lemma KeptAddressKeepsZone(prev: Svc, next: Svc, rand: string, c: Pools.Cluster, r: Register, a: string)
    requires prev.kind == LoadBalancer && CheckUpdate(prev, next, false, rand, c, r).ok
    requires a in AddressList(prev.annotations) && a in AddressList(next.annotations)
    ensures ZoneOf(prev) == ZoneOf(next)
  {
    hide CheckUpdate, PlanFor, AddressList, ValidateEach, RotateKept, ReleaseEach, Without, Within;
    var p := PlanFor(prev, next, rand, c);
    L.PlanLists(prev, next, rand, c);
    L.UpdateVerdict(prev, next, false, rand, c, r);
    WithinHas(AddressList(next.annotations), AddressList(prev.annotations), a);
    assert p.kept != [];
  }

  /** The two lists share no address. */
  predicate Disjoint(xs: seq<string>, ys: seq<string>) {
    forall a | a in xs :: a !in ys
  }

  /** The release of the first new address is sent and reaches a lease the Service held before the mutating hook. */
  predicate FirstHeld(p: Plan, id: Id, leases: Leases) {
    FirstSent(p) && HeldBy(leases, SlotOf(Get(p.after, Zone), p.added[0]), id, p.newSecret)
  }

  /** The fresh addresses lead the new list, which is short if there are any; without them the list may be anything. */
  lemma FreshInPlan(prev: Svc, svc: Svc, rand: string, rand2: string, c: Pools.Cluster, r: Register, m: Mutated, p: Plan)
    requires m == Mutate(svc, false, false, rand, c, r) && m.ok && p == PlanFor(prev, m.svc, rand2, m.cluster)
    requires prev.kind == LoadBalancer
    ensures var added, list, olds := FreshOf(svc, rand, c, r), AddressList(m.svc.annotations), AddressList(prev.annotations);
            && p.added == Without(list, olds) && p.kept == Within(list, olds)
            && Get(p.before, Zone) == ZoneOf(prev) && Get(p.after, Zone) == ZoneOf(m.svc)
            && added <= list && (forall a | a in added :: IsValidIp(a)) && (added != [] ==> Sendable(p.after))
            && (M.Mutates(svc, false) || added != [] ==> |list| <= 2 && Distinct(list))
  {
    hide Mutate, PlanFor, M.LeasingOf, M.Added, AddressList, WithDefaults, M.ExtendsLeases, Wants, Without, Within, Sendable,
         IsValidIp, CountWith, Distinct, M.UserList;
    L.PlanLists(prev, m.svc, rand2, m.cluster);
    PlanBasics(prev, m.svc, rand2, m.cluster);
    FreshFacts(svc, false, rand, c, r);
    if M.Mutates(svc, false) {
      M.MutateShape(svc, false, rand, c, r);
      M.ValidListShape(AddressList(m.svc.annotations));
    }
  }

  /** A zone change that keeps an address is rejected once the lookups succeed; the rejection restores the lease
      register iff no freshly leased text is an old one and the first new address was not held already. */
  lemma ZoneChangeRejected(prev: Svc, svc: Svc, rand: string, rand2: string, c: Pools.Cluster, r: Register,
                           m: Mutated, v: Verdict, p: Plan)
    requires m == Mutate(svc, false, false, rand, c, r) && m.ok
    requires v == CheckUpdate(prev, m.svc, false, rand2, m.cluster, m.reg) && p == PlanFor(prev, m.svc, rand2, m.cluster)
    requires prev.kind == LoadBalancer && ZoneOf(prev) != ZoneOf(m.svc) && p.kept != []
    requires UpdateReady(m.svc, p, m.cluster)
    requires v.reg.tally.lost == r.tally.lost && v.reg.tally.deletesFailed == r.tally.deletesFailed
    ensures !v.ok
    ensures v.reg.leases == r.leases
       <==> Disjoint(FreshOf(svc, rand, c, r), AddressList(prev.annotations)) && !FirstHeld(p, svc.id, r.leases)
  {
    hide Mutate, CheckUpdate, UpdateLeases, PlanFor, FreshOf, AddressList, Member, IsValidIp, UpdateReady, Without, Within,
         HeldBy, Sendable, ValidateEach, NoneHeld, RotationUndone, FirstSent, Distinct;
    var added := FreshOf(svc, rand, c, r);
    var list, olds := AddressList(m.svc.annotations), AddressList(prev.annotations);
    FreshInPlan(prev, svc, rand, rand2, c, r, m, p);
    if v.ok {
      WithinHas(list, olds, p.kept[0]);
      KeptAddressKeepsZone(prev, m.svc, rand2, m.cluster, m.reg, p.kept[0]);
      assert false;
    }
    UpdateRejection(prev, svc, rand, rand2, c, r, m, v, p);
    AtGuard(p, added, list, olds);
    assert p.added[..0] == [];
  }

  /** Beside a kept address there is room for one new one: fresh addresses are it iff they are no old ones. */
  lemma AtGuard(p: Plan, added: seq<string>, list: seq<string>, olds: seq<string>)
    requires p.added == Without(list, olds) && p.kept == Within(list, olds) && p.kept != [] && added <= list
    requires (forall a | a in added :: IsValidIp(a)) && (added != [] ==> Sendable(p.after) && |list| <= 2)
    ensures (forall a | a in added :: FirstSent(p) && a == p.added[0]) <==> Disjoint(added, olds)
  {
    hide Sendable, IsValidIp;
    DiffSizes(list, olds);
    forall a | a in added ensures a in list && (a in p.added <==> a !in olds) {
      WithoutHas(list, olds, a);
    }
  }

  lemma DiffSizes(news: seq<string>, olds: seq<string>)
    ensures |Without(news, olds)| + |Within(news, olds)| == |news|
  {
    DiffPartitions(news, olds);
    assert |multiset(Without(news, olds)) + multiset(Within(news, olds))| == |multiset(news)|;
  }

  // ---------------------------------------------------------------- a refused new address

  /** Fresh addresses that are not old ones lead the new addresses, in their order. */
  lemma FreshLead(added: seq<string>, list: seq<string>, olds: seq<string>)
    requires Disjoint(added, olds) && added <= list
    ensures added <= Without(list, olds)
  {
    var user := list[|added|..];
    assert list == added + user;
    WithoutAppend(added, user, olds);
    WithoutNone(added, olds);
  }

  /** In a state where the stored Service is covered, freshly leased texts are not old ones unless the update is one
      the zone guard rejects. */
  lemma FreshIsNew(prev: Svc, zone: string, leases: Leases, added: seq<string>)
    requires prev.kind == LoadBalancer && L.Covered(prev, leases) && ZoneOf(prev) == zone
    requires M.AllFree(leases, zone, added)
    ensures Disjoint(added, AddressList(prev.annotations))
  {
    hide AddressList;
  }

  /** The validation of the new addresses stops at index `k`: the register is back to what it was before the
      mutating hook iff that hook leased at most one address, the first new one was not held already, and those
      validated behind it were. So it is for every load balancer whose refused address is the user's and whose first
      new one was not held. */
  lemma RefusedAddress(prev: Svc, svc: Svc, rand: string, rand2: string, c: Pools.Cluster, r: Register,
                       m: Mutated, v: Verdict, p: Plan)
    requires m == Mutate(svc, false, false, rand, c, r) && m.ok
    requires v == CheckUpdate(prev, m.svc, false, rand2, m.cluster, m.reg) && p == PlanFor(prev, m.svc, rand2, m.cluster)
    requires prev.kind == LoadBalancer && L.Covered(prev, r.leases)
    requires UpdateReady(m.svc, p, m.cluster) && (p.kept == [] || ZoneOf(prev) == ZoneOf(m.svc)) && !v.ok
    requires ValidateEach(p.added, p.after, svc.id, p.newSecret, m.reg).count < |p.added|
    requires v.reg.tally.lost == r.tally.lost && v.reg.tally.deletesFailed == r.tally.deletesFailed
    ensures var added := FreshOf(svc, rand, c, r);
            var k := ValidateEach(p.added, p.after, svc.id, p.newSecret, m.reg).count;
            && (v.reg.leases == r.leases
                <==> |added| <= 1 && !FirstHeld(p, svc.id, r.leases) && RestHeld(p, k, svc.id, r.leases))
            && (p.added[k] !in added ==> |added| <= 1)
            && (added != [] ==> !FirstHeld(p, svc.id, r.leases))
            && (M.Mutates(svc, false) ==> RestHeld(p, k, svc.id, r.leases))
  {
    hide Mutate, CheckUpdate, UpdateLeases, PlanFor, FreshOf, AddressList, Member, IsValidIp, UpdateReady, Without, Within,
         HeldBy, Sendable, ValidateEach, NoneHeld, RotationUndone, FirstSent, Distinct, RestHeld, L.Covered, M.AllFree, M.Granted;
    var added := FreshOf(svc, rand, c, r);
    var list, olds := AddressList(m.svc.annotations), AddressList(prev.annotations);
    var k := ValidateEach(p.added, p.after, svc.id, p.newSecret, m.reg).count;
    FreshInPlan(prev, svc, rand, rand2, c, r, m, p);
    FreshFacts(svc, false, rand, c, r);
    UpdateRejection(prev, svc, rand, rand2, c, r, m, v, p);
    if ZoneOf(prev) == ZoneOf(m.svc) {
      FreshIsNew(prev, ZoneOf(m.svc), r.leases, added);
    } else {
      forall a | a in added ensures a !in olds {
        WithinHas(list, olds, a);
      }
    }
    FreshLead(added, list, olds);
    WithoutHas(list, olds, "");
    if added != [] {
      WithoutDistinct(list, olds);
    }
    AtMostFirst(p, added, k);
    FreshNotHeld(p, added, svc.id, r.leases);
    if M.Mutates(svc, false) {
      ShortRest(p, k, svc.id, r.leases);
    }
  }

  lemma FreshNotHeld(p: Plan, added: seq<string>, id: Id, leases: Leases)
    requires M.AllFree(leases, Get(p.after, Zone), added)
    ensures p.added != [] && p.added[0] in added ==> !FirstHeld(p, id, leases)
  {
    hide Sendable, IsValidIp;
  }

  lemma AtMostFirst(p: Plan, added: seq<string>, k: nat)
    requires added <= p.added && k < |p.added| && (added != [] ==> Sendable(p.after) && |p.added| <= 2 && Distinct(p.added))
    requires forall a | a in added :: IsValidIp(a)
    ensures (forall a | a in added :: FirstSent(p) && a == p.added[0]) <==> |added| <= 1
    ensures p.added[k] !in added ==> |added| <= 1
    ensures added != [] ==> p.added[0] in added
  {
    hide Sendable, IsValidIp;
    if |added| >= 2 {
      assert added[1] in added && added[1] == p.added[1] && added[0] == p.added[0];
      assert p.added == added;
    } else if |added| == 1 {
      assert added[0] in added && added[0] == p.added[0];
    }
  }

  lemma ShortRest(p: Plan, k: nat, id: Id, leases: Leases)
    requires k < |p.added| <= 2
    ensures RestHeld(p, k, id, leases)
  {
    hide Member;
  }

  // ---------------------------------------------------------------- secrets after an accepted update

  /** Every address of the Service is leased under the value its secret annotation stands for. */
  ghost predicate SecretsAgree(svc: Svc, c: Pools.Cluster, leases: Leases) {
    forall a | a in AddressList(svc.annotations) ::
      HeldUnder(leases, SlotOf(ZoneOf(svc), a), Pools.SecretValue(c, svc.id, svc.annotations))
  }

  /** The IPAM side of an accepted update leaves every new and kept address under the new secret. */
  lemma NewSecretEverywhere(id: Id, p: Plan, r: Register, a: string)
    requires UpdateLeases(id, p, r).ok
    requires forall b | b in p.kept :: b !in p.added && HeldUnder(r.leases, SlotOf(Get(p.before, Zone), b), p.oldSecret)
    requires Get(p.before, SecretName) == Get(p.after, SecretName) ==> p.oldSecret == p.newSecret
    requires (a in p.added || a in p.kept) && a !in p.removed
    ensures HeldUnder(UpdateLeases(id, p, r).reg.leases, SlotOf(Get(p.after, Zone), a), p.newSecret)
  {
    hide ValidateEach, ReleaseEach, RotateFrom, IsValidIp, Sendable;
    var zone := Get(p.after, Zone);
    var v := ValidateEach(p.added, p.after, id, p.newSecret, r);
    ValidateOutcome(p.added, p.after, id, p.newSecret, r);
    assert p.added[..|p.added|] == p.added;
    var rotated := RotateKept(p.kept, p.before, p.after, id, p.oldSecret, p.newSecret, v.reg).reg;
    SlotsHas(zone, p.added, a);
    SlotsHas(zone, p.kept, a);
    if p.kept != [] && Get(p.before, SecretName) != Get(p.after, SecretName) {
      RotateAll(p.kept, p.before, p.after, id, p.oldSecret, p.newSecret, v.reg);
    }
    assert a !in p.added ==> SameAt(r.leases, v.reg.leases, SlotOf(zone, a));
    assert HeldUnder(rotated.leases, SlotOf(zone, a), p.newSecret);
    NotReached(zone, a, Get(p.before, Zone), p.removed);
    ReleaseElsewhere(p.removed, p.before, id, p.oldSecret, rotated, SlotOf(zone, a));
  }

  /** An accepted update, with or without a change of the secret, carries agreement between the Service's secret and
      its leases over to the new Service. */
  lemma UpdateSecretsAgree(prev: Svc, next: Svc, rand: string, c: Pools.Cluster, r: Register)
    requires prev.kind == LoadBalancer && next.kind == LoadBalancer && prev.id == next.id && L.Well(next)
    requires CheckUpdate(prev, next, false, rand, c, r).ok && SecretsAgree(prev, c, r.leases)
    ensures SecretsAgree(next, c, CheckUpdate(prev, next, false, rand, c, r).reg.leases)
  {
    hide CheckUpdate, PlanFor, UpdateLeases, AddressList, Without, Within, CountWith, IsValidIp, Distinct,
         Pools.SecretValue, Pools.HasSecret;
    var v, p := CheckUpdate(prev, next, false, rand, c, r), PlanFor(prev, next, rand, c);
    var news, olds := AddressList(next.annotations), AddressList(prev.annotations);
    L.UpdateVerdict(prev, next, false, rand, c, r);
    L.PlanLists(prev, next, rand, c);
    PlanSecrets(prev, next, rand, c);
    PlanShape(prev, next, rand, c);
    if v.reg == r && p.before == p.after {
      L.UnchangedAnnotations(prev, next, rand, c);
    } else {
      L.UpdateVerdict(prev, next, false, rand, c, r);
      forall b | b in p.kept ensures b !in p.added && b in olds && b in news {
        WithoutHas(news, olds, b);
        WithinHas(news, olds, b);
      }
      if ZoneOf(prev) != ZoneOf(next) {
        KeptZone(next.id, p, r);
      }
      forall a | a in news ensures HeldUnder(v.reg.leases, SlotOf(ZoneOf(next), a), p.newSecret) {
        WithoutHas(news, olds, a);
        WithinHas(news, olds, a);
        WithoutHas(olds, news, a);
        NewSecretEverywhere(next.id, p, r, a);
      }
    }
  }

  /** The plan's secrets are the values of the two Services' secrets, the same for the same name. */
  lemma PlanSecrets(prev: Svc, next: Svc, rand: string, c: Pools.Cluster)
    requires prev.kind == LoadBalancer && prev.id == next.id
    ensures var p := PlanFor(prev, next, rand, c);
            && p.oldSecret == Pools.SecretValue(c, prev.id, prev.annotations)
            && p.newSecret == Pools.SecretValue(c, next.id, next.annotations)
            && (Get(p.before, SecretName) == Get(p.after, SecretName) ==> p.oldSecret == p.newSecret)
  {
    hide AddressList, Without, Within, IpamPart;
    L.IpamGet(prev.annotations, SecretName);
    L.IpamGet(next.annotations, SecretName);
  }

  /** An accepted update whose releases were delivered, of a covered Service whose secret agrees with its leases: the
      Service still holds a removed address iff its stored annotations do not parse. */
  lemma RemovedReleased(prev: Svc, next: Svc, rand: string, c: Pools.Cluster, r: Register, p: Plan, a: string)
    requires prev.kind == LoadBalancer && prev.id == next.id && L.Well(prev)
    requires L.Covered(prev, r.leases) && SecretsAgree(prev, c, r.leases)
    requires p == PlanFor(prev, next, rand, c) && UpdateLeases(next.id, p, r).ok && a in p.removed
    requires UpdateLeases(next.id, p, r).reg.tally.deletesFailed == r.tally.deletesFailed
    ensures Member(UpdateLeases(next.id, p, r).reg.leases, SlotOf(ZoneOf(prev), a), next.id)
       <==> !Sendable(prev.annotations)
  {
    hide PlanFor, UpdateLeases, AddressList, Without, Within, IsValidIp, CountWith, Sendable, Member,
         Pools.SecretValue, Pools.HasSecret;
    var news, olds := AddressList(next.annotations), AddressList(prev.annotations);
    L.PlanLists(prev, next, rand, c);
    PlanSecrets(prev, next, rand, c);
    SendableBefore(prev, next, rand, c);
    forall b: string
      ensures b in p.removed <==> b in olds && b !in news
      ensures b in p.added || b in p.kept ==> b in news
    {
      WithoutHas(olds, news, b);
      WithoutHas(news, olds, b);
      WithinHas(news, olds, b);
    }
    RemovedDropped(next.id, p, r);
    SlotsHas(ZoneOf(prev), p.removed, a);
  }

  lemma SendableBefore(prev: Svc, next: Svc, rand: string, c: Pools.Cluster)
    requires prev.kind == LoadBalancer
    ensures Sendable(PlanFor(prev, next, rand, c).before) == Sendable(prev.annotations)
  {
    hide AddressList, Without, Within, IpamPart, Pools.SecretValue, ParsesInt, ParsesBool;
    L.IpamGet(prev.annotations, RetentionDays);
    L.IpamGet(prev.annotations, DenyExternalCleanup);
  }

  /** The final releases of an accepted update drop the removed addresses, or none if the annotations do not parse. */
  lemma RemovedDropped(id: Id, p: Plan, r: Register)
    requires UpdateLeases(id, p, r).ok && forall a | a in p.removed :: IsValidIp(a)
    requires forall a | a in p.removed :: a !in p.added && a !in p.kept
    requires forall a | a in p.removed :: Member(r.leases, SlotOf(Get(p.before, Zone), a), id)
    requires forall a | a in p.removed :: HeldUnder(r.leases, SlotOf(Get(p.before, Zone), a), p.oldSecret)
    requires UpdateLeases(id, p, r).reg.tally.deletesFailed == r.tally.deletesFailed
    ensures forall s | s in Slots(Get(p.before, Zone), p.removed) ::
              Member(UpdateLeases(id, p, r).reg.leases, s, id) <==> !Sendable(p.before)
  {
    hide ValidateEach, ReleaseEach, RotateFrom, IsValidIp, Sendable, Member, Enlisted;
    var oz, nz := Get(p.before, Zone), Get(p.after, Zone);
    var v := ValidateEach(p.added, p.after, id, p.newSecret, r);
    ValidateOutcome(p.added, p.after, id, p.newSecret, r);
    assert p.added[..|p.added|] == p.added;
    var rotated := RotateKept(p.kept, p.before, p.after, id, p.oldSecret, p.newSecret, v.reg).reg;
    if p.kept != [] && Get(p.before, SecretName) != Get(p.after, SecretName) {
      RotateAll(p.kept, p.before, p.after, id, p.oldSecret, p.newSecret, v.reg);
    }
    var S := Slots(oz, p.removed);
    forall s | s in S ensures SameAt(r.leases, rotated.leases, s) {
      var a :| a in p.removed && s == SlotOf(oz, a);
      OtherSlots(oz, a, nz, p.added);
      OtherSlots(oz, a, nz, p.kept);
      EnlistedElsewhere(r.leases, v.reg.leases, Slots(nz, p.added), p.newSecret, id, s);
    }
    forall s | s in S ensures Member(rotated.leases, s, id) && HeldUnder(rotated.leases, s, p.oldSecret) {
      MemberSame(r.leases, rotated.leases, s, id);
    }
    L.ReleasesPostNothing(p.removed, p.before, id, p.oldSecret, rotated);
    if Sendable(p.before) {
      ReleaseOutcome(p.removed, p.before, id, p.oldSecret, rotated);
      GoneAfter(rotated.leases, ReleaseEach(p.removed, p.before, id, p.oldSecret, rotated).leases, S, id);
    }
  }

  lemma OtherSlots(zone: string, a: string, zone2: string, list: seq<string>)
    requires a !in list
    ensures SlotOf(zone, a) !in Slots(zone2, list)
  {
    forall b | b in list && SlotOf(zone, a) == SlotOf(zone2, b) ensures false {
      PrefixedInjective(a, b);
    }
  }

  lemma EnlistedElsewhere(l1: Leases, l2: Leases, S: set<Slot>, secret: string, id: Id, s: Slot)
    requires Enlisted(l1, l2, S, secret, id) && s !in S
    ensures SameAt(l1, l2, s)
  {
  }

  lemma GoneAfter(l1: Leases, l2: Leases, S: set<Slot>, id: Id)
    requires Dropped(l1, l2, S, id)
    ensures forall s | s in S :: !Member(l2, s, id)
  {
    forall s | s in S ensures !Member(l2, s, id) {
      assert !Member(l1, s, id) ==> SameAt(l1, l2, s);
    }
  }

  // ---------------------------------------------------------------- deletion

  /** A deletion whose releases were delivered, of a Service whose secret agrees with its leases: accepted, it has
      dropped the Service from exactly its addresses' leases if its annotations parse, and from none otherwise;
      rejected without a failed re-registration, it leaves the lease register as it was. */
  lemma DeleteOutcome(svc: Svc, c: Pools.Cluster, r: Register)
    requires svc.kind == LoadBalancer && L.Well(svc) && L.Covered(svc, r.leases) && SecretsAgree(svc, c, r.leases)
    requires var after := CheckDelete(svc, false, c, r).reg;
             after.tally.lost == r.tally.lost && after.tally.deletesFailed == r.tally.deletesFailed
             && after.tally.postsFailed == r.tally.postsFailed
    ensures var v := CheckDelete(svc, false, c, r);
            if v.ok && Sendable(svc.annotations)
            then Dropped(r.leases, v.reg.leases, Slots(ZoneOf(svc), AddressList(svc.annotations)), svc.id)
            else v.reg.leases == r.leases
  {
    hide ValidateEach, ReleaseEach, AddressList, Sendable, IsValidIp, CountWith, Pools.SecretValue, Pools.HasSecret,
         Pools.RemoveFromPool, Pools.VerifyAddresses, Dropped, Enlisted;
    var m, secret := svc.annotations, Pools.SecretValue(c, svc.id, svc.annotations);
    var addrs := AddressList(m);
    var S := Slots(ZoneOf(svc), addrs);
    var released := ReleaseEach(addrs, m, svc.id, secret, r);
    var again := ValidateEach(addrs, m, svc.id, secret, released);
    var v := CheckDelete(svc, false, c, r);
    ReleaseTally(addrs, m, svc.id, secret, r);
    ValidateOutcome(addrs, m, svc.id, secret, released);
    L.FailuresGrow(addrs, m, svc.id, secret, released);
    L.ReleasesPostNothing(addrs, m, svc.id, secret, r);
    if Sendable(m) {
      if v.reg == released || v.reg == again.reg {
        ReleaseOutcome(addrs, m, svc.id, secret, r);
      }
      if !v.ok && v.reg != r {
        assert addrs[..|addrs|] == addrs;
        DropThenEnlist(r.leases, released.leases, again.reg.leases, S, secret, svc.id);
      }
    }
  }

  /** A rejected deletion of a covered load balancer, no answer being lost: the Service is still covered iff the lookups
      had failed before any release, or every address that was not registered again is still held after the releases. */
  lemma DeleteStillCovered(svc: Svc, c: Pools.Cluster, r: Register)
    requires svc.kind == LoadBalancer && L.Well(svc) && L.Covered(svc, r.leases) && !CheckDelete(svc, false, c, r).ok
    requires CheckDelete(svc, false, c, r).reg.tally.lost == r.tally.lost
    ensures var v, m, secret := CheckDelete(svc, false, c, r), svc.annotations, Pools.SecretValue(c, svc.id, svc.annotations);
            var released := ReleaseEach(AddressList(m), m, svc.id, secret, r);
            var k := ValidateEach(AddressList(m), m, svc.id, secret, released).count;
            L.Covered(svc, v.reg.leases)
            <==> v.reg == r || forall a | a in AddressList(m)[k..] :: Member(released.leases, SlotOf(ZoneOf(svc), a), svc.id)
  {
    hide ValidateEach, ReleaseEach, AddressList, Sendable, IsValidIp, CountWith, Pools.SecretValue, Pools.FetchSecret,
         Pools.RemoveFromPool, Pools.VerifyAddresses, Pools.Call, Enlisted, Member;
    var m, secret := svc.annotations, Pools.SecretValue(c, svc.id, svc.annotations);
    var addrs := AddressList(m);
    var released := ReleaseEach(addrs, m, svc.id, secret, r);
    var again := ValidateEach(addrs, m, svc.id, secret, released);
    var v := CheckDelete(svc, false, c, r);
    ReleaseTally(addrs, m, svc.id, secret, r);
    ValidateOutcome(addrs, m, svc.id, secret, released);
    if v.reg != r {
      assert v.reg == again.reg;
      M.ValidListShape(addrs);
      Reregistered(addrs, again.count, ZoneOf(svc), released.leases, again.reg.leases, secret, svc.id);
    }
  }

  lemma Reregistered(addrs: seq<string>, k: nat, zone: string, l1: Leases, l2: Leases, secret: string, id: Id)
    requires k <= |addrs| && Distinct(addrs) && Enlisted(l1, l2, Slots(zone, addrs[..k]), secret, id)
    ensures (forall a | a in addrs :: Member(l2, SlotOf(zone, a), id))
       <==> forall a | a in addrs[k..] :: Member(l1, SlotOf(zone, a), id)
  {
    hide Enlisted, Member;
    forall a | a in addrs
      ensures a in addrs[..k] ==> Member(l2, SlotOf(zone, a), id)
      ensures a !in addrs[..k] ==> a in addrs[k..] && (Member(l2, SlotOf(zone, a), id) <==> Member(l1, SlotOf(zone, a), id))
    {
      SlotsHas(zone, addrs[..k], a);
      EnlistedAt(l1, l2, Slots(zone, addrs[..k]), secret, id, SlotOf(zone, a));
      assert addrs == addrs[..k] + addrs[k..];
    }
    forall a | a in addrs[k..] ensures a in addrs && a !in addrs[..k] {
    }
  }

  lemma EnlistedAt(l1: Leases, l2: Leases, S: set<Slot>, secret: string, id: Id, s: Slot)
    requires Enlisted(l1, l2, S, secret, id)
    ensures if s in S then Member(l2, s, id) else (Member(l2, s, id) <==> Member(l1, s, id))
  {
    assert s in S ==> HeldUnder(l2, s, secret);
    assert s !in S ==> SameAt(l1, l2, s);
  }
}
