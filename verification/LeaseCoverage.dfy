/** Lease coverage over whole runs: every address of a committed LoadBalancer Service stays leased to it. */
module LeaseCoverage {
  import opened Text
  import opened Lists
  import opened Services
  import opened Ipam
  import opened Mutation
  import opened Validation
  import opened Admission
  import opened LeaseFacts
  import M = MutationFacts
  import Pools

  predicate Well(svc: Svc) {
    svc.kind == LoadBalancer ==> ValidList(AddressList(svc.annotations))
  }

  predicate Covered(svc: Svc, leases: Leases) {
    svc.kind == LoadBalancer ==>
      forall a | a in AddressList(svc.annotations) :: Member(leases, SlotOf(ZoneOf(svc), a), svc.id)
  }

  /** Committed Services have distinct names, well-formed address lists and hold their leases. */
  predicate LeasesCover(w: World) {
    && DistinctIds(w.c.services)
    && forall i | 0 <= i < |w.c.services| :: Well(w.c.services[i]) && Covered(w.c.services[i], w.r.leases)
  }

  /** A Service that an update turns into a load balancer carries no addresses annotation text yet. */
  predicate CleanUpgrade(w: World, op: Op) {
    op.UpdateOp? ==>
      var i := IndexOf(w.c.services, op.obj.id);
      i < |w.c.services| && w.c.services[i].kind != LoadBalancer
      && M.Mutates(Submitted(op.obj, w.c.services[i].ingress), op.dry) ==>
        Get(w.c.services[i].annotations, Addresses) == ""
  }

  // ---------------------------------------------------------------- create

  lemma MutatedWell(svc: Svc, create: bool, rand: string, c: Pools.Cluster, r: Register)
    requires Mutate(svc, create, false, rand, c, r).ok
    ensures Well(Mutate(svc, create, false, rand, c, r).svc)
  {
    if M.Mutates(svc, false) {
      hide Mutate, ValidList;
      M.MutateShape(svc, create, rand, c, r);
    }
  }

  /** A creation touches only its own memberships, and an accepted load balancer holds all its addresses. */
  lemma CreateLeases(svc: Svc, dry: bool, c: Pools.Cluster, r: Register)
    ensures var v := CheckCreate(svc, dry, c, r);
            && Keeps(r.leases, v.reg.leases, svc.id, ValidSlots(ZoneOf(svc), AddressList(svc.annotations)))
            && (v.ok && !dry ==> Covered(svc, v.reg.leases))
  {
    hide ValidateEach, ReleaseEach, AddressList, Pools.SecretValue, Pools.HasSecret, Pools.AddToPool, Member;
    var m, secret := svc.annotations, Pools.SecretValue(c, svc.id, svc.annotations);
    var addrs := AddressList(m);
    var checked := ValidateEach(addrs, m, svc.id, secret, r);
    ValidateKeeps(addrs, m, svc.id, secret, r);
    if checked.count < |addrs| {
      var prefix := addrs[..checked.count];
      ReleaseKeeps(prefix, m, svc.id, secret, checked.reg);
      assert ValidSlots(Get(m, Zone), prefix) <= ValidSlots(Get(m, Zone), addrs);
    } else {
      ValidatedLeased(addrs, m, svc.id, secret, r);
    }
  }

  /** A creation under a name that is taken changes neither the leases nor the Services nor the pools. */
  lemma CreateTaken(w: World, obj: Svc, dry: bool, rand: string)
    requires IndexOf(w.c.services, obj.id) < |w.c.services|
    ensures var after := CreateStep(w, obj, dry, rand);
            && after.r == w.r && after.c.services == w.c.services && after.c.pools == w.c.pools
            && after.c.addsFailed == w.c.addsFailed
  {
    hide LeaseMissing, WithDefaults, Reconcilable, ValidateEach, ReleaseEach, AddressList, Pools.AddToPool;
    assert Exists(w.c.services, obj.id) by {
      assert w.c.services[IndexOf(w.c.services, obj.id)] in w.c.services;
    }
  }

  // ---------------------------------------------------------------- update

  lemma IpamGet(m: Annotations, k: Key)
    requires IsIpam(k)
    ensures Get(IpamPart(m), k) == Get(m, k)
  {
  }

  /** The plan of an update in terms of the two Services. */
  lemma PlanLists(prev: Svc, next: Svc, rand: string, c: Pools.Cluster)
    requires prev.kind == LoadBalancer
    ensures var p := PlanFor(prev, next, rand, c);
            && Get(p.before, Zone) == ZoneOf(prev) && Get(p.after, Zone) == ZoneOf(next)
            && p.added == Without(AddressList(next.annotations), AddressList(prev.annotations))
            && p.kept == Within(AddressList(next.annotations), AddressList(prev.annotations))
            && p.removed == Without(AddressList(prev.annotations), AddressList(next.annotations))
  {
    hide AddressList, Without, Within, IpamPart, Pools.SecretValue;
    IpamGet(prev.annotations, Addresses);
    IpamGet(prev.annotations, Zone);
    IpamGet(next.annotations, Addresses);
    IpamGet(next.annotations, Zone);
    SameText(IpamPart(prev.annotations), prev.annotations);
    SameText(IpamPart(next.annotations), next.annotations);
  }

  /** The plan of an update that turns a Service without addresses into a load balancer. */
  lemma PlanUpgrade(prev: Svc, next: Svc, rand: string, c: Pools.Cluster)
    requires prev.kind != LoadBalancer && Get(prev.annotations, Addresses) == ""
    ensures var p := PlanFor(prev, next, rand, c);
            && Get(p.after, Zone) == ZoneOf(next)
            && p.added == Without(AddressList(next.annotations), [""])
            && p.kept == Within(AddressList(next.annotations), [""])
            && p.removed == Without([""], AddressList(next.annotations))
  {
    hide Without, Within, IpamPart, Pools.SecretValue, WithDefaults;
    M.DefaultsComplete(prev.annotations, rand);
    var before := WithDefaults(prev.annotations, rand);
    IpamGet(before, Addresses);
    IpamGet(next.annotations, Addresses);
    IpamGet(next.annotations, Zone);
    SameText(IpamPart(next.annotations), next.annotations);
    assert AddressList(IpamPart(before)) == [""];
  }

  lemma SameText(m1: Annotations, m2: Annotations)
    requires Get(m1, Addresses) == Get(m2, Addresses)
    ensures AddressList(m1) == AddressList(m2)
  {
  }

  /** Either the IPAM side of the update ran and decided, or no lease changed; an acceptance without it means that
      the hook skipped the update or saw no changed IPAM annotation. */
  lemma UpdateVerdict(prev: Svc, next: Svc, dry: bool, rand: string, c: Pools.Cluster, r: Register)
    ensures var v, p := CheckUpdate(prev, next, dry, rand, c, r), PlanFor(prev, next, rand, c);
            var u := UpdateLeases(next.id, p, r);
            || (v.reg == r && (v.ok ==> dry || (prev.kind != LoadBalancer && next.kind != LoadBalancer) || p.before == p.after))
            || (v.reg == u.reg && v.ok == u.ok && !dry && (prev.kind == LoadBalancer || next.kind == LoadBalancer))
  {
    hide UpdateLeases, PlanFor, UpdatePools, Pools.SecretValue, Pools.HasSecret;
  }

  /** The update hook touches only this Service's memberships, and a rejected one leaves the stored Service covered. */
  lemma UpdateRejected(prev: Svc, next: Svc, dry: bool, rand: string, c: Pools.Cluster, r: Register)
    requires prev.id == next.id && Covered(prev, r.leases)
    ensures var v := CheckUpdate(prev, next, dry, rand, c, r);
            && (forall s, i :: i != next.id ==> (Member(r.leases, s, i) <==> Member(v.reg.leases, s, i)))
            && (!v.ok ==> Covered(prev, v.reg.leases))
  {
    hide CheckUpdate, UpdateLeases, PlanFor, AddressList, Member;
    var v, p := CheckUpdate(prev, next, dry, rand, c, r), PlanFor(prev, next, rand, c);
    UpdateVerdict(prev, next, dry, rand, c, r);
    UpdateLeasesKeeps(next.id, p, r);
    if !v.ok && v.reg != r && prev.kind == LoadBalancer {
      PlanLists(prev, next, rand, c);
      forall a | a in AddressList(prev.annotations) ensures Member(v.reg.leases, SlotOf(ZoneOf(prev), a), prev.id) {
        WithoutHas(AddressList(next.annotations), AddressList(prev.annotations), a);
        NotReached(ZoneOf(prev), a, Get(p.after, Zone), p.added);
      }
    }
  }

  /** An accepted update leaves the new Service covered. */
  lemma UpdateAccepted(prev: Svc, next: Svc, rand: string, c: Pools.Cluster, r: Register)
    requires prev.id == next.id && Covered(prev, r.leases) && Well(prev) && Well(next)
    requires prev.kind != LoadBalancer && next.kind == LoadBalancer ==> Get(prev.annotations, Addresses) == ""
    requires CheckUpdate(prev, next, false, rand, c, r).ok
    ensures Covered(next, CheckUpdate(prev, next, false, rand, c, r).reg.leases)
  {
    hide CheckUpdate, UpdateLeases, PlanFor, AddressList, Member, ValidList;
    var v, p := CheckUpdate(prev, next, false, rand, c, r), PlanFor(prev, next, rand, c);
    UpdateVerdict(prev, next, false, rand, c, r);
    if next.kind == LoadBalancer {
      if v.reg == r && p.before == p.after {
        UnchangedAnnotations(prev, next, rand, c);
      } else {
        ChangedCovered(prev, next, rand, c, r, p);
      }
    }
  }

  lemma NoEmptyAddress(svc: Svc)
    requires svc.kind == LoadBalancer && Well(svc)
    ensures "" !in AddressList(svc.annotations)
  {
  }

  /** An update that changes no IPAM annotation keeps zone and address list, and is no upgrade. */
  lemma UnchangedAnnotations(prev: Svc, next: Svc, rand: string, c: Pools.Cluster)
    requires Well(next) && next.kind == LoadBalancer
    requires prev.kind != LoadBalancer ==> Get(prev.annotations, Addresses) == ""
    requires PlanFor(prev, next, rand, c).before == PlanFor(prev, next, rand, c).after
    ensures prev.kind == LoadBalancer
    ensures AddressList(prev.annotations) == AddressList(next.annotations) && ZoneOf(prev) == ZoneOf(next)
  {
    hide WithDefaults, IpamPart, Without, Within, Pools.SecretValue, ValidList;
    NoEmptyAddress(next);
    var before := OldAnnotations(prev, rand);
    M.DefaultsComplete(prev.annotations, rand);
    IpamGet(before, Addresses);
    IpamGet(before, Zone);
    IpamGet(next.annotations, Addresses);
    IpamGet(next.annotations, Zone);
    SameText(before, next.annotations);
  }

  /** Kept addresses stay leased because the zone did not change, new ones because they have been validated. */
  lemma ChangedCovered(prev: Svc, next: Svc, rand: string, c: Pools.Cluster, r: Register, p: Plan)
    requires prev.id == next.id && Covered(prev, r.leases) && Well(next) && next.kind == LoadBalancer
    requires prev.kind != LoadBalancer ==> Get(prev.annotations, Addresses) == ""
    requires p == PlanFor(prev, next, rand, c) && UpdateLeases(next.id, p, r).ok
    ensures Covered(next, UpdateLeases(next.id, p, r).reg.leases)
  {
    hide UpdateLeases, PlanFor, AddressList, Member, ValidList;
    NoEmptyAddress(next);
    var news := AddressList(next.annotations);
    var olds := if prev.kind == LoadBalancer then AddressList(prev.annotations) else [""];
    if prev.kind == LoadBalancer {
      PlanLists(prev, next, rand, c);
    } else {
      PlanUpgrade(prev, next, rand, c);
    }
    forall a ensures a in p.added ==> a !in p.removed {
      WithoutHas(news, olds, a);
      WithoutHas(olds, news, a);
    }
    UpdateLeasesAdds(next.id, p, r);
    UpdateLeasesKeeps(next.id, p, r);
    forall a | a in news ensures Member(UpdateLeases(next.id, p, r).reg.leases, SlotOf(ZoneOf(next), a), next.id) {
      WithoutHas(news, olds, a);
      WithinHas(news, olds, a);
      WithoutHas(olds, news, a);
      NotReached(ZoneOf(next), a, Get(p.before, Zone), p.removed);
    }
  }

  // ---------------------------------------------------------------- delete

  lemma {:induction false} FailuresGrow(addrs: seq<string>, m: Annotations, id: Id, secret: string, r: Register)
    ensures var p := ValidateEach(addrs, m, id, secret, r);
            && p.reg.tally.postsFailed >= r.tally.postsFailed
            && (p.reg.tally.postsFailed == r.tally.postsFailed && Sendable(m) && (forall a | a in addrs :: IsValidIp(a)) ==>
                  p.count == |addrs|)
            && (!Sendable(m) ==> p.reg == r)
  {
    hide PostEffect, Rewrite, Sendable, IsValidIp;
    if addrs != [] {
      FailuresGrow(addrs[1..], m, id, secret, UpdateAddress(addrs[0], m, id, secret, r).reg);
    }
  }

  lemma {:induction false} ReleasesPostNothing(addrs: seq<string>, m: Annotations, id: Id, secret: string, r: Register)
    ensures var after := ReleaseEach(addrs, m, id, secret, r);
            && after.tally.postsFailed == r.tally.postsFailed
            && (!Sendable(m) ==> after == r)
  {
    hide DeleteEffect, Rewrite, Sendable, IsValidIp;
    if addrs != [] {
      ReleasesPostNothing(addrs[1..], m, id, secret, RemoveAddress(addrs[0], m, id, secret, r).reg);
    }
  }

  /** A deletion touches only its own memberships; rejected, it leaves the Service covered provided no
      re-registration that was sent has failed. A dry run sends nothing. */
  lemma DeleteLeases(svc: Svc, dry: bool, c: Pools.Cluster, r: Register)
    requires Well(svc) && Covered(svc, r.leases)
    ensures var v := CheckDelete(svc, dry, c, r);
            && Keeps(r.leases, v.reg.leases, svc.id, ValidSlots(ZoneOf(svc), AddressList(svc.annotations)))
            && (dry ==> v.reg == r)
            && (!v.ok && v.reg.tally.postsFailed == r.tally.postsFailed ==> Covered(svc, v.reg.leases))
  {
    hide ValidateEach, ReleaseEach, AddressList, Sendable, Member, Pools.SecretValue, Pools.HasSecret,
         Pools.RemoveFromPool, Pools.VerifyAddresses;
    var m, secret := svc.annotations, Pools.SecretValue(c, svc.id, svc.annotations);
    var addrs := AddressList(m);
    var released := ReleaseEach(addrs, m, svc.id, secret, r);
    var again := ValidateEach(addrs, m, svc.id, secret, released);
    ReleaseKeeps(addrs, m, svc.id, secret, r);
    ReleasesPostNothing(addrs, m, svc.id, secret, r);
    ValidateKeeps(addrs, m, svc.id, secret, released);
    FailuresGrow(addrs, m, svc.id, secret, released);
    if again.count == |addrs| {
      ValidatedLeased(addrs, m, svc.id, secret, released);
    }
  }

  // ---------------------------------------------------------------- steps and runs

  ghost predicate OthersSame(before: Leases, after: Leases, id: Id) {
    forall s, i :: i != id ==> (Member(before, s, i) <==> Member(after, s, i))
  }

  /** No admission, accepted or rejected, changes another Service's membership of any lease. */
  lemma StepTouchesOnlyTarget(w: World, op: Op)
    ensures OthersSame(w.r.leases, Step(w, op).r.leases, TargetOf(op))
  {
    hide Mutate, CheckCreate, CheckUpdate, CheckDelete, Member;
    var i := IndexOf(w.c.services, TargetOf(op));
    match op
    case CreateOp(obj, dry, rand) =>
      MutateKeeps(Submitted(obj, false), true, dry, rand, w.c, w.r);
      MutateTarget(Submitted(obj, false), true, dry, rand, w.c, w.r);
      var m := Mutate(Submitted(obj, false), true, dry, rand, w.c, w.r);
      CreateLeases(m.svc, dry, m.cluster, m.reg);
    case UpdateOp(obj, dry, rand, rand2) =>
      if i < |w.c.services| {
        var submitted := Submitted(obj, w.c.services[i].ingress);
        MutateKeeps(submitted, false, dry, rand, w.c, w.r);
        MutateTarget(submitted, false, dry, rand, w.c, w.r);
        var m := Mutate(submitted, false, dry, rand, w.c, w.r);
        UpdateTouches(w.c.services[i], m.svc, dry, rand2, m.cluster, m.reg);
      }
    case DeleteOp(_, dry) =>
      if i < |w.c.services| {
        DeleteTouches(w.c.services[i], dry, w.c, w.r);
      }
    case StatusOp(_, _) =>
  }

  lemma UpdateTouches(prev: Svc, next: Svc, dry: bool, rand: string, c: Pools.Cluster, r: Register)
    ensures OthersSame(r.leases, CheckUpdate(prev, next, dry, rand, c, r).reg.leases, next.id)
  {
    hide CheckUpdate, UpdateLeases, PlanFor, Member;
    UpdateVerdict(prev, next, dry, rand, c, r);
    UpdateLeasesKeeps(next.id, PlanFor(prev, next, rand, c), r);
  }

  lemma DeleteTouches(svc: Svc, dry: bool, c: Pools.Cluster, r: Register)
    ensures OthersSame(r.leases, CheckDelete(svc, dry, c, r).reg.leases, svc.id)
  {
    hide ValidateEach, ReleaseEach, AddressList, Member, Pools.SecretValue, Pools.HasSecret,
         Pools.RemoveFromPool, Pools.VerifyAddresses;
    var m, secret := svc.annotations, Pools.SecretValue(c, svc.id, svc.annotations);
    var addrs := AddressList(m);
    ReleaseKeeps(addrs, m, svc.id, secret, r);
    ValidateKeeps(addrs, m, svc.id, secret, ReleaseEach(addrs, m, svc.id, secret, r));
  }

  lemma StillCovered(svc: Svc, before: Leases, after: Leases, id: Id)
    requires svc.id != id && OthersSame(before, after, id) && Covered(svc, before)
    ensures Covered(svc, after)
  {
    hide Member;
  }

  lemma OwnCovered(svc: Svc, before: Leases, after: Leases)
    requires Keeps(before, after, svc.id, {}) && Covered(svc, before)
    ensures Covered(svc, after)
  {
    hide Member;
  }

  lemma StatusIrrelevant(svc: Svc, ingress: bool, leases: Leases)
    ensures Well(svc.(ingress := ingress)) == Well(svc)
    ensures Covered(svc.(ingress := ingress), leases) == Covered(svc, leases)
  {
    hide Member, ValidList;
  }

  lemma MutateSkips(svc: Svc, create: bool, dry: bool, rand: string, c: Pools.Cluster, r: Register)
    requires !M.Mutates(svc, dry)
    ensures Mutate(svc, create, dry, rand, c, r) == Mutated(true, svc, c, r)
  {
  }

  /** After a creation, the Service of that name is well formed and covered if there is one. */
  lemma TargetCreated(w: World, obj: Svc, dry: bool, rand: string)
    requires LeasesCover(w)
    ensures var i, after := IndexOf(w.c.services, obj.id), CreateStep(w, obj, dry, rand);
            i < |after.c.services| ==> Well(after.c.services[i]) && Covered(after.c.services[i], after.r.leases)
  {
    hide Mutate, CheckCreate, Covered, Well, Keeps;
    var i, after := IndexOf(w.c.services, obj.id), CreateStep(w, obj, dry, rand);
    if i < |w.c.services| {
      CreateTaken(w, obj, dry, rand);
    } else {
      var submitted := Submitted(obj, false);
      var m := Mutate(submitted, true, dry, rand, w.c, w.r);
      MutateServices(submitted, true, dry, rand, w.c, w.r);
      if m.ok {
        CreateServices(m.svc, dry, m.cluster, m.reg);
        CreateLeases(m.svc, dry, m.cluster, m.reg);
        if !dry {
          MutatedWell(submitted, true, rand, w.c, w.r);
        }
      }
    }
  }

  /** After an update, accepted or not, the Service is well formed and covered. */
  lemma TargetUpdated(w: World, obj: Svc, dry: bool, rand: string, rand2: string)
    requires LeasesCover(w) && CleanUpgrade(w, UpdateOp(obj, dry, rand, rand2))
    requires IndexOf(w.c.services, obj.id) < |w.c.services|
    ensures var i := IndexOf(w.c.services, obj.id);
            var after := UpdateStep(w, i, obj, dry, rand, rand2);
            && |after.c.services| == |w.c.services|
            && Well(after.c.services[i]) && Covered(after.c.services[i], after.r.leases)
  {
    hide Mutate, CheckUpdate, Covered, Well, Keeps;
    var i := IndexOf(w.c.services, obj.id);
    var prev := w.c.services[i];
    var submitted := Submitted(obj, prev.ingress);
    var m := Mutate(submitted, false, dry, rand, w.c, w.r);
    MutateServices(submitted, false, dry, rand, w.c, w.r);
    MutateKeeps(submitted, false, dry, rand, w.c, w.r);
    MutateTarget(submitted, false, dry, rand, w.c, w.r);
    OwnCovered(prev, w.r.leases, m.reg.leases);
    if m.ok {
      var v := CheckUpdate(prev, m.svc, dry, rand2, m.cluster, m.reg);
      UpdateServices(prev, m.svc, dry, rand2, m.cluster, m.reg);
      UpdateRejected(prev, m.svc, dry, rand2, m.cluster, m.reg);
      UpdateVerdict(prev, m.svc, dry, rand2, m.cluster, m.reg);
      if v.ok && !dry {
        MutatedWell(submitted, false, rand, w.c, w.r);
        if !M.Mutates(submitted, false) {
          MutateSkips(submitted, false, dry, rand, w.c, w.r);
        }
        UpdateAccepted(prev, m.svc, rand2, m.cluster, m.reg);
      }
    }
  }

  /** After a deletion that is not committed, the Service is still covered. */
  lemma TargetDeleted(w: World, i: nat, dry: bool)
    requires LeasesCover(w) && i < |w.c.services|
    requires DeleteStep(w, i, dry).r.tally.postsFailed == w.r.tally.postsFailed
    ensures DeleteStep(w, i, dry).c.services == w.c.services[..i] + w.c.services[i + 1..]
         || (DeleteStep(w, i, dry).c.services == w.c.services && Covered(w.c.services[i], DeleteStep(w, i, dry).r.leases))
  {
    hide CheckDelete, Covered, Well, Keeps;
    DeleteServices(w.c.services[i], dry, w.c, w.r);
    DeleteLeases(w.c.services[i], dry, w.c, w.r);
  }

  /** One step keeps the leases covering, whatever pattern of IPAM failures hits it. */
  lemma LeasesCoverStep(w: World, op: Op)
    requires LeasesCover(w) && CleanUpgrade(w, op)
    requires op.DeleteOp? ==> Step(w, op).r.tally.postsFailed == w.r.tally.postsFailed
    ensures LeasesCover(Step(w, op))
  {
    hide CreateStep, UpdateStep, DeleteStep, Covered, Well, CleanUpgrade, OthersSame;
    var i, after := IndexOf(w.c.services, TargetOf(op)), Step(w, op);
    IdsStayDistinct(w, op);
    StepServices(w, op);
    StepTouchesOnlyTarget(w, op);
    match op {
      case CreateOp(obj, dry, rand) => TargetCreated(w, obj, dry, rand);
      case UpdateOp(obj, dry, rand, rand2) =>
        if i < |w.c.services| {
          TargetUpdated(w, obj, dry, rand, rand2);
        }
      case DeleteOp(_, dry) =>
        if i < |w.c.services| {
          TargetDeleted(w, i, dry);
        }
      case StatusOp(_, ingress) =>
        if i < |w.c.services| {
          StatusIrrelevant(w.c.services[i], ingress, w.r.leases);
        }
    }
    forall k | 0 <= k < |after.c.services| && after.c.services[k].id != TargetOf(op)
      ensures Well(after.c.services[k]) && Covered(after.c.services[k], after.r.leases)
    {
      var svc := after.c.services[k];
      var j := OldPosition(w, op, k);
      StillCovered(svc, w.r.leases, after.r.leases, TargetOf(op));
    }
  }

  /** What a run is asked for: no upgrade of a Service that carries addresses, and re-registrations that succeed. */
  predicate LeaseAssumptions(w: World, ops: seq<Op>)
    decreases |ops|
  {
    ops == [] ||
    (&& CleanUpgrade(w, ops[0])
     && (ops[0].DeleteOp? ==> Step(w, ops[0]).r.tally.postsFailed == w.r.tally.postsFailed)
     && LeaseAssumptions(Step(w, ops[0]), ops[1..]))
  }

  /** Lease coverage in every state of every run. */
  lemma {:induction false} LeasesCoverRun(w: World, ops: seq<Op>)
    requires LeasesCover(w) && LeaseAssumptions(w, ops)
    ensures LeasesCover(Run(w, ops))
    decreases |ops|
  {
    hide Step, LeasesCover, CleanUpgrade;
    if ops != [] {
      LeasesCoverStep(w, ops[0]);
      LeasesCoverRun(Step(w, ops[0]), ops[1..]);
    }
  }
}
