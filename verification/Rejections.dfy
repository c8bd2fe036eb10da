/** Whole admissions that are rejected, by either hook: exactly when they leave the lease register as it was. */
module Rejections {
  import opened Text
  import opened Services
  import opened Ipam
  import opened Mutation
  import opened Validation
  import opened Admission
  import opened Rollback
  import opened UpdateRollback
  import opened Consequences
  import M = MutationFacts
  import L = LeaseCoverage
  import Pools

  // ---------------------------------------------------------------- rejected by the mutating hook

  /** The mutating hook gets as far as asking for addresses. */
  predicate Asks(svc: Svc, create: bool, rand: string, c: Pools.Cluster) {
    var checks, full := SpecChecks(c, svc.id, create), WithDefaults(svc.annotations, rand);
    M.Mutates(svc, false) && checks.ok && Reconcilable(full) && Pools.FetchSecret(checks.cluster, svc.id, full).ok
  }

  /** The IPv4 stage of the leasing run inside the mutating hook. */
  function FourOf(svc: Svc, rand: string, c: Pools.Cluster, r: Register): Leasing {
    var full := WithDefaults(svc.annotations, rand);
    LeaseFour(full, svc.id, Pools.SecretValue(c, svc.id, full), r)
  }

  /** The mutating hook leases an IPv4 address under a text that it cannot release again. */
  predicate Suffixed(svc: Svc, create: bool, rand: string, c: Pools.Cluster, r: Register) {
    var four := FourOf(svc, rand, c, r);
    Asks(svc, create, rand, c) && four.ok && four.fresh4.Some? && '/' in four.fresh4.value
  }

  /** An object that the mutating hook rejects leaves the register as it was iff no IPv4 reply carried a prefix length. */
  lemma MutateRejection(svc: Svc, create: bool, rand: string, c: Pools.Cluster, r: Register)
    requires !Mutate(svc, create, false, rand, c, r).ok
    requires var after := Mutate(svc, create, false, rand, c, r).reg;
             after.tally.lost == r.tally.lost && after.tally.deletesFailed == r.tally.deletesFailed
    ensures Mutate(svc, create, false, rand, c, r).reg.leases == r.leases <==> !Suffixed(svc, create, rand, c, r)
  {
    hide WithDefaults, Reconcilable, Pools.SecretValue, Pools.FetchSecret, SpecChecks, LeaseMissing, LeaseFour;
    var full := WithDefaults(svc.annotations, rand);
    if Asks(svc, create, rand, c) {
      LeasingRejection(full, svc.id, Pools.SecretValue(c, svc.id, full), r);
    }
  }

  lemma LeasingRejection(m: Annotations, id: Id, secret: string, r: Register)
    requires !LeaseMissing(m, id, secret, r).ok
    requires var after := LeaseMissing(m, id, secret, r).reg;
             after.tally.lost == r.tally.lost && after.tally.deletesFailed == r.tally.deletesFailed
    ensures var four := LeaseFour(m, id, secret, r);
            LeaseMissing(m, id, secret, r).reg.leases == r.leases
            <==> !(four.ok && four.fresh4.Some? && '/' in four.fresh4.value)
  {
    hide GetAddress, RemoveAddress, WithAddress, WithoutSpaces;
    var four := LeaseFour(m, id, secret, r);
    if !four.ok {
      M.NoGrantFacts(IPV4_FAMILY, m, id, secret, r);
    } else if four.fresh4.Some? {
      M.DualStackAtomic(m, id, secret, r);
    } else {
      M.NoGrantFacts(IPV6_FAMILY, m, id, secret, r);
    }
  }

  // ---------------------------------------------------------------- rejected admissions

  predicate CreateAccepted(w: World, obj: Svc, rand: string) {
    var m := Mutate(Submitted(obj, false), true, false, rand, w.c, w.r);
    m.ok && CheckCreate(m.svc, false, m.cluster, m.reg).ok
  }

  /** What a rejected creation has to be like to give everything back. */
  predicate CreateRestores(w: World, obj: Svc, rand: string) {
    var svc := Submitted(obj, false);
    var m := Mutate(svc, true, false, rand, w.c, w.r);
    if !m.ok then !Suffixed(svc, true, rand, w.c, w.r)
    else CreateGivesBack(m.svc, m.cluster, CreateProgress(m.svc, m.cluster, m.reg).count, FreshOf(svc, rand, w.c, w.r), w.r.leases)
  }

  /** Every rejected creation, by whichever hook and at whichever call. */
  lemma RejectedCreation(w: World, obj: Svc, rand: string)
    requires !CreateAccepted(w, obj, rand)
    requires var after := Step(w, CreateOp(obj, false, rand)).r;
             after.tally.lost == w.r.tally.lost && after.tally.deletesFailed == w.r.tally.deletesFailed
    ensures Step(w, CreateOp(obj, false, rand)).c.services == w.c.services
    ensures Step(w, CreateOp(obj, false, rand)).r.leases == w.r.leases <==> CreateRestores(w, obj, rand)
  {
    hide Mutate, CheckCreate, Suffixed, CreateGivesBack, CreateProgress, FreshOf;
    var svc := Submitted(obj, false);
    var m := Mutate(svc, true, false, rand, w.c, w.r);
    MutateServices(svc, true, false, rand, w.c, w.r);
    if m.ok {
      CreateServices(m.svc, false, m.cluster, m.reg);
      FreshFacts(svc, true, rand, w.c, w.r);
      CreateRejection(svc, rand, w.c, w.r, m, CheckCreate(m.svc, false, m.cluster, m.reg));
    } else {
      MutateRejection(svc, true, rand, w.c, w.r);
    }
  }

  predicate UpdateRestores(w: World, i: nat, obj: Svc, rand: string, rand2: string)
    requires i < |w.c.services|
  {
    var svc := Submitted(obj, w.c.services[i].ingress);
    var m := Mutate(svc, false, false, rand, w.c, w.r);
    var p := PlanFor(w.c.services[i], m.svc, rand2, m.cluster);
    if !m.ok then !Suffixed(svc, false, rand, w.c, w.r)
    else if UpdateReady(m.svc, p, m.cluster) then GivesBack(p, m.reg, FreshOf(svc, rand, w.c, w.r), obj.id, w.r.leases)
    else FreshOf(svc, rand, w.c, w.r) == []
  }

  /** The revert of a rotation that fails is answered if it is sent. */
  predicate RevertsAnswered(w: World, i: nat, obj: Svc, rand: string, rand2: string)
    requires i < |w.c.services|
  {
    var m := Mutate(Submitted(obj, w.c.services[i].ingress), false, false, rand, w.c, w.r);
    var p := PlanFor(w.c.services[i], m.svc, rand2, m.cluster);
    m.ok && UpdateReady(m.svc, p, m.cluster) && !RejectedEarly(p, m.reg, obj.id) ==> RotationAnswered(p, m.reg, obj.id)
  }

  /** Every rejected update, by whichever hook and at whichever call. */
  lemma RejectedUpdate(w: World, i: nat, obj: Svc, rand: string, rand2: string)
    requires i == IndexOf(w.c.services, obj.id) < |w.c.services| && !UpdateCommits(w, i, obj, false, rand, rand2)
    requires RevertsAnswered(w, i, obj, rand, rand2)
    requires var after := Step(w, UpdateOp(obj, false, rand, rand2)).r;
             after.tally.lost == w.r.tally.lost && after.tally.deletesFailed == w.r.tally.deletesFailed
    ensures Step(w, UpdateOp(obj, false, rand, rand2)).c.services == w.c.services
    ensures Step(w, UpdateOp(obj, false, rand, rand2)).r.leases == w.r.leases <==> UpdateRestores(w, i, obj, rand, rand2)
  {
    hide Mutate, CheckUpdate, PlanFor, Suffixed, GivesBack, FreshOf, UpdateReady, RotationAnswered, RejectedEarly;
    var svc, prev := Submitted(obj, w.c.services[i].ingress), w.c.services[i];
    var m := Mutate(svc, false, false, rand, w.c, w.r);
    MutateServices(svc, false, false, rand, w.c, w.r);
    if m.ok {
      UpdateServices(prev, m.svc, false, rand2, m.cluster, m.reg);
      FreshFacts(svc, false, rand, w.c, w.r);
      UpdateRejection(prev, svc, rand, rand2, w.c, w.r, m, CheckUpdate(prev, m.svc, false, rand2, m.cluster, m.reg),
                      PlanFor(prev, m.svc, rand2, m.cluster));
    } else {
      MutateRejection(svc, false, rand, w.c, w.r);
    }
  }

  /** Every rejected deletion of a covered load balancer whose secret agrees gives everything back. */
  lemma RejectedDeletion(w: World, i: nat)
    requires i < |w.c.services| && !DeleteCommits(w, i, false)
    requires var svc := w.c.services[i]; L.Well(svc) && L.Covered(svc, w.r.leases) && SecretsAgree(svc, w.c, w.r.leases)
    requires var after := DeleteStep(w, i, false).r.tally;
             after.lost == w.r.tally.lost && after.deletesFailed == w.r.tally.deletesFailed
             && after.postsFailed == w.r.tally.postsFailed
    ensures DeleteStep(w, i, false).c.services == w.c.services && DeleteStep(w, i, false).r.leases == w.r.leases
  {
    hide CheckDelete, L.Well, L.Covered, SecretsAgree, Dropped;
    DeleteServices(w.c.services[i], false, w.c, w.r);
    DeleteKind(w.c.services[i], w.c, w.r);
    DeleteOutcome(w.c.services[i], w.c, w.r);
  }

  lemma DeleteKind(svc: Svc, c: Pools.Cluster, r: Register)
    ensures !CheckDelete(svc, false, c, r).ok ==> svc.kind == LoadBalancer
  {
    hide ValidateEach, ReleaseEach, AddressList, Pools.SecretValue, Pools.FetchSecret, Pools.RemoveFromPool, Pools.VerifyAddresses;
  }
}
