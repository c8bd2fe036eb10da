/** Pool agreement in every state of every run. */
module PoolRuns {
  import opened Lists
  import opened Services
  import opened Ipam
  import opened Mutation
  import opened Validation
  import opened Admission
  import opened Pools
  import opened PoolFacts
  import opened PoolCoverage
  import opened LeaseFacts
  import L = LeaseCoverage
  import M = MutationFacts

  // ---------------------------------------------------------------- well-formedness of what is committed

  lemma MutatedLoadBalancer(svc: Svc, create: bool, dry: bool, rand: string, c: Cluster, r: Register)
    requires Mutate(svc, create, dry, rand, c, r).ok
    ensures var m := Mutate(svc, create, dry, rand, c, r);
            && (m.svc.kind == LoadBalancer && !dry ==> M.Mutates(svc, dry))
            && (M.Mutates(svc, dry) ==> m.svc.kind == LoadBalancer)
            && (!dry ==> L.Well(m.svc))
  {
    hide Mutate, L.Well;
    if M.Mutates(svc, dry) {
      M.MutateShape(svc, create, rand, c, r);
    } else {
      L.MutateSkips(svc, create, dry, rand, c, r);
    }
    if !dry {
      L.MutatedWell(svc, create, rand, c, r);
    }
  }

  // ---------------------------------------------------------------- coverage, one step

  lemma CreateStepCovers(w: World, obj: Svc, dry: bool, rand: string)
    requires PoolsCover(w)
    ensures var after := CreateStep(w, obj, dry, rand).c;
            AllWell(after.services) && Covers(after.services, after)
  {
    hide Mutate, CheckCreate, AddToPool, AddressList, Needs, Uses, L.Well, PoolOf;
    var after := CreateStep(w, obj, dry, rand).c;
    var submitted := Submitted(obj, false);
    var m := Mutate(submitted, true, dry, rand, w.c, w.r);
    MutatePools(submitted, true, dry, rand, w.c, w.r);
    MutateServices(submitted, true, dry, rand, w.c, w.r);
    if IndexOf(w.c.services, obj.id) < |w.c.services| {
      L.CreateTaken(w, obj, dry, rand);
      SamePools(w.c.services, w.c, after);
    } else if m.ok {
      CreateServices(m.svc, dry, m.cluster, m.reg);
      CreatePools(m.svc, dry, m.cluster, m.reg);
      MutatedLoadBalancer(submitted, true, dry, rand, w.c, w.r);
      var v := CheckCreate(m.svc, dry, m.cluster, m.reg);
      SamePools(w.c.services, w.c, m.cluster);
      if v.ok && !dry {
        SameAfterCalls(w.c.services, m.cluster);
        if m.svc.kind == LoadBalancer {
          AddedCovers(w.c.services, m.svc, After2(m.cluster), v.cluster);
        } else {
          SkippedCovers(w.c.services, m.svc, m.cluster, v.cluster);
        }
        SamePools(w.c.services + [m.svc], v.cluster, after);
      } else {
        SamePools(w.c.services, m.cluster, after);
      }
    } else {
      SamePools(w.c.services, w.c, after);
    }
  }

  lemma SamePools(services: seq<Svc>, c1: Cluster, c2: Cluster)
    requires c1.pools == c2.pools
    ensures Covers(services, c1) <==> Covers(services, c2)
    ensures Tight(services, c1) <==> Tight(services, c2)
  {
    hide Needs, Distinct;
    assert forall z :: PoolOf(c1, z) == PoolOf(c2, z);
  }

  lemma SameAfterCalls(services: seq<Svc>, c: Cluster)
    ensures After2(c).pools == After3(c).pools == c.pools
    ensures After2(c).services == After3(c).services == c.services
    ensures After3(c).faults >= After2(c).faults >= c.faults
    ensures After2(c).addsFailed == After3(c).addsFailed == c.addsFailed
    ensures Covers(services, After2(c)) <==> Covers(services, c)
    ensures Covers(services, After3(c)) <==> Covers(services, c)
    ensures Tight(services, After2(c)) <==> Tight(services, c)
    ensures Tight(services, After3(c)) <==> Tight(services, c)
  {
    SamePools(services, After2(c), c);
    SamePools(services, After3(c), c);
  }

  lemma AddedCovers(services: seq<Svc>, svc: Svc, c: Cluster, after: Cluster)
    requires Covers(services, c) && L.Well(svc) && svc.kind == LoadBalancer
    requires var added := AddToPool(c, ZoneOf(svc), AddressList(svc.annotations)); added.ok && after == added.cluster
    ensures Covers(services + [svc], after)
  {
    hide AddToPool, AddressList, Needs, Uses, L.Well, PoolOf, AddForms;
    forall z, t | Needs(services + [svc], z, t) ensures t in PoolOf(after, z) {
      NeedsMore(services, svc, z, t);
      UsesForms(svc, z, t);
      AdditionExact(c, ZoneOf(svc), AddressList(svc.annotations), t);
    }
  }

  lemma SkippedCovers(services: seq<Svc>, svc: Svc, c: Cluster, after: Cluster)
    requires Covers(services, c) && svc.kind != LoadBalancer && after.pools == c.pools
    ensures Covers(services + [svc], after)
    ensures Tight(services, c) ==> Tight(services + [svc], after)
  {
    hide Needs, Distinct;
    forall z, t ensures Needs(services + [svc], z, t) <==> Needs(services, z, t) {
      NeedsMore(services, svc, z, t);
    }
    SamePools(services, c, after);
  }

  /** What an update that reaches the commit does, with everything the pool lemmas need. */
  lemma UpdateReady(w: World, i: nat, obj: Svc, rand: string, rand2: string, m: Mutated, v: Verdict)
    requires PoolsCover(w) && L.CleanUpgrade(w, UpdateOp(obj, false, rand, rand2))
    requires i == IndexOf(w.c.services, obj.id) < |w.c.services|
    requires m == Mutate(Submitted(obj, w.c.services[i].ingress), false, false, rand, w.c, w.r) && m.ok
    requires v == CheckUpdate(w.c.services[i], m.svc, false, rand2, m.cluster, m.reg) && v.ok
    ensures L.Well(m.svc) && m.cluster.services == v.cluster.services == w.c.services && m.cluster.pools == w.c.pools
    ensures var prev, p := w.c.services[i], PlanFor(w.c.services[i], m.svc, rand2, m.cluster);
            || (v.cluster.pools == w.c.pools && v.cluster.faults >= w.c.faults
                && Skipped(prev, m.svc))
            || (v.cluster == UpdatePools(p, After3(m.cluster))
                && (m.svc.kind == LoadBalancer || prev.kind == LoadBalancer)
                && (prev.kind != LoadBalancer ==> Get(prev.annotations, Addresses) == "")
                && PlanFits(p, prev, m.svc)
                && (Get(p.before, Zone) != Get(p.after, Zone) ==> p.kept == []))
    ensures m.cluster.faults >= w.c.faults && m.cluster.addsFailed == w.c.addsFailed
  {
    hide Mutate, CheckUpdate, PlanFor, UpdatePools, UpdateLeases, AddressList, L.Well, PlanFits, L.Covered;
    var prev := w.c.services[i];
    var submitted := Submitted(obj, prev.ingress);
    MutatePools(submitted, false, false, rand, w.c, w.r);
    MutateServices(submitted, false, false, rand, w.c, w.r);
    MutateTarget(submitted, false, false, rand, w.c, w.r);
    MutatedLoadBalancer(submitted, false, false, rand, w.c, w.r);
    UpdateServices(prev, m.svc, false, rand2, m.cluster, m.reg);
    var p := PlanFor(prev, m.svc, rand2, m.cluster);
    UpdatePoolsVerdict(prev, m.svc, false, rand2, m.cluster, m.reg);
    if v.cluster.pools == m.cluster.pools && p.before == p.after && m.svc.kind == LoadBalancer {
      L.UnchangedAnnotations(prev, m.svc, rand2, m.cluster);
    }
    if prev.kind != LoadBalancer ==> Get(prev.annotations, Addresses) == "" {
      PlanForFits(prev, m.svc, rand2, m.cluster);
    }
    if v.cluster == UpdatePools(p, After3(m.cluster)) && UpdateLeases(m.svc.id, p, m.reg).ok && Get(p.before, Zone) != Get(p.after, Zone) {
      KeptZone(m.svc.id, p, m.reg);
    }
  }

  lemma SameUses(services: seq<Svc>, i: nat, next: Svc, z: string, t: string)
    requires i < |services|
    requires next.kind == LoadBalancer ==>
               services[i].kind == LoadBalancer && ZoneOf(services[i]) == ZoneOf(next)
               && AddressList(services[i].annotations) == AddressList(next.annotations)
    ensures Needs(services[i := next], z, t) ==> Needs(services, z, t)
    ensures (services[i].kind == LoadBalancer ==> next.kind == LoadBalancer) ==>
              (Needs(services, z, t) ==> Needs(services[i := next], z, t))
  {
    hide AddressList;
    NeedsReplaced(services, i, next, z, t);
    assert Uses(next, z, t) ==> Uses(services[i], z, t);
    if Needs(services, z, t) {
      var j :| 0 <= j < |services| && Uses(services[j], z, t);
      assert j == i && (services[i].kind == LoadBalancer ==> next.kind == LoadBalancer) ==> Uses(next, z, t);
    }
  }

  /** An accepted update that the pools do not need to follow. */
  predicate Skipped(prev: Svc, next: Svc) {
    next.kind == LoadBalancer ==>
      prev.kind == LoadBalancer && ZoneOf(prev) == ZoneOf(next)
      && AddressList(prev.annotations) == AddressList(next.annotations)
  }

  lemma SkippedUpdateCovers(services: seq<Svc>, i: nat, next: Svc, c: Cluster)
    requires i < |services| && Skipped(services[i], next)
    ensures Covers(services, c) ==> Covers(services[i := next], c)
    ensures (services[i].kind == LoadBalancer ==> next.kind == LoadBalancer) && Tight(services, c) ==>
              Tight(services[i := next], c)
  {
    hide Needs, AddressList, Distinct, PoolOf;
    forall z, t
      ensures Needs(services[i := next], z, t) ==> Needs(services, z, t)
      ensures (services[i].kind == LoadBalancer ==> next.kind == LoadBalancer) ==>
                (Needs(services, z, t) ==> Needs(services[i := next], z, t))
    {
      SameUses(services, i, next, z, t);
    }
  }

  lemma PlannedUpdateCovers(services: seq<Svc>, i: nat, next: Svc, p: Plan, c: Cluster)
    requires i < |services| && c.services == services && AllWell(services) && Covers(services, c) && L.Well(next)
    requires PlanFits(p, services[i], next) && (Get(p.before, Zone) != Get(p.after, Zone) ==> p.kept == [])
    requires UpdatePools(p, c).addsFailed == c.addsFailed
    ensures Covers(services[i := next], UpdatePools(p, c))
  {
    hide Needs, AddressList, PoolOf, UpdatePools, PlanFits, L.Well;
    forall z, t | Needs(services[i := next], z, t) ensures t in PoolOf(UpdatePools(p, c), z) {
      UpdateCovers(services, i, next, p, c, z, t);
    }
  }

  lemma AllWellReplaced(services: seq<Svc>, i: nat, next: Svc)
    requires i < |services| && AllWell(services) && L.Well(next)
    ensures AllWell(services[i := next])
  {
    hide L.Well;
  }

  lemma AcceptedUpdateCovers(w: World, i: nat, obj: Svc, rand: string, rand2: string, m: Mutated, v: Verdict)
    requires PoolsCover(w) && L.CleanUpgrade(w, UpdateOp(obj, false, rand, rand2))
    requires i == IndexOf(w.c.services, obj.id) < |w.c.services|
    requires m == Mutate(Submitted(obj, w.c.services[i].ingress), false, false, rand, w.c, w.r) && m.ok
    requires v == CheckUpdate(w.c.services[i], m.svc, false, rand2, m.cluster, m.reg) && v.ok
    requires v.cluster.addsFailed == w.c.addsFailed
    ensures AllWell(w.c.services[i := m.svc]) && Covers(w.c.services[i := m.svc], v.cluster)
  {
    hide Mutate, CheckUpdate, PlanFor, UpdatePools, AddressList, L.Well, PlanFits, Covers, AllWell, Skipped, L.CleanUpgrade;
    var prev := w.c.services[i];
    UpdateReady(w, i, obj, rand, rand2, m, v);
    SameAfterCalls(w.c.services, m.cluster);
    SamePools(w.c.services, w.c, m.cluster);
    AllWellReplaced(w.c.services, i, m.svc);
    if Skipped(prev, m.svc) && v.cluster.pools == w.c.pools {
      SamePools(w.c.services, w.c, v.cluster);
      SkippedUpdateCovers(w.c.services, i, m.svc, v.cluster);
    } else {
      PlannedUpdateCovers(w.c.services, i, m.svc, PlanFor(prev, m.svc, rand2, m.cluster), After3(m.cluster));
    }
  }

  lemma UpdateStepCovers(w: World, i: nat, obj: Svc, dry: bool, rand: string, rand2: string)
    requires PoolsCover(w) && L.CleanUpgrade(w, UpdateOp(obj, dry, rand, rand2))
    requires i == IndexOf(w.c.services, obj.id) < |w.c.services|
    requires UpdateStep(w, i, obj, dry, rand, rand2).c.addsFailed == w.c.addsFailed
    ensures var after := UpdateStep(w, i, obj, dry, rand, rand2).c;
            AllWell(after.services) && Covers(after.services, after)
  {
    hide Mutate, CheckUpdate, PlanFor, UpdatePools, UpdateLeases, Covers, AllWell, L.CleanUpgrade;
    var after := UpdateStep(w, i, obj, dry, rand, rand2).c;
    var prev := w.c.services[i];
    var submitted := Submitted(obj, prev.ingress);
    var m := Mutate(submitted, false, dry, rand, w.c, w.r);
    MutatePools(submitted, false, dry, rand, w.c, w.r);
    MutateServices(submitted, false, dry, rand, w.c, w.r);
    if m.ok {
      var v := CheckUpdate(prev, m.svc, dry, rand2, m.cluster, m.reg);
      UpdateServices(prev, m.svc, dry, rand2, m.cluster, m.reg);
      UpdatePoolsVerdict(prev, m.svc, dry, rand2, m.cluster, m.reg);
      if v.ok && !dry {
        AcceptedUpdateCovers(w, i, obj, rand, rand2, m, v);
        SamePools(after.services, v.cluster, after);
      } else {
        SamePools(w.c.services, w.c, after);
      }
    } else {
      SamePools(w.c.services, w.c, after);
    }
  }

  lemma DeleteStepCovers(w: World, i: nat, dry: bool)
    requires PoolsCover(w) && i < |w.c.services|
    ensures var after := DeleteStep(w, i, dry).c;
            AllWell(after.services) && Covers(after.services, after)
  {
    hide CheckDelete, RemoveFromPool, AddressList, L.Well, Needs, PoolOf;
    var svc, after := w.c.services[i], DeleteStep(w, i, dry).c;
    var v := CheckDelete(svc, dry, w.c, w.r);
    DeleteServices(svc, dry, w.c, w.r);
    DeletePools(svc, dry, w.c, w.r);
    SameAfterCalls(w.c.services, w.c);
    forall z, t | Needs(after.services, z, t) ensures t in PoolOf(after, z) {
      if v.cluster.pools == w.c.pools {
        SamePools(w.c.services, w.c, after);
        FewerNeeds(w.c.services, i, z, t);
      } else {
        DeleteCovers(w.c.services, i, After3(w.c), z, t);
        SamePools(w.c.services, v.cluster, after);
        assert PoolOf(v.cluster, z) == PoolOf(after, z) by { SamePoolOf(v.cluster, after, z); }
      }
    }
  }

  lemma SamePoolOf(c1: Cluster, c2: Cluster, z: string)
    requires c1.pools == c2.pools
    ensures PoolOf(c1, z) == PoolOf(c2, z)
  {
  }

  lemma FewerNeeds(services: seq<Svc>, i: nat, z: string, t: string)
    requires i < |services|
    ensures Needs(services[..i] + services[i + 1..], z, t) ==> Needs(services, z, t)
  {
    hide Uses;
    NeedsTakenOut(services, i, z, t);
  }

  /** One step keeps every pool covering: all failures are allowed but a failed addition on an accepted update. */
  lemma PoolsCoverStep(w: World, op: Op)
    requires PoolsCover(w) && L.CleanUpgrade(w, op)
    requires op.UpdateOp? ==> Step(w, op).c.addsFailed == w.c.addsFailed
    ensures PoolsCover(Step(w, op))
  {
    hide CreateStep, UpdateStep, DeleteStep, AllWell, Covers, L.CleanUpgrade;
    IdsStayDistinct(w, op);
    var i := IndexOf(w.c.services, TargetOf(op));
    match op
    case CreateOp(obj, dry, rand) => CreateStepCovers(w, obj, dry, rand);
    case UpdateOp(obj, dry, rand, rand2) =>
      if i < |w.c.services| {
        UpdateStepCovers(w, i, obj, dry, rand, rand2);
      }
    case DeleteOp(_, dry) =>
      if i < |w.c.services| {
        DeleteStepCovers(w, i, dry);
      }
    case StatusOp(_, ingress) =>
      if i < |w.c.services| {
        StatusStep(w.c.services, i, ingress, w.c, Step(w, op).c);
      }
  }

  lemma StatusStep(services: seq<Svc>, i: nat, ingress: bool, c: Cluster, after: Cluster)
    requires i < |services| && after.pools == c.pools && after.services == services[i := services[i].(ingress := ingress)]
    ensures AllWell(services) ==> AllWell(after.services)
    ensures Covers(services, c) ==> Covers(after.services, after)
    ensures Tight(services, c) ==> Tight(after.services, after)
  {
    hide Needs, AddressList, Distinct, ValidList;
    SamePools(services, c, after);
    forall z, t ensures Needs(after.services, z, t) <==> Needs(services, z, t) {
      SameUses(services, i, services[i].(ingress := ingress), z, t);
    }
    L.StatusIrrelevant(services[i], ingress, map[]);
  }

  predicate PoolAssumptions(w: World, ops: seq<Op>)
    decreases |ops|
  {
    ops == [] ||
    (&& L.CleanUpgrade(w, ops[0])
     && (ops[0].UpdateOp? ==> Step(w, ops[0]).c.addsFailed == w.c.addsFailed)
     && PoolAssumptions(Step(w, ops[0]), ops[1..]))
  }

  /** Pool coverage in every state of every run. */
  lemma {:induction false} PoolsCoverRun(w: World, ops: seq<Op>)
    requires PoolsCover(w) && PoolAssumptions(w, ops)
    ensures PoolsCover(Run(w, ops))
    decreases |ops|
  {
    hide Step, PoolsCover, L.CleanUpgrade;
    if ops != [] {
      PoolsCoverStep(w, ops[0]);
      PoolsCoverRun(Step(w, ops[0]), ops[1..]);
    }
  }
}
