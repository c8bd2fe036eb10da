/** Admissions as steps of a state machine over the three stores, and runs of such steps. */
module Admission {
  import opened Services
  import opened Ipam
  import opened Mutation
  import opened Validation
  import Pools

  datatype World = World(c: Pools.Cluster, r: Register)

  /** What reaches the operator. `Status` is the load balancer controller setting or clearing the ingress of a
      Service; the hooks are not called for it. */
  datatype Op =
    | CreateOp(obj: Svc, dry: bool, rand: string)
    | UpdateOp(obj: Svc, dry: bool, rand: string, rand2: string)
    | DeleteOp(id: Id, dry: bool)
    | StatusOp(id: Id, ingress: bool)

  function TargetOf(op: Op): Id {
    match op
    case CreateOp(obj, _, _) => obj.id
    case UpdateOp(obj, _, _, _) => obj.id
    case DeleteOp(id, _) => id
    case StatusOp(id, _) => id
  }

  /** The position of a Service in the store; the length of the store when there is none. */
  function IndexOf(services: seq<Svc>, id: Id): (i: nat)
    ensures i <= |services|
    ensures i < |services| ==> services[i].id == id
    ensures forall k | 0 <= k < i :: services[k].id != id
  {
    if services == [] || services[0].id == id then 0 else 1 + IndexOf(services[1..], id)
  }

  predicate DistinctIds(services: seq<Svc>) {
    forall i, j :: 0 <= i < j < |services| ==> services[i].id != services[j].id
  }

  /** A submitted object never sets the status: a new one has no ingress, an updated one keeps the stored one's. */
  function Submitted(obj: Svc, ingress: bool): Svc { obj.(ingress := ingress) }

  /** A creation commits iff both hooks accept, it is no dry run and the name is free. */
  function CreateStep(w: World, obj: Svc, dry: bool, rand: string): World {
    var m := Mutate(Submitted(obj, false), true, dry, rand, w.c, w.r);
    if !m.ok then World(m.cluster, m.reg)
    else
      var v := CheckCreate(m.svc, dry, m.cluster, m.reg);
      if v.ok && !dry && IndexOf(w.c.services, obj.id) == |w.c.services|
      then World(v.cluster.(services := w.c.services + [m.svc]), v.reg)
      else World(v.cluster, v.reg)
  }

  function UpdateStep(w: World, i: nat, obj: Svc, dry: bool, rand: string, rand2: string): World
    requires i < |w.c.services|
  {
    var prev := w.c.services[i];
    var m := Mutate(Submitted(obj, prev.ingress), false, dry, rand, w.c, w.r);
    if !m.ok then World(m.cluster, m.reg)
    else
      var v := CheckUpdate(prev, m.svc, dry, rand2, m.cluster, m.reg);
      if v.ok && !dry then World(v.cluster.(services := w.c.services[i := m.svc]), v.reg)
      else World(v.cluster, v.reg)
  }

  function DeleteStep(w: World, i: nat, dry: bool): World
    requires i < |w.c.services|
  {
    var v := CheckDelete(w.c.services[i], dry, w.c, w.r);
    if v.ok && !dry then World(v.cluster.(services := w.c.services[..i] + w.c.services[i + 1..]), v.reg)
    else World(v.cluster, v.reg)
  }

  predicate UpdateCommits(w: World, i: nat, obj: Svc, dry: bool, rand: string, rand2: string)
    requires i < |w.c.services|
  {
    var m := Mutate(Submitted(obj, w.c.services[i].ingress), false, dry, rand, w.c, w.r);
    m.ok && !dry && CheckUpdate(w.c.services[i], m.svc, dry, rand2, m.cluster, m.reg).ok
  }

  predicate DeleteCommits(w: World, i: nat, dry: bool)
    requires i < |w.c.services|
  {
    !dry && CheckDelete(w.c.services[i], dry, w.c, w.r).ok
  }

  /** Updates and deletions of an unknown Service do not reach the hooks. */
  function Step(w: World, op: Op): World {
    var i := IndexOf(w.c.services, TargetOf(op));
    match op
    case CreateOp(obj, dry, rand) => CreateStep(w, obj, dry, rand)
    case UpdateOp(obj, dry, rand, rand2) =>
      if i < |w.c.services| then UpdateStep(w, i, obj, dry, rand, rand2) else w
    case DeleteOp(_, dry) =>
      if i < |w.c.services| then DeleteStep(w, i, dry) else w
    case StatusOp(_, ingress) =>
      if i < |w.c.services|
      then w.(c := w.c.(services := w.c.services[i := w.c.services[i].(ingress := ingress)])) else w
  }

  function Run(w: World, ops: seq<Op>): World
    decreases |ops|
  {
    if ops == [] then w else Run(Step(w, ops[0]), ops[1..])
  }

  /** A step is one of: nothing committed, one Service added at the end, replaced in place, or taken out. */
  lemma MutateServices(svc: Svc, create: bool, dry: bool, rand: string, c: Pools.Cluster, r: Register)
    ensures Mutate(svc, create, dry, rand, c, r).cluster.services == c.services
  {
    hide LeaseMissing, WithDefaults, Reconcilable, Pools.SecretValue, Pools.HasSecret, Exists;
  }

  lemma CreateServices(svc: Svc, dry: bool, c: Pools.Cluster, r: Register)
    ensures CheckCreate(svc, dry, c, r).cluster.services == c.services
  {
    hide ValidateEach, ReleaseEach, AddressList, Pools.SecretValue, Pools.HasSecret, Pools.AddForms;
  }

  lemma PoolServices(c: Pools.Cluster, zone: string, addrs: seq<string>)
    ensures Pools.AddToPool(c, zone, addrs).cluster.services == c.services
    ensures Pools.VerifyPool(c, zone).cluster.services == c.services
    ensures Pools.RemoveFromPool(c, zone, addrs).cluster.services == c.services
  {
    hide Pools.AddForms, Pools.Reduced, Pools.Unused;
  }

  lemma UpdateServices(prev: Svc, svc: Svc, dry: bool, rand: string, c: Pools.Cluster, r: Register)
    ensures CheckUpdate(prev, svc, dry, rand, c, r).cluster.services == c.services
  {
    hide UpdateLeases, PlanFor, UpdatePools, Pools.SecretValue, Pools.HasSecret;
    forall p, c2: Pools.Cluster ensures UpdatePools(p, c2).services == c2.services {
      UpdatePoolsServices(p, c2);
    }
  }

  lemma UpdatePoolsServices(p: Plan, c: Pools.Cluster)
    ensures UpdatePools(p, c).services == c.services
  {
    hide Pools.AddToPool, Pools.VerifyPool, Pools.RemoveFromPool;
    var grown := if p.added != [] then Pools.AddToPool(c, Get(p.after, Zone), p.added).cluster else c;
    PoolServices(c, Get(p.after, Zone), p.added);
    PoolServices(grown, Get(p.before, Zone), p.removed);
    PoolServices(Pools.VerifyPool(grown, Get(p.before, Zone)).cluster, Get(p.before, Zone), p.removed);
  }

  lemma DeleteServices(svc: Svc, dry: bool, c: Pools.Cluster, r: Register)
    ensures CheckDelete(svc, dry, c, r).cluster.services == c.services
  {
    hide ValidateEach, ReleaseEach, AddressList, Pools.SecretValue, Pools.HasSecret, Pools.Reduced;
  }

  lemma StepServices(w: World, op: Op)
    ensures var before, after := w.c.services, Step(w, op).c.services;
            var i := IndexOf(before, TargetOf(op));
            || after == before
            || (op.CreateOp? && i == |before| && |after| == |before| + 1 && after[..|before|] == before
                && after[|before|].id == TargetOf(op))
            || (i < |before| && |after| == |before| && after == before[i := after[i]] && after[i].id == TargetOf(op))
            || (op.DeleteOp? && i < |before| && after == before[..i] + before[i + 1..])
  {
    hide Mutate, CheckCreate, CheckUpdate, CheckDelete;
    var i := IndexOf(w.c.services, TargetOf(op));
    match op
    case CreateOp(obj, dry, rand) =>
      MutateServices(Submitted(obj, false), true, dry, rand, w.c, w.r);
      var m := Mutate(Submitted(obj, false), true, dry, rand, w.c, w.r);
      CreateServices(m.svc, dry, m.cluster, m.reg);
      MutateTarget(Submitted(obj, false), true, dry, rand, w.c, w.r);
    case UpdateOp(obj, dry, rand, rand2) =>
      if i < |w.c.services| {
        var submitted := Submitted(obj, w.c.services[i].ingress);
        MutateServices(submitted, false, dry, rand, w.c, w.r);
        var m := Mutate(submitted, false, dry, rand, w.c, w.r);
        UpdateServices(w.c.services[i], m.svc, dry, rand2, m.cluster, m.reg);
        MutateTarget(submitted, false, dry, rand, w.c, w.r);
      }
    case DeleteOp(_, dry) =>
      if i < |w.c.services| {
        DeleteServices(w.c.services[i], dry, w.c, w.r);
      }
    case StatusOp(_, _) =>
  }

  lemma MutateTarget(svc: Svc, create: bool, dry: bool, rand: string, c: Pools.Cluster, r: Register)
    ensures Mutate(svc, create, dry, rand, c, r).svc.id == svc.id
  {
    hide LeaseMissing, WithDefaults, Reconcilable, Pools.SecretValue, Pools.HasSecret, Exists;
  }

  lemma IdsStayDistinct(w: World, op: Op)
    requires DistinctIds(w.c.services)
    ensures DistinctIds(Step(w, op).c.services)
  {
    hide Step;
    StepServices(w, op);
  }

  /** A Service other than the target was there before the step. */
  lemma OldPosition(w: World, op: Op, k: nat) returns (j: nat)
    requires k < |Step(w, op).c.services| && Step(w, op).c.services[k].id != TargetOf(op)
    ensures j < |w.c.services| && w.c.services[j] == Step(w, op).c.services[k]
  {
    hide Step;
    StepServices(w, op);
    var before, after := w.c.services, Step(w, op).c.services;
    var i := IndexOf(before, TargetOf(op));
    if after == before || (op.CreateOp? && |after| == |before| + 1 && after[..|before|] == before) {
      j := k;
      assert |after| == |before| + 1 ==> k < |before| && after[..|before|][k] == after[k];
    } else if |after| == |before| {
      j := k;
    } else {
      j := if k < i then k else k + 1;
    }
  }

  // ---------------------------------------------------------------- the cluster and the API as objects

  method Admit(op: Op, kube: Pools.Kube, ipam: IpamApi)
    modifies kube, ipam
    ensures World(kube.State(), ipam.State()) == Step(World(old(kube.State()), old(ipam.State())), op)
  {
    hide Mutate, CheckCreate, CheckUpdate, CheckDelete;
    var i := IndexOf(kube.services, TargetOf(op));
    match op {
      case CreateOp(obj, dry, rand) =>
        var service := new Service(Submitted(obj, false));
        MutateServices(Submitted(obj, false), true, dry, rand, kube.State(), ipam.State());
        var mutated := Default(service, true, dry, rand, kube, ipam);
        if mutated {
          CreateServices(service.Value(), dry, kube.State(), ipam.State());
          var accepted := ValidateCreate(service, dry, kube, ipam);
          if accepted && !dry && i == |kube.services| {
            kube.services := kube.services + [service.Value()];
          }
        }
      case UpdateOp(obj, dry, rand, rand2) =>
        if i < |kube.services| {
          var stored := new Service(kube.services[i]);
          var service := new Service(Submitted(obj, kube.services[i].ingress));
          MutateServices(service.Value(), false, dry, rand, kube.State(), ipam.State());
          var mutated := Default(service, false, dry, rand, kube, ipam);
          if mutated {
            UpdateServices(stored.Value(), service.Value(), dry, rand2, kube.State(), ipam.State());
            var accepted := ValidateUpdate(stored, service, dry, rand2, kube, ipam);
            if accepted && !dry {
              kube.services := kube.services[i := service.Value()];
            }
          }
        }
      case DeleteOp(_, dry) =>
        if i < |kube.services| {
          var stored := new Service(kube.services[i]);
          DeleteServices(stored.Value(), dry, kube.State(), ipam.State());
          var accepted := ValidateDelete(stored, dry, kube, ipam);
          if accepted && !dry {
            kube.services := kube.services[..i] + kube.services[i + 1..];
          }
        }
      case StatusOp(_, ingress) =>
        if i < |kube.services| {
          kube.services := kube.services[i := kube.services[i].(ingress := ingress)];
        }
    }
  }

  method AdmitAll(ops: seq<Op>, kube: Pools.Kube, ipam: IpamApi)
    modifies kube, ipam
    ensures World(kube.State(), ipam.State()) == Run(World(old(kube.State()), old(ipam.State())), ops)
  {
    hide Step;
    for k := 0 to |ops|
      invariant Run(World(kube.State(), ipam.State()), ops[k..]) == Run(World(old(kube.State()), old(ipam.State())), ops)
    {
      assert ops[k..][1..] == ops[k + 1..];
      Admit(ops[k], kube, ipam);
    }
  }
}
