/** Exact leases: the register holds what the committed load balancers list and nothing else, over whole runs, and the
    exact condition under which an admission leaves a lease behind. */
module LeaseExact {
  import opened Text
  import opened Lists
  import opened Services
  import opened Ipam
  import opened Mutation
  import opened Validation
  import opened Admission
  import opened LeaseFacts
  import opened Rollback
  import opened UpdateRollback
  import opened Consequences
  import opened SecretAgreement
  import opened Rejections
  import opened Limits
  import M = MutationFacts
  import L = LeaseCoverage
  import Pools

  /** The Service lists an address of the slot. */
  predicate Claims(svc: Svc, s: Slot) {
    svc.kind == LoadBalancer && s in Slots(ZoneOf(svc), AddressList(svc.annotations))
  }

  predicate Claimed(services: seq<Svc>, s: Slot, id: Id) {
    exists i :: 0 <= i < |services| && services[i].id == id && Claims(services[i], s)
  }

  /** A Service is a member of a lease iff it is a committed load balancer that lists the address. */
  ghost predicate LeasesExact(w: World) {
    L.LeasesCover(w) && forall s, id :: Member(w.r.leases, s, id) <==> Claimed(w.c.services, s, id)
  }

  /** Coverage is one half of it. */
  lemma CoverHalf(w: World)
    requires L.LeasesCover(w)
    ensures forall s, id :: Claimed(w.c.services, s, id) ==> Member(w.r.leases, s, id)
  {
    hide AddressList, Member, L.Well;
    forall s, id | Claimed(w.c.services, s, id) ensures Member(w.r.leases, s, id) {
      var i :| 0 <= i < |w.c.services| && w.c.services[i].id == id && Claims(w.c.services[i], s);
      var a :| a in AddressList(w.c.services[i].annotations) && s == SlotOf(ZoneOf(w.c.services[i]), a);
      assert L.Covered(w.c.services[i], w.r.leases);
    }
  }

  /** Names are distinct, so who is listed under a name is the Service of that name. */
  lemma ClaimedAt(services: seq<Svc>, i: nat, s: Slot)
    requires DistinctIds(services) && i < |services|
    ensures Claimed(services, s, services[i].id) <==> Claims(services[i], s)
  {
    hide Claims;
  }

  /** Exact leases under agreeing secrets are determined by the Services. */
  lemma ExactDetermined(w1: World, w2: World)
    requires LeasesExact(w1) && AllAgree(w1) && LeasesExact(w2) && AllAgree(w2)
    requires w1.c.services == w2.c.services && w1.c.secrets == w2.c.secrets
    ensures w1.r.leases == w2.r.leases
  {
    hide L.LeasesCover, Claimed, SecretsAgree;
    forall s ensures SameAt(w1.r.leases, w2.r.leases, s) {
      forall id ensures Member(w1.r.leases, s, id) <==> Member(w2.r.leases, s, id) {
        assert Member(w1.r.leases, s, id) <==> Claimed(w1.c.services, s, id);
        assert Member(w2.r.leases, s, id) <==> Claimed(w2.c.services, s, id);
      }
      SomeMember(w1.r.leases, w2.r.leases, s);
      SomeMember(w2.r.leases, w1.r.leases, s);
      if s in w1.r.leases {
        var id :| id in w1.r.leases[s].members;
        assert Member(w1.r.leases, s, id) && Claimed(w1.c.services, s, id);
        AgreedSecret(w1, w2, s, id);
      }
    }
    SameLeases(w1.r.leases, w2.r.leases);
  }

  lemma SomeMember(l1: Leases, l2: Leases, s: Slot)
    requires forall id :: Member(l1, s, id) <==> Member(l2, s, id)
    ensures s in l1 ==> s in l2 && l1[s].members == l2[s].members
  {
    if s in l1 {
      var id :| id in l1[s].members;
      assert Member(l1, s, id) && Member(l2, s, id);
      forall i ensures i in l1[s].members <==> i in l2[s].members {
        assert Member(l1, s, i) <==> Member(l2, s, i);
      }
    }
  }

  lemma AgreedSecret(w1: World, w2: World, s: Slot, id: Id)
    requires AllAgree(w1) && AllAgree(w2) && w1.c.services == w2.c.services && w1.c.secrets == w2.c.secrets
    requires Claimed(w1.c.services, s, id)
    ensures s in w1.r.leases && s in w2.r.leases && w1.r.leases[s].secret == w2.r.leases[s].secret
  {
    hide AddressList;
    var i :| 0 <= i < |w1.c.services| && w1.c.services[i].id == id && Claims(w1.c.services[i], s);
    var svc := w1.c.services[i];
    var a :| a in AddressList(svc.annotations) && s == SlotOf(ZoneOf(svc), a);
    assert SecretsAgree(svc, w1.c, w1.r.leases) && SecretsAgree(svc, w2.c, w2.r.leases);
    assert HeldUnder(w1.r.leases, SlotOf(ZoneOf(svc), a), Pools.SecretValue(w1.c, svc.id, svc.annotations));
    assert HeldUnder(w2.r.leases, SlotOf(ZoneOf(svc), a), Pools.SecretValue(w2.c, svc.id, svc.annotations));
  }

  // ---------------------------------------------------------------- what commits

  /** The slots a Service holds after an accepted creation are those it held and those it lists. */
  lemma CreateHolds(svc: Svc, rand: string, c: Pools.Cluster, r: Register, m: Mutated, v: Verdict, s: Slot)
    requires M.Mutates(svc, false) && m == Mutate(svc, true, false, rand, c, r) && m.ok
    requires v == CheckCreate(m.svc, false, m.cluster, m.reg) && v.ok
    requires Member(v.reg.leases, s, svc.id)
    ensures Member(r.leases, s, svc.id) || Claims(m.svc, s)
  {
    hide Mutate, CheckCreate, FreshOf, AddressList, M.Granted, M.AllFree, Sendable, Pools.SecretValue, Member, WithDefaults,
         IsValidIp, CountWith, Enlisted, M.LeasingOf, M.Added;
    var zone, list, added := ZoneOf(m.svc), AddressList(m.svc.annotations), FreshOf(svc, rand, c, r);
    var secret := Pools.SecretValue(m.cluster, m.svc.id, m.svc.annotations);
    M.MutateShape(svc, true, rand, c, r);
    FreshFacts(svc, true, rand, c, r);
    AcceptedCreate(m.svc, m.cluster, m.reg);
    GrantedSlots(r.leases, zone, added, secret, svc.id);
    FreshAmong(svc, true, rand, c, r, m);
    SlotsWithin(zone, added, list);
    AddedMembers(r.leases, m.reg.leases, v.reg.leases, Slots(zone, added), Slots(zone, list), secret, svc.id, s);
  }

  lemma FreshAmong(svc: Svc, create: bool, rand: string, c: Pools.Cluster, r: Register, m: Mutated)
    requires M.Mutates(svc, false) && m == Mutate(svc, create, false, rand, c, r) && m.ok
    ensures forall a | a in FreshOf(svc, rand, c, r) :: a in AddressList(m.svc.annotations)
  {
    hide Mutate, AddressList, M.ExtendsLeases, Sendable, WithDefaults, IsValidIp, CountWith, M.LeasingOf, M.Added;
    M.MutateShape(svc, create, rand, c, r);
  }

  lemma AcceptedCreate(svc: Svc, c: Pools.Cluster, r: Register)
    requires svc.kind == LoadBalancer && CheckCreate(svc, false, c, r).ok
    ensures Enlisted(r.leases, CheckCreate(svc, false, c, r).reg.leases, Slots(ZoneOf(svc), AddressList(svc.annotations)),
                     Pools.SecretValue(c, svc.id, svc.annotations), svc.id)
  {
    hide ValidateEach, ReleaseEach, AddressList, Pools.SecretValue, Pools.FetchSecret, Pools.AddToPool, Pools.Call, Enlisted;
    var addrs := AddressList(svc.annotations);
    ValidateOutcome(addrs, svc.annotations, svc.id, Pools.SecretValue(c, svc.id, svc.annotations), r);
    assert addrs[..|addrs|] == addrs;
  }

  lemma AddedMembers(l0: Leases, l1: Leases, l2: Leases, granted: set<Slot>, S: set<Slot>, secret: string, id: Id, s: Slot)
    requires GrantedTo(l0, l1, granted, secret, id) && Enlisted(l1, l2, S, secret, id) && granted <= S
    ensures Member(l2, s, id) ==> Member(l0, s, id) || s in S
  {
    if s !in S {
      assert SameAt(l0, l1, s) && SameAt(l1, l2, s);
    }
  }

  /** The slots a Service holds after a mutation are those it held and those it lists now. */
  lemma MutateHolds(svc: Svc, rand: string, c: Pools.Cluster, r: Register, m: Mutated, s: Slot)
    requires M.Mutates(svc, false) && m == Mutate(svc, false, false, rand, c, r) && m.ok && Member(m.reg.leases, s, svc.id)
    ensures Member(r.leases, s, svc.id) || Claims(m.svc, s)
  {
    hide Mutate, FreshOf, AddressList, M.Granted, M.AllFree, Sendable, Pools.SecretValue, WithDefaults, IsValidIp, CountWith,
         M.LeasingOf, M.Added;
    var zone, added := ZoneOf(m.svc), FreshOf(svc, rand, c, r);
    var secret := Pools.SecretValue(m.cluster, m.svc.id, m.svc.annotations);
    M.MutateShape(svc, false, rand, c, r);
    FreshFacts(svc, false, rand, c, r);
    FreshAmong(svc, false, rand, c, r, m);
    SlotsWithin(zone, added, AddressList(m.svc.annotations));
    GrantedSlots(r.leases, zone, added, secret, svc.id);
    assert s !in Slots(zone, added) ==> SameAt(r.leases, m.reg.leases, s);
  }

  /** An accepted update of a load balancer whose secret agrees gives up what it no longer lists iff there is nothing to
      give up or the stored annotations parse. */
  predicate GivesUp(prev: Svc, next: Svc) {
    Without(AddressList(prev.annotations), AddressList(next.annotations)) == [] || Sendable(prev.annotations)
  }

  /** What a load balancer that stays one holds after an accepted update, if nothing is left over, is listed. */
  lemma UpdateHolds(prev: Svc, next: Svc, rand: string, c: Pools.Cluster, r: Register, s: Slot)
    requires prev.kind == LoadBalancer && next.kind == LoadBalancer && prev.id == next.id && L.Well(prev) && L.Well(next)
    requires L.Covered(prev, r.leases) && SecretsAgree(prev, c, r.leases) && CheckUpdate(prev, next, false, rand, c, r).ok
    requires CheckUpdate(prev, next, false, rand, c, r).reg.tally.deletesFailed == r.tally.deletesFailed
    requires GivesUp(prev, next) && (Claims(prev, s) || Claims(next, s) || !Member(r.leases, s, next.id))
    requires Member(CheckUpdate(prev, next, false, rand, c, r).reg.leases, s, next.id)
    ensures Claims(next, s)
  {
    hide CheckUpdate, PlanFor, UpdateLeases, AddressList, Without, Within, L.Well, SecretsAgree, Sendable, Member, L.Covered;
    var v, p := CheckUpdate(prev, next, false, rand, c, r), PlanFor(prev, next, rand, c);
    L.UpdateVerdict(prev, next, false, rand, c, r);
    L.PlanLists(prev, next, rand, c);
    if v.reg == r && p.before == p.after {
      L.UnchangedAnnotations(prev, next, rand, c);
    } else {
      UpdateGains(next.id, p, r, s);
      NewClaimed(next, s, AddressList(prev.annotations));
      if Claims(prev, s) && !Claims(next, s) {
        var a :| a in AddressList(prev.annotations) && s == SlotOf(ZoneOf(prev), a);
        WithoutHas(AddressList(prev.annotations), AddressList(next.annotations), a);
        if a in AddressList(next.annotations) {
          KeptAddressKeepsZone(prev, next, rand, c, r, a);
          assert false by { SlotsHas(ZoneOf(next), AddressList(next.annotations), a); }
        }
        RemovedReleased(prev, next, rand, c, r, p, a);
      }
    }
  }

  /** If something is left over, a removed address is still held and no longer listed. */
  lemma LeftOver(prev: Svc, next: Svc, rand: string, c: Pools.Cluster, r: Register) returns (s: Slot)
    requires prev.kind == LoadBalancer && next.kind == LoadBalancer && prev.id == next.id && L.Well(prev)
    requires L.Covered(prev, r.leases) && SecretsAgree(prev, c, r.leases) && CheckUpdate(prev, next, false, rand, c, r).ok
    requires CheckUpdate(prev, next, false, rand, c, r).reg.tally.deletesFailed == r.tally.deletesFailed
    requires !GivesUp(prev, next)
    ensures Member(CheckUpdate(prev, next, false, rand, c, r).reg.leases, s, next.id) && !Claims(next, s)
  {
    hide CheckUpdate, PlanFor, UpdateLeases, AddressList, Without, Within, L.Well, SecretsAgree, Sendable, Member, L.Covered;
    var v, p := CheckUpdate(prev, next, false, rand, c, r), PlanFor(prev, next, rand, c);
    L.UpdateVerdict(prev, next, false, rand, c, r);
    L.PlanLists(prev, next, rand, c);
    var a := p.removed[0];
    assert a in p.removed;
    WithoutHas(AddressList(prev.annotations), AddressList(next.annotations), a);
    SameMeansNone(prev, next, rand, c);
    RemovedReleased(prev, next, rand, c, r, p, a);
    s := SlotOf(ZoneOf(prev), a);
    SlotIn(ZoneOf(prev), a, ZoneOf(next), AddressList(next.annotations));
  }

  lemma SameMeansNone(prev: Svc, next: Svc, rand: string, c: Pools.Cluster)
    requires prev.kind == LoadBalancer
    ensures var p := PlanFor(prev, next, rand, c); p.before == p.after ==> p.removed == []
  {
    hide AddressList, IpamPart, Pools.SecretValue;
    var p := PlanFor(prev, next, rand, c);
    if p.before == p.after {
      var list := AddressList(IpamPart(prev.annotations));
      WithoutAll(list, list);
    }
  }

  /** A load balancer that an accepted update makes another type of keeps a lease, whatever it lists now. */
  lemma DowngradeHolds(prev: Svc, next: Svc, rand: string, c: Pools.Cluster, r: Register) returns (s: Slot)
    requires prev.kind == LoadBalancer && prev.id == next.id && L.Covered(prev, r.leases)
    requires CheckUpdate(prev, next, false, rand, c, r).ok
    ensures Member(CheckUpdate(prev, next, false, rand, c, r).reg.leases, s, next.id)
  {
    hide CheckUpdate, PlanFor, UpdateLeases, AddressList, Without, Within, Member;
    var v, p := CheckUpdate(prev, next, false, rand, c, r), PlanFor(prev, next, rand, c);
    var news, olds := AddressList(next.annotations), AddressList(prev.annotations);
    L.UpdateVerdict(prev, next, false, rand, c, r);
    L.PlanLists(prev, next, rand, c);
    forall a: string
      ensures a in p.kept <==> a in news && a in olds
      ensures a in p.added <==> a in news && a !in olds
      ensures a in p.removed <==> a in olds && a !in news
    {
      WithinHas(news, olds, a);
      WithoutHas(news, olds, a);
      WithoutHas(olds, news, a);
    }
    if v.reg == r {
      assert olds[0] in olds;
      s := SlotOf(ZoneOf(prev), olds[0]);
    } else {
      var a := news[0];
      assert a in news;
      s := SlotOf(ZoneOf(next), a);
      UpdateLeasesAdds(next.id, p, r);
      UpdateLeasesKeeps(next.id, p, r);
      NotReached(ZoneOf(next), a, ZoneOf(prev), p.removed);
      assert a !in p.added ==> p.kept != [];
    }
  }

  /** An accepted deletion drops every claimed lease iff the annotations parse. */
  lemma DeleteHolds(svc: Svc, c: Pools.Cluster, r: Register)
    requires svc.kind == LoadBalancer && L.Well(svc) && L.Covered(svc, r.leases) && SecretsAgree(svc, c, r.leases)
    requires CheckDelete(svc, false, c, r).ok
    requires var after := CheckDelete(svc, false, c, r).reg;
             after.tally.lost == r.tally.lost && after.tally.deletesFailed == r.tally.deletesFailed
             && after.tally.postsFailed == r.tally.postsFailed
    ensures var after := CheckDelete(svc, false, c, r).reg.leases;
            if Sendable(svc.annotations)
            then forall s | Member(after, s, svc.id) :: Member(r.leases, s, svc.id) && !Claims(svc, s)
            else after == r.leases && exists s :: Member(after, s, svc.id)
  {
    hide CheckDelete, AddressList, Sendable, L.Well, SecretsAgree;
    var after := CheckDelete(svc, false, c, r).reg.leases;
    DeleteOutcome(svc, c, r);
    if Sendable(svc.annotations) {
      var S := Slots(ZoneOf(svc), AddressList(svc.annotations));
      forall s | Member(after, s, svc.id) ensures Member(r.leases, s, svc.id) && s !in S {
        assert s !in S || !Member(r.leases, s, svc.id) ==> SameAt(r.leases, after, s);
      }
    } else {
      var a := AddressList(svc.annotations)[0];
      assert a in AddressList(svc.annotations);
      assert Member(after, SlotOf(ZoneOf(svc), a), svc.id);
    }
  }

  // ---------------------------------------------------------------- one step

  /** No answer is lost and every deletion is delivered; re-registrations and reverts that are sent are answered. */
  predicate Delivered(w: World, op: Op) {
    var after := Step(w, op).r.tally;
    && after.lost == w.r.tally.lost && after.deletesFailed == w.r.tally.deletesFailed
    && (op.DeleteOp? ==> after.postsFailed == w.r.tally.postsFailed)
    && (op.UpdateOp? && !op.dry ==>
          var i := IndexOf(w.c.services, op.obj.id);
          i < |w.c.services| ==> RevertsAnswered(w, i, op.obj, op.rand, op.rand2))
  }

  /** The Service that an update submits, after the mutating hook. */
  function NextOf(w: World, i: nat, obj: Svc, rand: string): Svc
    requires i < |w.c.services|
  {
    Mutate(Submitted(obj, w.c.services[i].ingress), false, false, rand, w.c, w.r).svc
  }

  /** The admission leaves no lease behind: rejected, it gives everything back; committed, a load balancer stays one and
      what it gives up can be released, or is deleted and can release everything. */
  predicate NothingLeft(w: World, op: Op) {
    var i := IndexOf(w.c.services, TargetOf(op));
    match op
    case CreateOp(obj, dry, rand) => !dry && !CreateAccepted(w, obj, rand) ==> CreateRestores(w, obj, rand)
    case UpdateOp(obj, dry, rand, rand2) =>
      i < |w.c.services| && !dry ==>
        if UpdateCommits(w, i, obj, dry, rand, rand2)
        then w.c.services[i].kind == LoadBalancer ==>
               NextOf(w, i, obj, rand).kind == LoadBalancer && GivesUp(w.c.services[i], NextOf(w, i, obj, rand))
        else UpdateRestores(w, i, obj, rand, rand2)
    case DeleteOp(_, dry) =>
      i < |w.c.services| && DeleteCommits(w, i, dry) && w.c.services[i].kind == LoadBalancer ==>
        Sendable(w.c.services[i].annotations)
    case StatusOp(_, _) => true
  }

  /** Where the Services stay, exactness stays iff the leases do. */
  lemma SameStores(w: World, after: World)
    requires LeasesExact(w) && AllAgree(w) && AllAgree(after) && L.LeasesCover(after)
    requires after.c.services == w.c.services && after.c.secrets == w.c.secrets
    ensures LeasesExact(after) <==> after.r.leases == w.r.leases
  {
    hide L.LeasesCover, AllAgree, Claimed;
    if LeasesExact(after) {
      ExactDetermined(w, after);
    }
  }

  /** Other Services' claims are not touched by a step. */
  lemma ClaimedOthers(w: World, op: Op, s: Slot, id: Id)
    requires id != TargetOf(op)
    ensures Claimed(w.c.services, s, id) <==> Claimed(Step(w, op).c.services, s, id)
  {
    hide Step, Claims;
    var before, after := w.c.services, Step(w, op).c.services;
    StepServices(w, op);
    var i := IndexOf(before, TargetOf(op));
    if j :| 0 <= j < |before| && before[j].id == id && Claims(before[j], s) {
      if |after| == |before| + 1 && after[..|before|] == before {
        assert after[..|before|][j] == after[j];
      } else if |after| == |before| {
        assert after[j] == before[j];
      } else {
        var k := if j < i then j else j - 1;
        assert after[k] == before[j];
      }
    }
    if k :| 0 <= k < |after| && after[k].id == id && Claims(after[k], s) {
      var j := OldPosition(w, op, k);
    }
  }

  /** What decides about exactness after a step are the leases of its target. */
  lemma TargetDecides(w: World, op: Op)
    requires LeasesExact(w) && L.LeasesCover(Step(w, op))
    ensures LeasesExact(Step(w, op))
       <==> forall s :: Member(Step(w, op).r.leases, s, TargetOf(op)) ==> Claimed(Step(w, op).c.services, s, TargetOf(op))
  {
    hide Step, L.LeasesCover, Claimed, Member;
    var after := Step(w, op);
    CoverHalf(after);
    L.StepTouchesOnlyTarget(w, op);
    forall s, id | id != TargetOf(op) ensures Member(after.r.leases, s, id) <==> Claimed(after.c.services, s, id) {
      ClaimedOthers(w, op, s, id);
      assert Member(w.r.leases, s, id) <==> Claimed(w.c.services, s, id);
      assert Member(w.r.leases, s, id) <==> Member(after.r.leases, s, id);
    }
  }

  lemma NobodyClaims(services: seq<Svc>, id: Id, s: Slot)
    requires IndexOf(services, id) == |services|
    ensures !Claimed(services, s, id)
  {
    hide Claims;
    forall k | 0 <= k < |services| ensures services[k].id != id {
      NotThere(services, id, k);
    }
  }

  lemma CreateExact(w: World, obj: Svc, dry: bool, rand: string)
    requires LeasesExact(w) && AllAgree(w) && Delivered(w, CreateOp(obj, dry, rand))
    requires L.LeasesCover(Step(w, CreateOp(obj, dry, rand))) && AllAgree(Step(w, CreateOp(obj, dry, rand)))
    ensures LeasesExact(Step(w, CreateOp(obj, dry, rand))) <==> NothingLeft(w, CreateOp(obj, dry, rand))
  {
    hide Mutate, CheckCreate, CreateRestores, L.LeasesCover, AllAgree, Claims, Member, Claimed;
    var op := CreateOp(obj, dry, rand);
    var after, svc := Step(w, op), Submitted(obj, false);
    StepSecrets(w, op);
    if dry {
      DryCreate(w, obj, rand);
      SameStores(w, after);
    } else if !CreateAccepted(w, obj, rand) {
      RejectedCreation(w, obj, rand);
      SameStores(w, after);
    } else if IndexOf(w.c.services, obj.id) < |w.c.services| {
      L.CreateTaken(w, obj, dry, rand);
      SameStores(w, after);
    } else {
      AcceptedCreation(w, obj, rand);
      TargetDecides(w, op);
    }
  }

  lemma DryCreate(w: World, obj: Svc, rand: string)
    ensures Step(w, CreateOp(obj, true, rand)) == w
  {
    hide LeaseMissing, WithDefaults, Reconcilable, ValidateEach, ReleaseEach, AddressList, Pools.AddToPool;
  }

  lemma AcceptedCreation(w: World, obj: Svc, rand: string)
    requires LeasesExact(w) && CreateAccepted(w, obj, rand) && IndexOf(w.c.services, obj.id) == |w.c.services|
    ensures var after := Step(w, CreateOp(obj, false, rand));
            forall s | Member(after.r.leases, s, obj.id) :: Claimed(after.c.services, s, obj.id)
  {
    hide Mutate, CheckCreate, L.LeasesCover, Claims, Member, Claimed;
    var after, svc := Step(w, CreateOp(obj, false, rand)), Submitted(obj, false);
    var m := Mutate(svc, true, false, rand, w.c, w.r);
    var v := CheckCreate(m.svc, false, m.cluster, m.reg);
    MutateTarget(svc, true, false, rand, w.c, w.r);
    forall s | Member(after.r.leases, s, obj.id) ensures Claimed(after.c.services, s, obj.id) {
      NobodyClaims(w.c.services, obj.id, s);
      assert !Member(w.r.leases, s, obj.id);
      if M.Mutates(svc, false) {
        CreateHolds(svc, rand, w.c, w.r, m, v, s);
        LastClaims(w.c.services, m.svc, s);
      } else {
        PassedCreate(svc, rand, w.c, w.r, m);
      }
    }
  }

  lemma LastClaims(services: seq<Svc>, svc: Svc, s: Slot)
    requires Claims(svc, s)
    ensures Claimed(services + [svc], s, svc.id)
  {
    hide Claims;
    assert (services + [svc])[|services|] == svc;
  }

  lemma PassedCreate(svc: Svc, rand: string, c: Pools.Cluster, r: Register, m: Mutated)
    requires !M.Mutates(svc, false) && m == Mutate(svc, true, false, rand, c, r)
    ensures CheckCreate(m.svc, false, m.cluster, m.reg).reg == r
  {
    hide ValidateEach, ReleaseEach, AddressList, Pools.AddToPool;
    L.MutateSkips(svc, true, false, rand, c, r);
  }

  lemma UpdateExact(w: World, i: nat, obj: Svc, dry: bool, rand: string, rand2: string)
    requires i == IndexOf(w.c.services, obj.id) < |w.c.services|
    requires LeasesExact(w) && AllAgree(w) && Delivered(w, UpdateOp(obj, dry, rand, rand2))
    requires L.CleanUpgrade(w, UpdateOp(obj, dry, rand, rand2))
    requires L.LeasesCover(Step(w, UpdateOp(obj, dry, rand, rand2))) && AllAgree(Step(w, UpdateOp(obj, dry, rand, rand2)))
    ensures LeasesExact(Step(w, UpdateOp(obj, dry, rand, rand2))) <==> NothingLeft(w, UpdateOp(obj, dry, rand, rand2))
  {
    hide Mutate, CheckUpdate, UpdateRestores, L.LeasesCover, AllAgree, Claims, Member, Claimed, RevertsAnswered, GivesUp,
         UpdateCommits, UpdateStep, L.CleanUpgrade;
    var op := UpdateOp(obj, dry, rand, rand2);
    var after := Step(w, op);
    StepSecrets(w, op);
    if dry {
      DryStep(w, i, obj, rand, rand2);
      SameStores(w, after);
    } else if !UpdateCommits(w, i, obj, false, rand, rand2) {
      RejectedUpdate(w, i, obj, rand, rand2);
      SameStores(w, after);
    } else {
      TargetDecides(w, op);
      CommittedUpdate(w, i, obj, rand, rand2);
    }
  }

  lemma DryStep(w: World, i: nat, obj: Svc, rand: string, rand2: string)
    requires i == IndexOf(w.c.services, obj.id) < |w.c.services|
    ensures Step(w, UpdateOp(obj, true, rand, rand2)) == w
  {
    hide LeaseMissing, WithDefaults, Reconcilable, UpdateLeases, UpdatePools, PlanFor;
  }

  /** What the target of a committed update holds and claims afterwards. */
  lemma CommittedUpdate(w: World, i: nat, obj: Svc, rand: string, rand2: string)
    requires i == IndexOf(w.c.services, obj.id) < |w.c.services|
    requires LeasesExact(w) && AllAgree(w) && Delivered(w, UpdateOp(obj, false, rand, rand2))
    requires L.CleanUpgrade(w, UpdateOp(obj, false, rand, rand2)) && UpdateCommits(w, i, obj, false, rand, rand2)
    ensures var after := Step(w, UpdateOp(obj, false, rand, rand2));
            (forall s :: Member(after.r.leases, s, obj.id) ==> Claimed(after.c.services, s, obj.id))
            <==> (w.c.services[i].kind == LoadBalancer ==>
                    NextOf(w, i, obj, rand).kind == LoadBalancer && GivesUp(w.c.services[i], NextOf(w, i, obj, rand)))
  {
    hide Mutate, CheckUpdate, L.Covered, L.Well, SecretsAgree, Claims, Member, Claimed, RevertsAnswered, GivesUp;
    var prev, next := w.c.services[i], NextOf(w, i, obj, rand);
    var svc := Submitted(obj, prev.ingress);
    var m := Mutate(svc, false, false, rand, w.c, w.r);
    var v := CheckUpdate(prev, next, false, rand2, m.cluster, m.reg);
    var after := Step(w, UpdateOp(obj, false, rand, rand2));
    MutateTarget(svc, false, false, rand, w.c, w.r);
    FreshFacts(svc, false, rand, w.c, w.r);
    NewWell(svc, rand, w.c, w.r);
    assert after.r == v.reg && after.c.services == w.c.services[i := next];
    forall s
      ensures Claimed(after.c.services, s, obj.id) <==> Claims(next, s)
      ensures Member(w.r.leases, s, obj.id) <==> Claims(prev, s)
    {
      ReplacedDistinct(w.c.services, i, next);
      ClaimedAt(after.c.services, i, s);
      ClaimedAt(w.c.services, i, s);
      assert Member(w.r.leases, s, obj.id) <==> Claimed(w.c.services, s, obj.id);
    }
    if prev.kind == LoadBalancer {
      MutateUndisturbed(svc, false, false, rand, w.c, w.r);
      OwnAgrees(prev, w.c, m.cluster, w.r.leases, m.reg.leases);
      if next.kind != LoadBalancer {
        var s := DowngradeHolds(prev, next, rand2, m.cluster, m.reg);
        NoClaim(next, s);
      } else if !GivesUp(prev, next) {
        var s := LeftOver(prev, next, rand2, m.cluster, m.reg);
      } else {
        forall s | Member(after.r.leases, s, obj.id) ensures Claims(next, s) {
          KeptClaims(w, prev, next, svc, rand, m, s);
          UpdateHolds(prev, next, rand2, m.cluster, m.reg, s);
        }
      }
    } else {
      forall s | Member(after.r.leases, s, obj.id) ensures Claims(next, s) {
        NoClaim(prev, s);
        UpgradeHolds(prev, svc, rand, rand2, w.c, w.r, m, s);
      }
    }
  }

  lemma ReplacedDistinct(services: seq<Svc>, i: nat, next: Svc)
    requires DistinctIds(services) && i < |services| && services[i].id == next.id
    ensures DistinctIds(services[i := next])
  {
  }

  lemma NoClaim(svc: Svc, s: Slot)
    requires svc.kind != LoadBalancer
    ensures !Claims(svc, s)
  {
  }

  /** After the mutating hook the Service holds what it held and what it lists now. */
  lemma KeptClaims(w: World, prev: Svc, next: Svc, svc: Svc, rand: string, m: Mutated, s: Slot)
    requires m == Mutate(svc, false, false, rand, w.c, w.r) && m.ok && next == m.svc && next.kind == LoadBalancer
    requires Member(w.r.leases, s, svc.id) <==> Claims(prev, s)
    ensures Claims(prev, s) || Claims(next, s) || !Member(m.reg.leases, s, svc.id)
  {
    hide Mutate, Claims, Member;
    NewWell(svc, rand, w.c, w.r);
    if Member(m.reg.leases, s, svc.id) {
      MutateHolds(svc, rand, w.c, w.r, m, s);
    }
  }

  /** A Service without leases that an accepted update leaves or makes a load balancer holds what it lists. */
  lemma UpgradeHolds(prev: Svc, svc: Svc, rand: string, rand2: string, c: Pools.Cluster, r: Register, m: Mutated, s: Slot)
    requires prev.kind != LoadBalancer && m == Mutate(svc, false, false, rand, c, r) && m.ok
    requires m.svc.kind == LoadBalancer ==> Get(prev.annotations, Addresses) == ""
    requires CheckUpdate(prev, m.svc, false, rand2, m.cluster, m.reg).ok && !Member(r.leases, s, svc.id)
    requires Member(CheckUpdate(prev, m.svc, false, rand2, m.cluster, m.reg).reg.leases, s, svc.id)
    ensures Claims(m.svc, s)
  {
    hide Mutate, CheckUpdate, PlanFor, UpdateLeases, Claims, Member, Without;
    MutateTarget(svc, false, false, rand, c, r);
    NewWell(svc, rand, c, r);
    var p := PlanFor(prev, m.svc, rand2, m.cluster);
    AcceptedStage(prev, m.svc, rand2, m.cluster, m.reg);
    if m.svc.kind != LoadBalancer {
      PassedUpdate(prev, svc, rand, rand2, c, r, m);
    } else {
      L.PlanUpgrade(prev, m.svc, rand2, m.cluster);
      if Member(m.reg.leases, s, svc.id) {
        MutateHolds(svc, rand, c, r, m, s);
      } else {
        UpdateGains(svc.id, p, m.reg, s);
        NewClaimed(m.svc, s, [""]);
      }
    }
  }

  lemma NewClaimed(svc: Svc, s: Slot, olds: seq<string>)
    requires svc.kind == LoadBalancer
    ensures s in Slots(ZoneOf(svc), Without(AddressList(svc.annotations), olds)) ==> Claims(svc, s)
  {
    hide AddressList;
    forall a | a in Without(AddressList(svc.annotations), olds) ensures a in AddressList(svc.annotations) {
      WithoutHas(AddressList(svc.annotations), olds, a);
    }
  }

  /** Neither hook looks at a Service that is no load balancer before or after. */
  lemma PassedUpdate(prev: Svc, svc: Svc, rand: string, rand2: string, c: Pools.Cluster, r: Register, m: Mutated)
    requires prev.kind != LoadBalancer && m == Mutate(svc, false, false, rand, c, r) && m.ok && m.svc.kind != LoadBalancer
    ensures CheckUpdate(prev, m.svc, false, rand2, m.cluster, m.reg).reg == r
  {
    hide UpdateLeases, UpdatePools, PlanFor, M.Shaped, M.Extends, LeaseMissing, WithDefaults, Reconcilable;
    if M.Mutates(svc, false) {
      M.MutateShape(svc, false, rand, c, r);
    } else {
      L.MutateSkips(svc, false, false, rand, c, r);
    }
  }

  lemma DeleteExact(w: World, i: nat, id: Id, dry: bool)
    requires i == IndexOf(w.c.services, id) < |w.c.services|
    requires LeasesExact(w) && AllAgree(w) && Delivered(w, DeleteOp(id, dry))
    requires L.LeasesCover(Step(w, DeleteOp(id, dry))) && AllAgree(Step(w, DeleteOp(id, dry)))
    ensures LeasesExact(Step(w, DeleteOp(id, dry))) <==> NothingLeft(w, DeleteOp(id, dry))
  {
    hide CheckDelete, L.LeasesCover, AllAgree, Claims, Member, Claimed, L.Covered, L.Well, SecretsAgree, Sendable;
    var op := DeleteOp(id, dry);
    var after, svc := Step(w, op), w.c.services[i];
    StepSecrets(w, op);
    TargetStands(w, i);
    if dry {
      DryDelete(svc, w.c, w.r);
      SameStores(w, after);
    } else if !DeleteCommits(w, i, false) {
      DeleteKind(svc, w.c, w.r);
      RejectedDeletion(w, i);
      SameStores(w, after);
    } else {
      TargetDecides(w, op);
      CommittedDelete(w, i, id);
    }
  }

  lemma DryDelete(svc: Svc, c: Pools.Cluster, r: Register)
    ensures CheckDelete(svc, true, c, r) == Verdict(true, c, r)
  {
  }

  lemma TargetStands(w: World, i: nat)
    requires LeasesExact(w) && AllAgree(w) && i < |w.c.services|
    ensures L.Well(w.c.services[i]) && L.Covered(w.c.services[i], w.r.leases)
    ensures w.c.services[i].kind == LoadBalancer ==> SecretsAgree(w.c.services[i], w.c, w.r.leases)
  {
    hide L.Well, L.Covered, SecretsAgree, Claimed, Member;
  }

  lemma CommittedDelete(w: World, i: nat, id: Id)
    requires i == IndexOf(w.c.services, id) < |w.c.services|
    requires LeasesExact(w) && AllAgree(w) && Delivered(w, DeleteOp(id, false)) && DeleteCommits(w, i, false)
    ensures var after := Step(w, DeleteOp(id, false));
            (forall s :: Member(after.r.leases, s, id) ==> Claimed(after.c.services, s, id))
            <==> (w.c.services[i].kind == LoadBalancer ==> Sendable(w.c.services[i].annotations))
  {
    hide CheckDelete, L.LeasesCover, Claims, Member, Claimed, L.Covered, L.Well, SecretsAgree, Sendable;
    var after, svc := Step(w, DeleteOp(id, false)), w.c.services[i];
    TargetStands(w, i);
    forall s
      ensures !Claimed(after.c.services, s, id)
      ensures Member(w.r.leases, s, id) <==> Claims(svc, s)
    {
      LeasesDistinct(w);
      TakenOutClaims(w.c.services, i, s);
      ClaimedAt(w.c.services, i, s);
      assert Member(w.r.leases, s, id) <==> Claimed(w.c.services, s, id);
    }
    if svc.kind == LoadBalancer {
      DeleteHolds(svc, w.c, w.r);
    } else {
      PassedDelete(svc, w.c, w.r);
      forall s ensures !Member(after.r.leases, s, id) {
        NoClaim(svc, s);
      }
    }
  }

  lemma LeasesDistinct(w: World)
    requires L.LeasesCover(w)
    ensures DistinctIds(w.c.services)
  {
  }

  lemma TakenOutClaims(services: seq<Svc>, i: nat, s: Slot)
    requires DistinctIds(services) && i < |services|
    ensures !Claimed(services[..i] + services[i + 1..], s, services[i].id)
  {
    hide Claims;
  }

  lemma PassedDelete(svc: Svc, c: Pools.Cluster, r: Register)
    requires svc.kind != LoadBalancer
    ensures CheckDelete(svc, false, c, r).reg == r
  {
  }

  lemma StatusExact(w: World, id: Id, ingress: bool)
    requires LeasesExact(w) && L.LeasesCover(Step(w, StatusOp(id, ingress)))
    ensures LeasesExact(Step(w, StatusOp(id, ingress)))
  {
    hide L.LeasesCover, Member, Claims;
    var i := IndexOf(w.c.services, id);
    var after := Step(w, StatusOp(id, ingress));
    if i < |w.c.services| {
      forall s, who ensures Claimed(after.c.services, s, who) <==> Claimed(w.c.services, s, who) {
        StatusClaims(w.c.services[i], ingress, s);
        if j :| 0 <= j < |w.c.services| && w.c.services[j].id == who && Claims(w.c.services[j], s) {
          assert after.c.services[j].id == who && Claims(after.c.services[j], s);
        }
      }
    }
  }

  lemma StatusClaims(svc: Svc, ingress: bool, s: Slot)
    ensures Claims(svc.(ingress := ingress), s) <==> Claims(svc, s)
  {
    hide AddressList;
  }

  /** One step, accepted or rejected, keeps the leases exact iff it leaves nothing behind. */
  lemma LeasesExactStep(w: World, op: Op)
    requires LeasesExact(w) && AllAgree(w) && L.CleanUpgrade(w, op) && SoundRotation(w, op) && Delivered(w, op)
    ensures LeasesExact(Step(w, op)) <==> NothingLeft(w, op)
    ensures AllAgree(Step(w, op))
  {
    hide Mutate, CheckCreate, CheckUpdate, CheckDelete, LeasesExact, AllAgree, L.CleanUpgrade, SoundRotation, Claimed,
         L.LeasesCover;
    assert L.LeasesCover(w) by { ExactCovers(w); }
    assert op.DeleteOp? ==> Step(w, op).r.tally.postsFailed == w.r.tally.postsFailed;
    L.LeasesCoverStep(w, op);
    SecretsStep(w, op);
    var i := IndexOf(w.c.services, TargetOf(op));
    match op
    case CreateOp(obj, dry, rand) => CreateExact(w, obj, dry, rand);
    case UpdateOp(obj, dry, rand, rand2) =>
      if i < |w.c.services| {
        UpdateExact(w, i, obj, dry, rand, rand2);
      }
    case DeleteOp(id, dry) =>
      if i < |w.c.services| {
        DeleteExact(w, i, id, dry);
      }
    case StatusOp(id, ingress) => StatusExact(w, id, ingress);
  }

  lemma ExactCovers(w: World)
    requires LeasesExact(w)
    ensures L.LeasesCover(w)
  {
  }

  // ---------------------------------------------------------------- runs

  /** Every call that is sent is answered, Services without addresses are the only ones turned into load balancers, and
      rotations are sound. */
  predicate DeliveredRun(w: World, ops: seq<Op>)
    decreases |ops|
  {
    ops == [] ||
    (&& L.CleanUpgrade(w, ops[0]) && SoundRotation(w, ops[0]) && Delivered(w, ops[0])
     && DeliveredRun(Step(w, ops[0]), ops[1..]))
  }

  predicate NothingLeftRun(w: World, ops: seq<Op>)
    decreases |ops|
  {
    ops == [] || (NothingLeft(w, ops[0]) && NothingLeftRun(Step(w, ops[0]), ops[1..]))
  }

  ghost predicate LeasesExactThroughout(w: World, ops: seq<Op>)
    decreases |ops|
  {
    LeasesExact(w) && (ops == [] || LeasesExactThroughout(Step(w, ops[0]), ops[1..]))
  }

  /** Along a run whose calls are answered the leases are exact in every state iff no step leaves one behind. */
  lemma {:induction false} LeasesExactIff(w: World, ops: seq<Op>)
    requires LeasesExact(w) && AllAgree(w) && DeliveredRun(w, ops)
    ensures LeasesExactThroughout(w, ops) <==> NothingLeftRun(w, ops)
    decreases |ops|
  {
    hide Step, LeasesExact, AllAgree, L.CleanUpgrade, SoundRotation, Delivered, NothingLeft;
    if ops != [] {
      LeasesExactStep(w, ops[0]);
      if NothingLeft(w, ops[0]) {
        LeasesExactIff(Step(w, ops[0]), ops[1..]);
      } else {
        assert !LeasesExactThroughout(Step(w, ops[0]), ops[1..]);
      }
    }
  }

  lemma {:induction false} ThroughoutEnd(w: World, ops: seq<Op>)
    requires LeasesExactThroughout(w, ops)
    ensures LeasesExact(Run(w, ops))
    decreases |ops|
  {
    hide Step, LeasesExact;
    if ops != [] {
      ThroughoutEnd(Step(w, ops[0]), ops[1..]);
    }
  }

  /** The empty cluster and the empty register are exact. */
  lemma EmptyLeases(w: World)
    requires w.c.services == [] && w.r.leases == map[]
    ensures LeasesExact(w) && AllAgree(w)
  {
  }
}
