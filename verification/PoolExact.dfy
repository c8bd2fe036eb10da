/** Exact pool contents: what keeps them over runs, and the exact condition under which a removal leaves nothing behind. */
module PoolExact {
  import opened Text
  import opened Lists
  import opened Services
  import Ipam
  import opened Mutation
  import opened Validation
  import opened Admission
  import opened Pools
  import opened PoolFacts
  import opened PoolCoverage
  import opened PoolRuns
  import F = LeaseFacts
  import L = LeaseCoverage
  import M = MutationFacts

  /** Each zone's pool holds exactly the prefixed addresses of the zone's LoadBalancer Services, each once. */
  ghost predicate PoolsExact(w: World) {
    PoolsCover(w) && Tight(w.c.services, w.c)
  }

  /** Some LoadBalancer Service other than the one at `i` lists the text; with a zone, one of that zone. */
  predicate ListedBeside(services: seq<Svc>, i: nat, a: string) {
    exists j :: 0 <= j < |services| && j != i && Mentioned(services[j], a)
  }

  predicate ListedBesideIn(services: seq<Svc>, i: nat, zone: string, a: string) {
    exists j :: 0 <= j < |services| && j != i && Mentioned(services[j], a) && ZoneOf(services[j]) == zone
  }

  /** Texts that the Service at `i` gives up and that others still list are still listed in its zone. */
  predicate NoStray(services: seq<Svc>, i: nat, gone: seq<string>)
    requires i < |services|
  {
    forall a | a in gone :: ListedBeside(services, i, a) ==> ListedBesideIn(services, i, ZoneOf(services[i]), a)
  }

  /** Nothing is left behind when the Service at `i` stops being a load balancer: what it gives up does not stray, what
      it keeps or adds is listed beside it in the zone. */
  predicate LeavesNothing(services: seq<Svc>, i: nat, p: Plan)
    requires i < |services|
  {
    && NoStray(services, i, p.removed)
    && (forall a | a in p.kept :: ListedBesideIn(services, i, Get(p.before, Zone), a))
    && (forall a | a in p.added :: ListedBesideIn(services, i, Get(p.after, Zone), a))
  }

  /** A committing update of the load balancer at `i` leaves no stray entry. */
  predicate UpdateStrayFree(w: World, i: nat, obj: Svc, dry: bool, rand: string, rand2: string)
    requires i < |w.c.services|
  {
    var prev := w.c.services[i];
    var m := Mutate(Submitted(obj, prev.ingress), false, dry, rand, w.c, w.r);
    prev.kind == LoadBalancer ==>
      if m.svc.kind == LoadBalancer
      then NoStray(w.c.services, i, Without(AddressList(prev.annotations), AddressList(m.svc.annotations)))
      else LeavesNothing(w.c.services, i, PlanFor(prev, m.svc, rand2, m.cluster))
  }

  predicate DeleteStrayFree(w: World, i: nat)
    requires i < |w.c.services|
  {
    w.c.services[i].kind == LoadBalancer ==> NoStray(w.c.services, i, AddressList(w.c.services[i].annotations))
  }

  /** In an update or deletion that commits no Kubernetes call fails. Everything else may fail: lookups, dry runs,
      creations, and whatever ends in a rejection. */
  predicate CleanCommit(w: World, op: Op) {
    var i := IndexOf(w.c.services, TargetOf(op));
    match op
    case UpdateOp(obj, dry, rand, rand2) =>
      i < |w.c.services| && UpdateCommits(w, i, obj, dry, rand, rand2) ==> Step(w, op).c.faults == w.c.faults
    case DeleteOp(_, dry) =>
      i < |w.c.services| && DeleteCommits(w, i, dry) ==> Step(w, op).c.faults == w.c.faults
    case _ => true
  }

  /** If the update or deletion commits, no stray entry is left. */
  predicate StrayFree(w: World, op: Op) {
    var i := IndexOf(w.c.services, TargetOf(op));
    match op
    case UpdateOp(obj, dry, rand, rand2) =>
      i < |w.c.services| && UpdateCommits(w, i, obj, dry, rand, rand2) ==> UpdateStrayFree(w, i, obj, dry, rand, rand2)
    case DeleteOp(_, dry) => i < |w.c.services| && DeleteCommits(w, i, dry) ==> DeleteStrayFree(w, i)
    case _ => true
  }

  /** Where no text is listed in two zones nothing strays. */
  lemma ZoneDisjointNoStray(services: seq<Svc>, i: nat, gone: seq<string>)
    requires i < |services| && ZoneDisjoint(services) && forall a | a in gone :: Mentioned(services[i], a)
    ensures NoStray(services, i, gone)
  {
    hide AddressList;
    forall a, j | a in gone && 0 <= j < |services| && j != i && Mentioned(services[j], a)
      ensures ZoneOf(services[j]) == ZoneOf(services[i])
    {
      assert Mentioned(services[i], a);
    }
  }

  /** A pool exists iff some LoadBalancer Service uses the zone. */
  lemma PoolExists(w: World, z: string)
    requires PoolsExact(w)
    ensures z in w.c.pools <==>
            exists i :: 0 <= i < |w.c.services| && w.c.services[i].kind == LoadBalancer && ZoneOf(w.c.services[i]) == z
  {
    hide AddressList, Distinct, L.Well;
    if z in w.c.pools {
      var t := PoolOf(w.c, z)[0];
      assert t in PoolOf(w.c, z);
      assert Needs(w.c.services, z, t);
    }
    if i :| 0 <= i < |w.c.services| && w.c.services[i].kind == LoadBalancer && ZoneOf(w.c.services[i]) == z {
      var a := AddressList(w.c.services[i].annotations)[0];
      assert a in AddressList(w.c.services[i].annotations);
      assert Uses(w.c.services[i], z, Prefixed(a));
      assert Needs(w.c.services, z, Prefixed(a));
    }
  }

  // ---------------------------------------------------------------- who else lists an address

  /** An address the stored Service gives up, that is not orphaned and does not stray is still used in its zone. */
  lemma ListedElsewhere(services: seq<Svc>, i: nat, addrs: seq<string>, a: string) returns (j: nat)
    requires i < |services| && AllWell(services) && NoStray(services, i, addrs)
    requires Mentioned(services[i], a) && a in addrs && !Orphaned(Prefixed(a), addrs, services)
    ensures j < |services| && j != i && Uses(services[j], ZoneOf(services[i]), Prefixed(a))
  {
    hide Mentions, AddressList, BeforeSlash, RemoveForm, Prefixed, ValidList, Distinct;
    ListedForms(services[i], a);
    BareForms(a);
    M.ValidListShape(AddressList(services[i].annotations));
    if forall k | 0 <= k < |services| && k != i :: !Mentioned(services[k], a) {
      MentionsOne(a, services, i);
      assert false;
    }
    assert ListedBeside(services, i, a);
    j :| 0 <= j < |services| && j != i && Mentioned(services[j], a) && ZoneOf(services[j]) == ZoneOf(services[i]);
  }

  /** A text that strays keeps its entry although nobody in the zone lists it any more. */
  lemma StrayStays(services: seq<Svc>, i: nat, c: Cluster, addrs: seq<string>, a: string)
    requires i < |services| && AllWell(services) && Covers(services, c) && services[i].kind == LoadBalancer
    requires forall b | b in addrs :: Mentioned(services[i], b)
    requires a in addrs && ListedBeside(services, i, a) && !ListedBesideIn(services, i, ZoneOf(services[i]), a)
    ensures Prefixed(a) in PoolOf(c, ZoneOf(services[i])) && !Orphaned(Prefixed(a), addrs, services)
    ensures forall j | 0 <= j < |services| && j != i :: !Uses(services[j], ZoneOf(services[i]), Prefixed(a))
  {
    hide Mentions, AddressList, Prefixed, IsValidIp, CountWith, Orphaned, PoolOf;
    var j :| 0 <= j < |services| && j != i && Mentioned(services[j], a);
    forall b | b in addrs ensures IsValidIp(b) {
      ListedForms(services[i], b);
    }
    RemovalSafe(addrs, services, i, j, a);
    assert Uses(services[i], ZoneOf(services[i]), Prefixed(a));
    assert Needs(services, ZoneOf(services[i]), Prefixed(a));
    forall k | 0 <= k < |services| && k != i ensures !Uses(services[k], ZoneOf(services[i]), Prefixed(a)) {
      UsesMentions(services[k], ZoneOf(services[i]), a);
    }
  }

  lemma UsesMentions(svc: Svc, zone: string, a: string)
    ensures Uses(svc, zone, Prefixed(a)) <==> Mentioned(svc, a) && ZoneOf(svc) == zone
  {
    hide AddressList, Prefixed;
    if Uses(svc, zone, Prefixed(a)) {
      var b :| b in AddressList(svc.annotations) && Prefixed(b) == Prefixed(a);
      PrefixedInjective(a, b);
    }
  }

  // ---------------------------------------------------------------- creation

  lemma AddedTight(services: seq<Svc>, svc: Svc, c: Cluster, after: Cluster)
    requires Tight(services, c) && L.Well(svc) && svc.kind == LoadBalancer
    requires var added := AddToPool(c, ZoneOf(svc), AddressList(svc.annotations)); added.ok && after == added.cluster
    ensures Tight(services + [svc], after)
  {
    hide AddToPool, AddressList, Needs, Uses, Distinct, AddForms, ValidList;
    var addrs := AddressList(svc.annotations);
    M.ValidListShape(addrs);
    assert forall a | a in addrs :: IsValidIp(a) by { ValidMembers(addrs); }
    FormsDistinct(addrs);
    AdditionShape(c, ZoneOf(svc), addrs);
    forall z, t | t in PoolOf(after, z) ensures Needs(services + [svc], z, t) {
      NeedsMore(services, svc, z, t);
      UsesForms(svc, z, t);
      AdditionExact(c, ZoneOf(svc), addrs, t);
    }
  }

  lemma ValidMembers(list: seq<string>)
    requires ValidList(list)
    ensures forall a | a in list :: IsValidIp(a)
  {
  }

  lemma AdditionShape(c: Cluster, zone: string, addrs: seq<string>)
    requires AddToPool(c, zone, addrs).ok && addrs != []
    requires forall z :: Distinct(PoolOf(c, z))
    requires forall z :: z in c.pools ==> PoolOf(c, z) != []
    requires Distinct(AddForms(addrs)) || forall t | t in AddForms(addrs) :: t in PoolOf(c, zone)
    ensures var after := AddToPool(c, zone, addrs).cluster;
            && (forall z :: Distinct(PoolOf(after, z)))
            && (forall z :: z in after.pools ==> PoolOf(after, z) != [])
  {
    hide AddToPool, Distinct, PoolOf;
    var after := AddToPool(c, zone, addrs).cluster;
    assert AddForms(addrs)[0] in AddForms(addrs);
    AdditionExact(c, zone, addrs, AddForms(addrs)[0]);
    if !Distinct(AddForms(addrs)) {
      NothingAdded(c, zone, addrs);
      SamePoolOfs(c, after);
    }
    forall z ensures Distinct(PoolOf(after, z)) {
      assert Distinct(PoolOf(c, z));
    }
  }

  /** Adding what is pooled already changes no pool. */
  lemma NothingAdded(c: Cluster, zone: string, addrs: seq<string>)
    requires AddToPool(c, zone, addrs).ok && addrs != [] && forall t | t in AddForms(addrs) :: t in PoolOf(c, zone)
    ensures AddToPool(c, zone, addrs).cluster.pools == c.pools
  {
    hide AddForm;
    assert AddForms(addrs)[0] in AddForms(addrs);
    WithoutAll(AddForms(addrs), PoolOf(c, zone));
    assert c.pools[zone] + [] == c.pools[zone];
  }

  // ---------------------------------------------------------------- update

  lemma UpdatePoolsShape(p: Plan, c: Cluster)
    requires forall z :: Distinct(PoolOf(c, z))
    requires forall z :: z in c.pools ==> PoolOf(c, z) != []
    requires Distinct(AddForms(p.added)) || forall t | t in AddForms(p.added) :: t in PoolOf(c, Get(p.after, Zone))
    ensures var after := UpdatePools(p, c);
            && (forall z :: Distinct(PoolOf(after, z)))
            && (forall z :: z in after.pools ==> PoolOf(after, z) != [])
  {
    hide AddToPool, VerifyPool, RemoveFromPool, Distinct, PoolOf, AddForms;
    var oz, nz := Get(p.before, Zone), Get(p.after, Zone);
    var grown := if p.added != [] then AddToPool(c, nz, p.added).cluster else c;
    if p.added != [] {
      if AddToPool(c, nz, p.added).ok {
        AdditionShape(c, nz, p.added);
      } else {
        AdditionFails(c, nz, p.added);
        SamePoolOfs(c, grown);
      }
    }
    if p.removed != [] {
      PoolFaults(grown, oz, p.removed);
      var found := VerifyPool(grown, oz).cluster;
      SamePoolOfs(grown, found);
      if VerifyPool(grown, oz).ok {
        RemovalShape(found, oz, p.removed);
      }
    }
  }

  lemma SamePoolOfs(c1: Cluster, c2: Cluster)
    requires c1.pools == c2.pools
    ensures forall z :: PoolOf(c1, z) == PoolOf(c2, z)
  {
  }

  lemma RemovalShape(c: Cluster, zone: string, addrs: seq<string>)
    requires forall z :: Distinct(PoolOf(c, z))
    requires forall z :: z in c.pools ==> PoolOf(c, z) != []
    ensures var after := RemoveFromPool(c, zone, addrs).cluster;
            && (forall z :: Distinct(PoolOf(after, z)))
            && (forall z :: z in after.pools ==> PoolOf(after, z) != [])
  {
    hide RemoveFromPool, Distinct, Orphaned, Subsequence;
    var after := RemoveFromPool(c, zone, addrs).cluster;
    if RemoveFromPool(c, zone, addrs).ok {
      RemovalExact(c, zone, addrs, "");
      forall z ensures Distinct(PoolOf(after, z)) {
        assert Distinct(PoolOf(c, z));
      }
    } else {
      RemovalFails(c, zone, addrs);
      SamePoolOfs(c, after);
    }
  }

  /** After an accepted update without a fault that leaves no stray every pool entry is needed. */
  lemma UpdateTight(services: seq<Svc>, i: nat, next: Svc, p: Plan, c: Cluster, z: string, t: string)
    requires i < |services| && c.services == services && AllWell(services) && L.Well(next)
    requires services[i].kind == LoadBalancer ==> NoStray(services, i, p.removed)
    requires Tight(services, c) && next.kind == LoadBalancer
    requires PlanFits(p, services[i], next) && (Get(p.before, Zone) != Get(p.after, Zone) ==> p.kept == [])
    requires UpdatePools(p, c).faults == c.faults
    requires t in PoolOf(UpdatePools(p, c), z)
    ensures Needs(services[i := next], z, t)
  {
    hide UpdatePools, Orphaned, AddressList, Prefixed, L.Well, AddForm, Distinct, PoolOf, NoStray;
    UpdatePoolsExact(p, c, z, t);
    NeedsReplaced(services, i, next, z, t);
    if z == Get(p.after, Zone) && t in AddForms(p.added) {
      FormsHave(p.added, t);
      var a :| a in p.added && AddForm(a) == t;
      ListedForms(next, a);
      assert Uses(next, z, t);
    } else {
      assert Needs(services, z, t);
      var j :| 0 <= j < |services| && Uses(services[j], z, t);
      if j == i {
        OwnEntry(services, i, next, p, c, z, t);
      }
    }
  }

  lemma OwnEntry(services: seq<Svc>, i: nat, next: Svc, p: Plan, c: Cluster, z: string, t: string)
    requires i < |services| && c.services == services && AllWell(services)
    requires services[i].kind == LoadBalancer ==> NoStray(services, i, p.removed)
    requires next.kind == LoadBalancer && Uses(services[i], z, t)
    requires PlanFits(p, services[i], next) && (Get(p.before, Zone) != Get(p.after, Zone) ==> p.kept == [])
    requires !(z == Get(p.before, Zone) && Orphaned(t, p.removed, services))
    ensures Uses(next, z, t) || exists j :: 0 <= j < |services| && j != i && Uses(services[j], z, t)
  {
    hide Orphaned, AddressList, Prefixed, L.Well, NoStray;
    var a :| a in AddressList(services[i].annotations) && Prefixed(a) == t;
    if a in AddressList(next.annotations) {
      assert a in p.kept;
    } else {
      var j := ListedElsewhere(services, i, p.removed, a);
    }
  }

  // ---------------------------------------------------------------- deletion

  /** A successful removal of a load balancer's addresses from a state with exact pools leaves exact pools iff every
      text it shares with another load balancer is shared with one of its zone. */
  lemma DeleteTight(services: seq<Svc>, i: nat, c: Cluster)
    requires i < |services| && c.services == services && AllWell(services) && Covers(services, c)
    requires Tight(services, c) && services[i].kind == LoadBalancer
    requires RemoveFromPool(c, ZoneOf(services[i]), AddressList(services[i].annotations)).ok
    ensures Tight(services[..i] + services[i + 1..],
                  RemoveFromPool(c, ZoneOf(services[i]), AddressList(services[i].annotations)).cluster)
       <==> NoStray(services, i, AddressList(services[i].annotations))
  {
    hide RemoveFromPool, Orphaned, AddressList, Prefixed, L.Well, Distinct, PoolOf, NoStray, Covers, Mentioned;
    var zone, addrs := ZoneOf(services[i]), AddressList(services[i].annotations);
    var after := RemoveFromPool(c, zone, addrs).cluster;
    var rest := services[..i] + services[i + 1..];
    OwnMentions(services[i]);
    if NoStray(services, i, addrs) {
      RemovalShape(c, zone, addrs);
      forall z, t | t in PoolOf(after, z) ensures Needs(rest, z, t) {
        RemovalExact(c, zone, addrs, t);
        NeedsTakenOut(services, i, z, t);
        assert Needs(services, z, t);
        var j :| 0 <= j < |services| && Uses(services[j], z, t);
        if j == i {
          var a :| a in addrs && Prefixed(a) == t;
          var k := ListedElsewhere(services, i, addrs, a);
        }
      }
    } else {
      var a := StrayText(services, i, addrs);
      StrayStays(services, i, c, addrs, a);
      RemovalExact(c, zone, addrs, Prefixed(a));
      NeedsTakenOut(services, i, zone, Prefixed(a));
    }
  }

  lemma OwnMentions(svc: Svc)
    requires svc.kind == LoadBalancer
    ensures forall a | a in AddressList(svc.annotations) :: Mentioned(svc, a)
  {
  }

  lemma StrayText(services: seq<Svc>, i: nat, gone: seq<string>) returns (a: string)
    requires i < |services| && !NoStray(services, i, gone)
    ensures a in gone && ListedBeside(services, i, a) && !ListedBesideIn(services, i, ZoneOf(services[i]), a)
  {
    a :| a in gone && ListedBeside(services, i, a) && !ListedBesideIn(services, i, ZoneOf(services[i]), a);
  }

  // ---------------------------------------------------------------- a load balancer that becomes another type

  /** An accepted update, without a failed Kubernetes call, that makes another type of a load balancer in a state with
      exact pools: it leaves exact pools iff it leaves nothing behind. New addresses are leased and pooled for a Service
      that nobody serves, and kept ones stay in the pool. */
  lemma DowngradeTight(services: seq<Svc>, i: nat, next: Svc, rand: string, c: Cluster, r: Ipam.Register, p: Plan)
    requires i < |services| && c.services == services && AllWell(services) && Covers(services, c) && Tight(services, c)
    requires services[i].kind == LoadBalancer && next.kind != LoadBalancer && p == PlanFor(services[i], next, rand, c)
    requires var v := CheckUpdate(services[i], next, false, rand, c, r); v.ok && v.cluster.faults == c.faults
    ensures Tight(services[i := next], CheckUpdate(services[i], next, false, rand, c, r).cluster)
       <==> LeavesNothing(services, i, p)
  {
    hide CheckUpdate, UpdateLeases, UpdatePools, PlanFor, AddressList, L.Well, LeavesNothing, Covers, Tight, PlanFits, Needs,
         AllWell, IsValidIp;
    var v, c3 := CheckUpdate(services[i], next, false, rand, c, r), After3(c);
    PlanForFits(services[i], next, rand, c);
    UpdatePoolsVerdict(services[i], next, false, rand, c, r);
    SamePools(services, c3, c);
    if v.cluster.pools == c.pools && p.before == p.after {
      SkippedPlan(services[i], next, rand, c, c);
      DowngradePlanTight(services, i, next, p, c);
      SamePools(services[i := next], v.cluster, c);
    } else {
      UpdatePoolsExact(p, c3, "", "");
      LeasedNew(next.id, p, r);
      DowngradePlanTight(services, i, next, p, c3);
    }
  }

  lemma SkippedPlan(prev: Svc, next: Svc, rand: string, c0: Cluster, c: Cluster)
    requires prev.kind == LoadBalancer && PlanFor(prev, next, rand, c0).before == PlanFor(prev, next, rand, c0).after
    ensures var p := PlanFor(prev, next, rand, c0); UpdatePools(p, c) == c && p.added == []
    ensures ZoneOf(prev) == ZoneOf(next)
  {
    hide AddressList, IpamPart, SecretValue;
    var list := AddressList(IpamPart(prev.annotations));
    WithoutAll(list, list);
    L.IpamGet(prev.annotations, Zone);
    L.IpamGet(next.annotations, Zone);
  }

  /** What an accepted update has leased is valid, and it keeps the zone if it keeps an address. */
  lemma LeasedNew(id: Id, p: Plan, r: Ipam.Register)
    requires UpdateLeases(id, p, r).ok
    ensures (forall a | a in p.added :: IsValidIp(a)) && (Get(p.before, Zone) != Get(p.after, Zone) ==> p.kept == [])
  {
    hide ValidateEach, RotateKept, ReleaseEach, IsValidIp;
    F.ValidatedLeased(p.added, p.after, id, p.newSecret, r);
  }

  lemma DowngradePlanTight(services: seq<Svc>, i: nat, next: Svc, p: Plan, c: Cluster)
    requires i < |services| && c.services == services && AllWell(services) && Covers(services, c) && Tight(services, c)
    requires services[i].kind == LoadBalancer && next.kind != LoadBalancer && PlanFits(p, services[i], next)
    requires (forall a | a in p.added :: IsValidIp(a)) && (Get(p.before, Zone) != Get(p.after, Zone) ==> p.kept == [])
    requires UpdatePools(p, c).faults == c.faults
    ensures Tight(services[i := next], UpdatePools(p, c)) <==> LeavesNothing(services, i, p)
  {
    hide UpdatePools, AddressList, L.Well, Distinct, PoolOf, NoStray, AddForms, Covers, Prefixed, Orphaned, Needs,
         ListedBesideIn, IsValidIp, PlanFits, AllWell;
    if !NoStray(services, i, p.removed) {
      UpdateStrays(services, i, next, p, c);
    } else if a :| a in p.kept && !ListedBesideIn(services, i, Get(p.before, Zone), a) {
      StillThere(p, services[i], next, a);
      KeptStays(services, i, next, p, c, a);
    } else if a :| a in p.added && !ListedBesideIn(services, i, Get(p.after, Zone), a) {
      AddedStays(services, i, next, p, c, a);
    } else {
      AddedPooled(services, i, p, c);
      UpdatePoolsShape(p, c);
      forall z, t | t in PoolOf(UpdatePools(p, c), z) ensures Needs(services[i := next], z, t) {
        StillNeeded(services, i, next, p, c, z, t);
      }
    }
  }

  /** A kept address that nobody else in the zone lists keeps its entry. */
  lemma KeptStays(services: seq<Svc>, i: nat, next: Svc, p: Plan, c: Cluster, a: string)
    requires i < |services| && c.services == services && AllWell(services) && Covers(services, c)
    requires services[i].kind == LoadBalancer && next.kind != LoadBalancer && PlanFits(p, services[i], next)
    requires a in p.kept && a in AddressList(next.annotations) && !ListedBesideIn(services, i, Get(p.before, Zone), a)
    ensures !Tight(services[i := next], UpdatePools(p, c))
  {
    hide UpdatePools, AddressList, L.Well, Distinct, PoolOf, AddForms, Prefixed, Orphaned, Needs, IsValidIp, Uses;
    var zone := ZoneOf(services[i]);
    ListedForms(services[i], a);
    NotOrphanedByUpdate(services, i, i, services[i], next, p, a);
    UpdatePoolsExact(p, c, zone, Prefixed(a));
    UsesMentions(services[i], zone, a);
    assert Needs(services, zone, Prefixed(a)) by { UsedNeeded(services, i, zone, Prefixed(a)); }
    NobodyNeeds(services, i, next, zone, a);
  }

  /** An added address that nobody else in the zone lists gets an entry. */
  lemma AddedStays(services: seq<Svc>, i: nat, next: Svc, p: Plan, c: Cluster, a: string)
    requires i < |services| && c.services == services && AllWell(services)
    requires services[i].kind == LoadBalancer && next.kind != LoadBalancer && PlanFits(p, services[i], next)
    requires UpdatePools(p, c).faults == c.faults && IsValidIp(a)
    requires a in p.added && !ListedBesideIn(services, i, Get(p.after, Zone), a)
    ensures !Tight(services[i := next], UpdatePools(p, c))
  {
    hide UpdatePools, AddressList, L.Well, Distinct, PoolOf, AddForms, Prefixed, Orphaned, Needs, IsValidIp, AddForm;
    var zone := Get(p.after, Zone);
    BareForms(a);
    FormsHave(p.added, Prefixed(a));
    NotOrphanedByUpdate(services, i, i, services[i], next, p, a);
    UpdatePoolsExact(p, c, zone, Prefixed(a));
    NobodyNeeds(services, i, next, zone, a);
  }

  lemma UsedNeeded(services: seq<Svc>, j: nat, z: string, t: string)
    requires j < |services| && Uses(services[j], z, t)
    ensures Needs(services, z, t)
  {
    hide Uses;
  }

  lemma NobodyNeeds(services: seq<Svc>, i: nat, next: Svc, zone: string, a: string)
    requires i < |services| && next.kind != LoadBalancer && !ListedBesideIn(services, i, zone, a)
    ensures !Needs(services[i := next], zone, Prefixed(a))
  {
    hide AddressList, Prefixed, Uses;
    NeedsReplaced(services, i, next, zone, Prefixed(a));
    NotUsing(next, zone, Prefixed(a));
    forall j | 0 <= j < |services| && j != i ensures !Uses(services[j], zone, Prefixed(a)) {
      UsesMentions(services[j], zone, a);
    }
  }

  /** An address listed beside the Service in the zone is pooled and stays needed. */
  lemma BesideNeeded(services: seq<Svc>, i: nat, next: Svc, zone: string, a: string)
    requires i < |services| && ListedBesideIn(services, i, zone, a)
    ensures Needs(services, zone, Prefixed(a)) && Needs(services[i := next], zone, Prefixed(a))
  {
    hide AddressList, Prefixed, Uses;
    var j :| 0 <= j < |services| && j != i && Mentioned(services[j], a) && ZoneOf(services[j]) == zone;
    UsesMentions(services[j], zone, a);
    UsedNeeded(services, j, zone, Prefixed(a));
    NeedsReplaced(services, i, next, zone, Prefixed(a));
  }

  lemma AddedPooled(services: seq<Svc>, i: nat, p: Plan, c: Cluster)
    requires i < |services| && Covers(services, c) && forall a | a in p.added :: IsValidIp(a)
    requires forall a | a in p.added :: ListedBesideIn(services, i, Get(p.after, Zone), a)
    ensures forall t | t in AddForms(p.added) :: t in PoolOf(c, Get(p.after, Zone))
  {
    hide AddForms, AddForm, Prefixed, Needs, ListedBesideIn, PoolOf, IsValidIp;
    forall t | t in AddForms(p.added) ensures t in PoolOf(c, Get(p.after, Zone)) {
      FormsHave(p.added, t);
      var a :| a in p.added && AddForm(a) == t;
      BareForms(a);
      BesideNeeded(services, i, services[i], Get(p.after, Zone), a);
    }
  }

  /** An entry that is left is one somebody still needs. */
  lemma StillNeeded(services: seq<Svc>, i: nat, next: Svc, p: Plan, c: Cluster, z: string, t: string)
    requires i < |services| && c.services == services && AllWell(services) && Tight(services, c)
    requires services[i].kind == LoadBalancer && PlanFits(p, services[i], next) && LeavesNothing(services, i, p)
    requires (forall a | a in p.added :: IsValidIp(a)) && UpdatePools(p, c).faults == c.faults
    requires t in PoolOf(UpdatePools(p, c), z)
    ensures Needs(services[i := next], z, t)
  {
    hide UpdatePools, Orphaned, AddressList, Prefixed, L.Well, AddForm, Distinct, PoolOf, NoStray, AddForms, IsValidIp,
         ListedBesideIn, Mentioned;
    UpdatePoolsExact(p, c, z, t);
    NeedsReplaced(services, i, next, z, t);
    if z == Get(p.after, Zone) && t in AddForms(p.added) {
      FormsHave(p.added, t);
      var a :| a in p.added && AddForm(a) == t;
      BareForms(a);
      BesideNeeded(services, i, next, z, a);
    } else {
      assert Needs(services, z, t);
      var j :| 0 <= j < |services| && Uses(services[j], z, t);
      if j == i {
        var a :| a in AddressList(services[i].annotations) && Prefixed(a) == t;
        OwnMentions(services[i]);
        if a in AddressList(next.annotations) {
          assert a in p.kept by { StillListed(p, services[i], next, a); }
          BesideNeeded(services, i, next, z, a);
        } else {
          var k := ListedElsewhere(services, i, p.removed, a);
        }
      }
    }
  }

  lemma StillThere(p: Plan, prev: Svc, next: Svc, a: string)
    requires PlanFits(p, prev, next) && a in p.kept
    ensures a in AddressList(next.annotations)
  {
    hide AddressList;
  }

  lemma StillListed(p: Plan, prev: Svc, next: Svc, a: string)
    requires PlanFits(p, prev, next) && prev.kind == LoadBalancer
    requires a in AddressList(prev.annotations) && a in AddressList(next.annotations)
    ensures a in p.kept
  {
    hide AddressList;
  }

  lemma NotUsing(svc: Svc, z: string, t: string)
    requires svc.kind != LoadBalancer
    ensures !Uses(svc, z, t)
  {
  }

  // ---------------------------------------------------------------- steps and runs

  lemma CreateStepTight(w: World, obj: Svc, dry: bool, rand: string)
    requires PoolsExact(w)
    ensures Tight(CreateStep(w, obj, dry, rand).c.services, CreateStep(w, obj, dry, rand).c)
  {
    hide Mutate, CheckCreate, AddToPool, AddressList, Tight, Covers, AllWell, L.Well;
    var after := CreateStep(w, obj, dry, rand).c;
    var submitted := Submitted(obj, false);
    var m := Mutate(submitted, true, dry, rand, w.c, w.r);
    MutatePools(submitted, true, dry, rand, w.c, w.r);
    MutateServices(submitted, true, dry, rand, w.c, w.r);
    if IndexOf(w.c.services, obj.id) < |w.c.services| {
      L.CreateTaken(w, obj, dry, rand);
      SamePools(w.c.services, w.c, after);
    } else if m.ok {
      CreateServices(m.svc, dry, m.cluster, m.reg);
      CreatePools(m.svc, dry, m.cluster, m.reg);
      MutatedLoadBalancer(submitted, true, dry, rand, w.c, w.r);
      var v := CheckCreate(m.svc, dry, m.cluster, m.reg);
      SamePools(w.c.services, w.c, m.cluster);
      if v.ok && !dry {
        SameAfterCalls(w.c.services, m.cluster);
        if m.svc.kind == LoadBalancer {
          AddedTight(w.c.services, m.svc, After2(m.cluster), v.cluster);
        } else {
          TightSkipped(w.c.services, m.svc, m.cluster, v.cluster);
        }
        SamePools(w.c.services + [m.svc], v.cluster, after);
      } else {
        SamePools(w.c.services, m.cluster, after);
      }
    } else {
      SamePools(w.c.services, w.c, after);
    }
  }

  lemma TightSkipped(services: seq<Svc>, svc: Svc, c: Cluster, after: Cluster)
    requires Tight(services, c) && svc.kind != LoadBalancer && after.pools == c.pools
    ensures Tight(services + [svc], after)
  {
    hide Needs, Distinct, PoolOf;
    SamePools(services, c, after);
    forall z, t | t in PoolOf(after, z) ensures Needs(services + [svc], z, t) {
      NeedsMore(services, svc, z, t);
    }
  }

  /** A fault-free planned update of a Service in a state with exact pools leaves exact pools iff no text that a load
      balancer gives up strays; turning another Service into a load balancer always does. */
  lemma PlannedUpdateTight(services: seq<Svc>, i: nat, prev: Svc, next: Svc, rand: string, c0: Cluster, c: Cluster)
    requires i < |services| && prev == services[i] && c.services == services && AllWell(services)
    requires L.Well(next) && Covers(services, c) && Tight(services, c) && next.kind == LoadBalancer
    requires prev.kind != LoadBalancer ==> Get(prev.annotations, Addresses) == ""
    requires var p := PlanFor(prev, next, rand, c0);
             && (Get(p.before, Zone) != Get(p.after, Zone) ==> p.kept == [])
             && UpdatePools(p, c).faults == c.faults
    ensures var p := PlanFor(prev, next, rand, c0);
            Tight(services[i := next], UpdatePools(p, c))
            <==> (prev.kind == LoadBalancer ==>
                    NoStray(services, i, Without(AddressList(prev.annotations), AddressList(next.annotations))))
  {
    hide PlanFor, UpdatePools, AddressList, PlanFits, Needs, L.Well, Distinct, PoolOf, NoStray, AddForms, Covers,
         Without, Within, Prefixed, Orphaned, Uses;
    var p := PlanFor(prev, next, rand, c0);
    PlanForFits(prev, next, rand, c0);
    if prev.kind == LoadBalancer {
      L.PlanLists(prev, next, rand, c0);
    }
    if prev.kind == LoadBalancer ==> NoStray(services, i, p.removed) {
      AddedDistinct(prev, next, rand, c0);
      UpdatePoolsShape(p, c);
      forall z, t | t in PoolOf(UpdatePools(p, c), z) ensures Needs(services[i := next], z, t) {
        UpdateTight(services, i, next, p, c, z, t);
      }
    } else {
      UpdateStrays(services, i, next, p, c);
    }
  }

  lemma UpdateStrays(services: seq<Svc>, i: nat, next: Svc, p: Plan, c: Cluster)
    requires i < |services| && c.services == services && AllWell(services) && Covers(services, c)
    requires services[i].kind == LoadBalancer && PlanFits(p, services[i], next) && !NoStray(services, i, p.removed)
    ensures !Tight(services[i := next], UpdatePools(p, c))
  {
    hide UpdatePools, AddressList, L.Well, Distinct, PoolOf, NoStray, AddForms, Covers, Prefixed, Orphaned, Needs,
         ListedBeside, ListedBesideIn;
    var a := StrayText(services, i, p.removed);
    StrayStays(services, i, c, p.removed, a);
    var z, t := ZoneOf(services[i]), Prefixed(a);
    UpdatePoolsExact(p, c, z, t);
    NeedsReplaced(services, i, next, z, t);
    if Uses(next, z, t) {
      var b :| b in AddressList(next.annotations) && Prefixed(b) == t;
      PrefixedInjective(a, b);
    }
    assert t in PoolOf(UpdatePools(p, c), z) && !Needs(services[i := next], z, t);
  }

  lemma AddedDistinct(prev: Svc, next: Svc, rand: string, c: Cluster)
    requires L.Well(next) && next.kind == LoadBalancer
    requires prev.kind != LoadBalancer ==> Get(prev.annotations, Addresses) == ""
    ensures Distinct(AddForms(PlanFor(prev, next, rand, c).added))
  {
    hide PlanFor, AddressList, Distinct, AddForms, Without, Within, IsValidIp, CountWith;
    var news := AddressList(next.annotations);
    var olds := if prev.kind == LoadBalancer then AddressList(prev.annotations) else [""];
    if prev.kind == LoadBalancer {
      L.PlanLists(prev, next, rand, c);
    } else {
      L.PlanUpgrade(prev, next, rand, c);
    }
    M.ValidListShape(news);
    WithoutDistinct(news, olds);
    forall a | a in Without(news, olds) ensures IsValidIp(a) {
      WithoutHas(news, olds, a);
    }
    FormsDistinct(Without(news, olds));
  }

  lemma AcceptedUpdateTight(w: World, i: nat, obj: Svc, rand: string, rand2: string, m: Mutated, v: Verdict)
    requires PoolsExact(w) && L.CleanUpgrade(w, UpdateOp(obj, false, rand, rand2))
    requires i == IndexOf(w.c.services, obj.id) < |w.c.services|
    requires m == Mutate(Submitted(obj, w.c.services[i].ingress), false, false, rand, w.c, w.r) && m.ok
    requires v == CheckUpdate(w.c.services[i], m.svc, false, rand2, m.cluster, m.reg) && v.ok
    requires v.cluster.faults == w.c.faults
    ensures Tight(w.c.services[i := m.svc], v.cluster) <==> UpdateStrayFree(w, i, obj, false, rand, rand2)
  {
    hide Mutate, CheckUpdate, PlanFor, UpdatePools, AddressList, L.Well, PlanFits, Covers, Tight, AllWell, Skipped,
         L.CleanUpgrade, NoStray, Without, LeavesNothing;
    var prev, p := w.c.services[i], PlanFor(w.c.services[i], m.svc, rand2, m.cluster);
    UpdateReady(w, i, obj, rand, rand2, m, v);
    MutatedLoadBalancer(Submitted(obj, prev.ingress), false, false, rand, w.c, w.r);
    SameAfterCalls(w.c.services, m.cluster);
    SamePools(w.c.services, w.c, m.cluster);
    UpdatePoolsExact(p, After3(m.cluster), "", "");
    if prev.kind == LoadBalancer && m.svc.kind != LoadBalancer {
      UpdatePoolsVerdict(prev, m.svc, false, rand2, m.cluster, m.reg);
      DowngradeTight(w.c.services, i, m.svc, rand2, m.cluster, m.reg, p);
    } else if Skipped(prev, m.svc) && v.cluster.pools == w.c.pools {
      SamePools(w.c.services, w.c, v.cluster);
      SkippedUpdateCovers(w.c.services, i, m.svc, v.cluster);
      SkippedStrays(w.c.services, i, m.svc);
    } else {
      PlannedUpdateTight(w.c.services, i, prev, m.svc, rand2, m.cluster, After3(m.cluster));
    }
  }

  lemma SkippedStrays(services: seq<Svc>, i: nat, next: Svc)
    requires i < |services| && Skipped(services[i], next)
    ensures next.kind == LoadBalancer ==>
              NoStray(services, i, Without(AddressList(services[i].annotations), AddressList(next.annotations)))
  {
    hide AddressList;
    if next.kind == LoadBalancer {
      WithoutAll(AddressList(services[i].annotations), AddressList(next.annotations));
    }
  }

  /** An update keeps the pools exact unless it commits and, no call having failed, leaves a stray entry. */
  lemma UpdateStepTight(w: World, i: nat, obj: Svc, dry: bool, rand: string, rand2: string)
    requires PoolsExact(w) && L.CleanUpgrade(w, UpdateOp(obj, dry, rand, rand2))
    requires i == IndexOf(w.c.services, obj.id) < |w.c.services|
    requires UpdateCommits(w, i, obj, dry, rand, rand2) ==> UpdateStep(w, i, obj, dry, rand, rand2).c.faults == w.c.faults
    ensures var after := UpdateStep(w, i, obj, dry, rand, rand2).c;
            Tight(after.services, after)
            <==> (UpdateCommits(w, i, obj, dry, rand, rand2) ==> UpdateStrayFree(w, i, obj, dry, rand, rand2))
  {
    hide Mutate, CheckUpdate, PlanFor, UpdatePools, UpdateLeases, Covers, Tight, AllWell, L.CleanUpgrade, UpdateStrayFree;
    var after := UpdateStep(w, i, obj, dry, rand, rand2).c;
    var prev := w.c.services[i];
    var submitted := Submitted(obj, prev.ingress);
    var m := Mutate(submitted, false, dry, rand, w.c, w.r);
    MutatePools(submitted, false, dry, rand, w.c, w.r);
    MutateServices(submitted, false, dry, rand, w.c, w.r);
    if m.ok {
      var v := CheckUpdate(prev, m.svc, dry, rand2, m.cluster, m.reg);
      UpdateServices(prev, m.svc, dry, rand2, m.cluster, m.reg);
      UpdatePoolsVerdict(prev, m.svc, dry, rand2, m.cluster, m.reg);
      if v.ok && !dry {
        AcceptedUpdateTight(w, i, obj, rand, rand2, m, v);
        SamePools(after.services, v.cluster, after);
      } else {
        SamePools(w.c.services, w.c, after);
      }
    } else {
      SamePools(w.c.services, w.c, after);
    }
  }

  /** So does a deletion. */
  lemma DeleteStepTight(w: World, i: nat, dry: bool)
    requires PoolsExact(w) && i < |w.c.services|
    requires DeleteCommits(w, i, dry) ==> DeleteStep(w, i, dry).c.faults == w.c.faults
    ensures Tight(DeleteStep(w, i, dry).c.services, DeleteStep(w, i, dry).c)
       <==> (DeleteCommits(w, i, dry) ==> DeleteStrayFree(w, i))
  {
    hide CheckDelete, RemoveFromPool, AddressList, L.Well, Needs, Uses, PoolOf, Tight, Covers, NoStray, VerifyForm;
    var svc, after := w.c.services[i], DeleteStep(w, i, dry).c;
    var v := CheckDelete(svc, dry, w.c, w.r);
    DeleteServices(svc, dry, w.c, w.r);
    DeletePools(svc, dry, w.c, w.r);
    SameAfterCalls(w.c.services, w.c);
    if v.cluster.pools == w.c.pools && !(v.ok && !dry) {
      SamePools(w.c.services, w.c, after);
    } else if v.cluster == RemoveFromPool(After3(w.c), ZoneOf(svc), AddressList(svc.annotations)).cluster && svc.kind == LoadBalancer && !dry
              && RemoveFromPool(After3(w.c), ZoneOf(svc), AddressList(svc.annotations)).ok {
      DeleteTight(w.c.services, i, After3(w.c));
      SamePools(after.services, v.cluster, after);
    } else {
      if svc.kind == LoadBalancer {
        OwnPooled(w, i);
        assert false;
      }
      TightTakenOut(w.c.services, i, w.c, after);
    }
  }

  /** In an exact state every address of a committed load balancer is pooled under the form the lookup uses. */
  lemma OwnPooled(w: World, i: nat)
    requires PoolsCover(w) && i < |w.c.services| && w.c.services[i].kind == LoadBalancer
    ensures exists a :: a in AddressList(w.c.services[i].annotations)
              && VerifyForm(a) in PoolOf(w.c, ZoneOf(w.c.services[i]))
  {
    hide AddressList, VerifyForm, Prefixed, PoolOf, L.Well;
    var svc := w.c.services[i];
    var a := AddressList(svc.annotations)[0];
    ListedForms(svc, a);
    assert Uses(svc, ZoneOf(svc), Prefixed(a));
    assert Needs(w.c.services, ZoneOf(svc), Prefixed(a));
  }

  lemma TightTakenOut(services: seq<Svc>, i: nat, c: Cluster, after: Cluster)
    requires i < |services| && services[i].kind != LoadBalancer && Tight(services, c) && after.pools == c.pools
    ensures Tight(services[..i] + services[i + 1..], after)
  {
    hide Distinct, PoolOf, AddressList;
    SamePools(services, c, after);
    forall z, t | t in PoolOf(after, z) ensures Needs(services[..i] + services[i + 1..], z, t) {
      NeedsTakenOut(services, i, z, t);
    }
  }

  /** One step, whatever fails in it before a commit, keeps the pools exact iff the commit leaves no stray entry. */
  lemma PoolsExactStep(w: World, op: Op)
    requires PoolsExact(w) && L.CleanUpgrade(w, op) && CleanCommit(w, op)
    ensures PoolsExact(Step(w, op)) <==> StrayFree(w, op)
  {
    hide CreateStep, UpdateStep, DeleteStep, UpdateCommits, DeleteCommits, PoolsCover, Tight, L.CleanUpgrade,
         UpdateStrayFree, DeleteStrayFree;
    var i := IndexOf(w.c.services, TargetOf(op));
    if op.UpdateOp? && i < |w.c.services| {
      FaultlessAdds(w, i, op.obj, op.dry, op.rand, op.rand2);
    }
    PoolsCoverStep(w, op);
    match op
    case CreateOp(obj, dry, rand) => CreateStepTight(w, obj, dry, rand);
    case UpdateOp(obj, dry, rand, rand2) =>
      if i < |w.c.services| {
        UpdateStepTight(w, i, obj, dry, rand, rand2);
      }
    case DeleteOp(_, dry) =>
      if i < |w.c.services| {
        DeleteStepTight(w, i, dry);
      }
    case StatusOp(_, ingress) =>
      if i < |w.c.services| {
        StatusStep(w.c.services, i, ingress, w.c, Step(w, op).c);
      }
  }

  /** No pool addition of an update fails that does not commit, or commits without a fault. */
  lemma FaultlessAdds(w: World, i: nat, obj: Svc, dry: bool, rand: string, rand2: string)
    requires i < |w.c.services|
    requires UpdateCommits(w, i, obj, dry, rand, rand2) ==> UpdateStep(w, i, obj, dry, rand, rand2).c.faults == w.c.faults
    ensures UpdateStep(w, i, obj, dry, rand, rand2).c.addsFailed == w.c.addsFailed
  {
    hide Mutate, CheckUpdate, PlanFor, UpdatePools, UpdateLeases;
    var prev := w.c.services[i];
    var submitted := Submitted(obj, prev.ingress);
    var m := Mutate(submitted, false, dry, rand, w.c, w.r);
    MutatePools(submitted, false, dry, rand, w.c, w.r);
    UpdatePoolsVerdict(prev, m.svc, dry, rand2, m.cluster, m.reg);
    UpdatePoolsExact(PlanFor(prev, m.svc, rand2, m.cluster), After3(m.cluster), "", "");
  }

  /** What a run is asked for in each of its steps so that the pools stay exact. */
  predicate ExactAssumptions(w: World, ops: seq<Op>)
    decreases |ops|
  {
    ops == [] ||
    (&& L.CleanUpgrade(w, ops[0]) && CleanCommit(w, ops[0]) && StrayFree(w, ops[0])
     && ExactAssumptions(Step(w, ops[0]), ops[1..]))
  }

  /** Exact pools in every state of every run. */
  lemma {:induction false} PoolsExactRun(w: World, ops: seq<Op>)
    requires PoolsExact(w) && ExactAssumptions(w, ops)
    ensures PoolsExact(Run(w, ops))
    decreases |ops|
  {
    hide Step, PoolsExact, CleanCommit, L.CleanUpgrade, StrayFree;
    if ops != [] {
      PoolsExactStep(w, ops[0]);
      PoolsExactRun(Step(w, ops[0]), ops[1..]);
    }
  }

  /** A run without failed calls in its commits and without upgrades of Services that carry addresses. */
  predicate CleanRun(w: World, ops: seq<Op>)
    decreases |ops|
  {
    ops == [] || (L.CleanUpgrade(w, ops[0]) && CleanCommit(w, ops[0]) && CleanRun(Step(w, ops[0]), ops[1..]))
  }

  predicate StrayFreeRun(w: World, ops: seq<Op>)
    decreases |ops|
  {
    ops == [] || (StrayFree(w, ops[0]) && StrayFreeRun(Step(w, ops[0]), ops[1..]))
  }

  ghost predicate ExactThroughout(w: World, ops: seq<Op>)
    decreases |ops|
  {
    PoolsExact(w) && (ops == [] || ExactThroughout(Step(w, ops[0]), ops[1..]))
  }

  /** Along such a run the pools are exact in every state iff no commit leaves a stray entry. */
  lemma {:induction false} PoolsExactIff(w: World, ops: seq<Op>)
    requires PoolsExact(w) && CleanRun(w, ops)
    ensures ExactThroughout(w, ops) <==> StrayFreeRun(w, ops)
    decreases |ops|
  {
    hide Step, PoolsExact, CleanCommit, L.CleanUpgrade, StrayFree;
    if ops != [] {
      PoolsExactStep(w, ops[0]);
      if StrayFree(w, ops[0]) {
        PoolsExactIff(Step(w, ops[0]), ops[1..]);
      } else {
        assert !ExactThroughout(Step(w, ops[0]), ops[1..]);
      }
    }
  }

  /** No committing update makes another type of a load balancer. */
  predicate KeepsType(w: World, op: Op) {
    op.UpdateOp? ==>
      var i := IndexOf(w.c.services, op.obj.id);
      i < |w.c.services| && w.c.services[i].kind == LoadBalancer && UpdateCommits(w, i, op.obj, op.dry, op.rand, op.rand2) ==>
        Mutate(Submitted(op.obj, w.c.services[i].ingress), false, op.dry, op.rand, w.c, w.r).svc.kind == LoadBalancer
  }

  lemma DisjointStrayFree(w: World, op: Op)
    requires ZoneDisjoint(w.c.services) && KeepsType(w, op)
    ensures StrayFree(w, op)
  {
    hide Mutate, UpdateCommits, DeleteCommits, AddressList, ZoneDisjoint, NoStray, Without, LeavesNothing;
    var services, i := w.c.services, IndexOf(w.c.services, TargetOf(op));
    if i < |services| && services[i].kind == LoadBalancer {
      OwnMentions(services[i]);
      ZoneDisjointNoStray(services, i, AddressList(services[i].annotations));
      if op.UpdateOp? {
        var next := Mutate(Submitted(op.obj, services[i].ingress), false, op.dry, op.rand, w.c, w.r).svc;
        var gone := Without(AddressList(services[i].annotations), AddressList(next.annotations));
        forall a | a in gone ensures Mentioned(services[i], a) {
          WithoutHas(AddressList(services[i].annotations), AddressList(next.annotations), a);
        }
        ZoneDisjointNoStray(services, i, gone);
      }
    }
  }

  /** A clean run through states in which no address text is listed in two zones, and in which load balancers stay load
      balancers. */
  predicate DisjointRun(w: World, ops: seq<Op>)
    decreases |ops|
  {
    ops == [] ||
    (&& L.CleanUpgrade(w, ops[0]) && CleanCommit(w, ops[0]) && ZoneDisjoint(w.c.services) && KeepsType(w, ops[0])
     && DisjointRun(Step(w, ops[0]), ops[1..]))
  }

  /** Such a run keeps the pools exact. */
  lemma {:induction false} DisjointExactRun(w: World, ops: seq<Op>)
    requires PoolsExact(w) && DisjointRun(w, ops)
    ensures PoolsExact(Run(w, ops))
    decreases |ops|
  {
    hide Step, PoolsExact, CleanCommit, L.CleanUpgrade, StrayFree, ZoneDisjoint, KeepsType;
    if ops != [] {
      DisjointStrayFree(w, ops[0]);
      PoolsExactStep(w, ops[0]);
      DisjointExactRun(Step(w, ops[0]), ops[1..]);
    }
  }

  /** The empty cluster, where every run may start, is exact and covers all leases. */
  lemma EmptyExact(w: World)
    requires w.c.services == [] && w.c.pools == map[]
    ensures PoolsExact(w) && L.LeasesCover(w)
  {
  }
}
