/** Pool coverage: what each hook does to the pools, and that creations, updates and deletions keep them covering. */
module PoolCoverage {
  import opened Text
  import opened Lists
  import opened Services
  import opened Ipam
  import opened Mutation
  import opened Validation
  import opened Admission
  import opened Pools
  import opened PoolFacts
  import L = LeaseCoverage

  /** A LoadBalancer Service of the zone lists an address with this prefixed form. */
  predicate Uses(svc: Svc, zone: string, t: string) {
    svc.kind == LoadBalancer && ZoneOf(svc) == zone && exists a :: a in AddressList(svc.annotations) && Prefixed(a) == t
  }

  predicate Needs(services: seq<Svc>, zone: string, t: string) {
    exists i :: 0 <= i < |services| && Uses(services[i], zone, t)
  }

  predicate AllWell(services: seq<Svc>) {
    forall i | 0 <= i < |services| :: L.Well(services[i])
  }

  /** Each address of each committed LoadBalancer Service is in its zone's pool, in prefixed form. */
  ghost predicate Covers(services: seq<Svc>, c: Cluster) {
    forall z, t :: Needs(services, z, t) ==> t in PoolOf(c, z)
  }

  /** Pools hold nothing else, hold it once, and are never empty. */
  ghost predicate Tight(services: seq<Svc>, c: Cluster) {
    && (forall z, t :: t in PoolOf(c, z) ==> Needs(services, z, t))
    && (forall z :: Distinct(PoolOf(c, z)))
    && (forall z :: z in c.pools ==> PoolOf(c, z) != [])
  }

  ghost predicate PoolsCover(w: World) {
    DistinctIds(w.c.services) && AllWell(w.c.services) && Covers(w.c.services, w.c)
  }

  /** No address text is listed by LoadBalancer Services of two zones. */
  predicate ZoneDisjoint(services: seq<Svc>) {
    forall i, j, t | 0 <= i < |services| && 0 <= j < |services| && t in AddressList(services[i].annotations) ::
      Mentioned(services[i], t) && Mentioned(services[j], t) ==> ZoneOf(services[i]) == ZoneOf(services[j])
  }

  // ---------------------------------------------------------------- calls that leave the pools alone

  lemma MutatePools(svc: Svc, create: bool, dry: bool, rand: string, c: Cluster, r: Register)
    ensures var m := Mutate(svc, create, dry, rand, c, r);
            m.cluster.pools == c.pools && m.cluster.addsFailed == c.addsFailed && m.cluster.faults >= c.faults
  {
    hide LeaseMissing, WithDefaults, Reconcilable, SecretValue, HasSecret, Exists;
  }

  // ---------------------------------------------------------------- the pool side of an update

  /** What an update does to the pools: the new addresses are added to the new zone's pool if the addition succeeds,
      the orphaned ones among the removed are taken out of the old zone's pool if that succeeds, nothing else. */
  lemma UpdatePoolsExact(p: Plan, c: Cluster, z: string, t: string)
    ensures var after := UpdatePools(p, c);
            var added := z == Get(p.after, Zone) && t in AddForms(p.added);
            var gone := z == Get(p.before, Zone) && Orphaned(t, p.removed, c.services);
            && after.addsFailed >= c.addsFailed && after.faults >= c.faults
            && (after.faults == c.faults ==> after.addsFailed == c.addsFailed)
            && (t in PoolOf(after, z) ==> t in PoolOf(c, z) || added)
            && (after.addsFailed == c.addsFailed && added && !gone ==> t in PoolOf(after, z))
            && (t in PoolOf(c, z) && !gone ==> t in PoolOf(after, z))
            && (after.faults == c.faults && gone ==> t !in PoolOf(after, z))
  {
    hide AddToPool, VerifyPool, RemoveFromPool, Orphaned, AddForms;
    var oz, nz := Get(p.before, Zone), Get(p.after, Zone);
    var grown := if p.added != [] then AddToPool(c, nz, p.added).cluster else c;
    if p.added == [] {
      FormsHave(p.added, t);
    } else if AddToPool(c, nz, p.added).ok {
      AdditionExact(c, nz, p.added, t);
    } else {
      AdditionFails(c, nz, p.added);
    }
    PoolServices(c, nz, p.added);
    PoolFaults(c, nz, p.added);
    if p.removed == [] {
      assert !Orphaned(t, p.removed, c.services) by { NoneOrphaned(t, c.services); }
    } else {
      var found := VerifyPool(grown, oz);
      PoolServices(grown, oz, p.removed);
      PoolFaults(grown, oz, p.removed);
      if found.ok {
        var removal := RemoveFromPool(found.cluster, oz, p.removed);
        PoolServices(found.cluster, oz, p.removed);
        PoolFaults(found.cluster, oz, p.removed);
        if removal.ok {
          RemovalExact(found.cluster, oz, p.removed, t);
        } else {
          RemovalFails(found.cluster, oz, p.removed);
        }
      }
    }
  }

  lemma NoneOrphaned(t: string, services: seq<Svc>)
    ensures !Orphaned(t, [], services)
  {
  }

  /** Faults only grow, and without a fault each pool call does what it is for. */
  lemma PoolFaults(c: Cluster, zone: string, addrs: seq<string>)
    ensures AddToPool(c, zone, addrs).cluster.faults >= c.faults
    ensures var v := VerifyPool(c, zone);
            && v.cluster.faults >= c.faults && v.cluster.addsFailed == c.addsFailed && v.cluster.pools == c.pools
            && (v.ok ==> zone in c.pools) && (v.cluster.faults == c.faults ==> (v.ok <==> zone in c.pools))
    ensures var v := RemoveFromPool(c, zone, addrs);
            && v.cluster.faults >= c.faults && v.cluster.addsFailed == c.addsFailed
            && (v.cluster.faults == c.faults ==> (v.ok <==> zone in c.pools))
  {
    hide AddForms, Reduced, Unused;
  }

  // ---------------------------------------------------------------- what the hooks do to the pools

  function After2(c: Cluster): Cluster { Call(Call(c).cluster).cluster }

  function After3(c: Cluster): Cluster { Call(After2(c)).cluster }

  /** A creation either leaves the pools alone or, accepted, has added its addresses. */
  lemma CreatePools(svc: Svc, dry: bool, c: Cluster, r: Register)
    ensures var v := CheckCreate(svc, dry, c, r);
            var added := AddToPool(After2(c), ZoneOf(svc), AddressList(svc.annotations));
            if v.ok && svc.kind == LoadBalancer && !dry then added.ok && v.cluster == added.cluster
            else v.cluster.pools == c.pools
  {
    hide ValidateEach, ReleaseEach, AddressList, SecretValue, HasSecret, AddForms, Without;
  }

  lemma UpdatePoolsVerdict(prev: Svc, next: Svc, dry: bool, rand: string, c: Cluster, r: Register)
    ensures var v, p := CheckUpdate(prev, next, dry, rand, c, r), PlanFor(prev, next, rand, c);
            || (v.cluster.pools == c.pools && v.cluster.faults >= c.faults && v.cluster.addsFailed == c.addsFailed
                && (v.ok ==> dry || (prev.kind != LoadBalancer && next.kind != LoadBalancer) || p.before == p.after))
            || (v.ok && v.cluster == UpdatePools(p, After3(c)) && UpdateLeases(next.id, p, r).ok
                && !dry && (prev.kind == LoadBalancer || next.kind == LoadBalancer))
    ensures var c3 := After3(c);
            c3.pools == c.pools && c3.services == c.services && c3.addsFailed == c.addsFailed && c3.faults >= c.faults
  {
    hide UpdateLeases, PlanFor, UpdatePools, SecretValue, HasSecret;
  }

  /** A deletion either leaves the pools alone or, accepted, has taken out its orphaned addresses; without a fault
      it skips that only if none of its addresses is pooled. */
  lemma DeletePools(svc: Svc, dry: bool, c: Cluster, r: Register)
    ensures var v := CheckDelete(svc, dry, c, r);
            var removal := RemoveFromPool(After3(c), ZoneOf(svc), AddressList(svc.annotations));
            || (v.ok && svc.kind == LoadBalancer && !dry && removal.ok && v.cluster == removal.cluster)
            || (v.cluster.pools == c.pools && v.cluster.faults >= c.faults
                && (v.cluster.faults == c.faults && svc.kind == LoadBalancer && !dry && v.ok ==>
                      forall a | a in AddressList(svc.annotations) :: VerifyForm(a) !in PoolOf(c, ZoneOf(svc))))
    ensures After3(c).services == c.services && After3(c).pools == c.pools && After3(c).faults >= c.faults
  {
    hide ValidateEach, ReleaseEach, AddressList, SecretValue, HasSecret, RemoveFromPool, VerifyForm, VerifyAddresses;
    var m, zone := svc.annotations, ZoneOf(svc);
    VerifyOutcome(After2(c), m);
    var removal := RemoveFromPool(After3(c), zone, AddressList(m));
    PoolFaults(After3(c), zone, AddressList(m));
    if !removal.ok {
      RemovalFails(After3(c), zone, AddressList(m));
    }
  }

  lemma VerifyOutcome(c: Cluster, m: Annotations)
    ensures var v := VerifyAddresses(c, m);
            && v.cluster == Call(c).cluster
            && (v.cluster.faults == c.faults && !v.ok ==>
                  forall a | a in AddressList(m) :: VerifyForm(a) !in PoolOf(c, Get(m, Zone)))
  {
    hide AddressList, VerifyForm;
  }

  // ---------------------------------------------------------------- coverage: creation, update, deletion

  lemma NeedsMore(services: seq<Svc>, svc: Svc, z: string, t: string)
    ensures Needs(services + [svc], z, t) <==> Needs(services, z, t) || Uses(svc, z, t)
  {
    hide Uses;
    var more := services + [svc];
    if Needs(services, z, t) {
      var i :| 0 <= i < |services| && Uses(services[i], z, t);
      assert Uses(more[i], z, t);
    }
    if Uses(svc, z, t) {
      assert Uses(more[|services|], z, t);
    }
  }

  /** An address listed by a well-formed Service is valid, and its pool forms all agree. */
  lemma ListedForms(svc: Svc, a: string)
    requires L.Well(svc) && svc.kind == LoadBalancer && a in AddressList(svc.annotations)
    ensures IsValidIp(a) && AddForm(a) == Prefixed(a) && RemoveForm(a) == Prefixed(a) && VerifyForm(a) == Prefixed(a)
  {
    hide AddForm, RemoveForm, VerifyForm, Prefixed, AddressList, CountWith, IsValidIp;
    BareForms(a);
  }

  lemma UsesForms(svc: Svc, z: string, t: string)
    requires L.Well(svc) && svc.kind == LoadBalancer
    ensures Uses(svc, z, t) <==> ZoneOf(svc) == z && t in AddForms(AddressList(svc.annotations))
  {
    hide AddForm, Prefixed, L.Well, AddressList;
    FormsHave(AddressList(svc.annotations), t);
    forall a | a in AddressList(svc.annotations) ensures AddForm(a) == Prefixed(a) {
      ListedForms(svc, a);
    }
  }

  /** Removed addresses are either the stored Service's or, after an upgrade, at most the empty text. */
  predicate RemovesOwn(p: Plan, prev: Svc, next: Svc) {
    && (prev.kind == LoadBalancer ==>
          forall a | a in p.removed :: a in AddressList(prev.annotations) && a !in AddressList(next.annotations))
    && (prev.kind != LoadBalancer ==> forall a | a in p.removed :: a == "")
  }

  lemma NotOrphanedByUpdate(services: seq<Svc>, i: nat, j: nat, prev: Svc, next: Svc, p: Plan, b: string)
    requires i < |services| && prev == services[i] && L.Well(prev) && RemovesOwn(p, prev, next)
    requires IsValidIp(b)
    requires b in AddressList(next.annotations) || (j < |services| && j != i && Mentioned(services[j], b))
    ensures !Orphaned(Prefixed(b), p.removed, services)
  {
    hide Mentions, AddressList, BeforeSlash, RemoveForm, Prefixed, L.Well;
    if prev.kind == LoadBalancer {
      forall a | a in p.removed ensures IsValidIp(a) && Mentioned(services[i], a) && RemoveForm(a) == Prefixed(a) {
        ListedForms(prev, a);
      }
      if b in AddressList(next.annotations) {
        forall a | a in p.removed && Prefixed(a) == Prefixed(b) ensures false {
          PrefixedInjective(a, b);
        }
      } else {
        RemovalSafe(p.removed, services, i, j, b);
      }
    } else {
      assert RemoveForm("") == "" && Prefixed(b) != "" by {
        EmptyForm(b);
      }
    }
  }

  lemma EmptyForm(b: string)
    ensures RemoveForm("") == "" && Prefixed(b) != ""
  {
  }

  /** The plan's three lists against the stored and the new Service. */
  predicate PlanFits(p: Plan, prev: Svc, next: Svc) {
    && Get(p.after, Zone) == ZoneOf(next)
    && (prev.kind == LoadBalancer ==> Get(p.before, Zone) == ZoneOf(prev))
    && RemovesOwn(p, prev, next)
    && (forall a :: a in AddressList(next.annotations) ==> a in p.added || a in p.kept)
    && (forall a :: a in p.added ==> a in AddressList(next.annotations))
    && (forall a :: a in p.kept ==> a in AddressList(next.annotations))
    && (prev.kind == LoadBalancer ==> forall a :: a in p.added ==> a !in AddressList(prev.annotations))
    && (prev.kind == LoadBalancer ==> forall a :: a in p.kept ==> a in AddressList(prev.annotations))
    && (prev.kind == LoadBalancer ==>
          forall a :: a in AddressList(prev.annotations) ==> a in AddressList(next.annotations) || a in p.removed)
    && (prev.kind != LoadBalancer ==> forall a :: a in p.kept ==> a == "")
  }

  lemma PlanForFits(prev: Svc, next: Svc, rand: string, c: Cluster)
    requires prev.kind != LoadBalancer ==> Get(prev.annotations, Addresses) == ""
    ensures PlanFits(PlanFor(prev, next, rand, c), prev, next)
  {
    hide PlanFor, AddressList, Without, Within;
    var news := AddressList(next.annotations);
    var olds := if prev.kind == LoadBalancer then AddressList(prev.annotations) else [""];
    if prev.kind == LoadBalancer {
      L.PlanLists(prev, next, rand, c);
    } else {
      L.PlanUpgrade(prev, next, rand, c);
    }
    var p := PlanFor(prev, next, rand, c);
    forall a: string
      ensures a in p.added <==> a in news && a !in olds
      ensures a in p.kept <==> a in news && a in olds
      ensures a in p.removed <==> a in olds && a !in news
    {
      WithoutHas(news, olds, a);
      WithinHas(news, olds, a);
      WithoutHas(olds, news, a);
    }
  }

  lemma NeedsReplaced(services: seq<Svc>, i: nat, next: Svc, z: string, t: string)
    requires i < |services|
    ensures Needs(services[i := next], z, t)
       <==> Uses(next, z, t) || exists j :: 0 <= j < |services| && j != i && Uses(services[j], z, t)
  {
    hide Uses;
    var after := services[i := next];
    if Uses(next, z, t) {
      assert Uses(after[i], z, t);
    }
    if j :| 0 <= j < |services| && j != i && Uses(services[j], z, t) {
      assert Uses(after[j], z, t);
    }
  }

  /** An accepted update whose addition succeeded keeps every pool covering. */
  lemma UpdateCovers(services: seq<Svc>, i: nat, next: Svc, p: Plan, c: Cluster, z: string, t: string)
    requires i < |services| && c.services == services && AllWell(services) && Covers(services, c) && L.Well(next)
    requires PlanFits(p, services[i], next) && (Get(p.before, Zone) != Get(p.after, Zone) ==> p.kept == [])
    requires UpdatePools(p, c).addsFailed == c.addsFailed
    requires Needs(services[i := next], z, t)
    ensures t in PoolOf(UpdatePools(p, c), z)
  {
    hide UpdatePools, Orphaned, AddressList, Prefixed, L.Well, AddForm;
    UpdatePoolsExact(p, c, z, t);
    NeedsReplaced(services, i, next, z, t);
    if Uses(next, z, t) {
      var a :| a in AddressList(next.annotations) && Prefixed(a) == t;
      ListedForms(next, a);
      NotOrphanedByUpdate(services, i, i, services[i], next, p, a);
      if a in p.added {
        FormsHave(p.added, t);
      } else {
        assert Uses(services[i], z, t) by {
          assert a != "" by { EmptyInvalid(a); }
        }
      }
    } else {
      var j :| 0 <= j < |services| && j != i && Uses(services[j], z, t);
      var a :| a in AddressList(services[j].annotations) && Prefixed(a) == t;
      ListedForms(services[j], a);
      NotOrphanedByUpdate(services, i, j, services[i], next, p, a);
    }
  }

  lemma EmptyInvalid(a: string)
    requires IsValidIp(a)
    ensures a != ""
  {
  }

  lemma NeedsTakenOut(services: seq<Svc>, i: nat, z: string, t: string)
    requires i < |services|
    ensures Needs(services[..i] + services[i + 1..], z, t)
       <==> exists j :: 0 <= j < |services| && j != i && Uses(services[j], z, t)
  {
    hide Uses;
    var after := services[..i] + services[i + 1..];
    if k :| 0 <= k < |after| && Uses(after[k], z, t) {
      assert Uses(services[if k < i then k else k + 1], z, t);
    }
    if j :| 0 <= j < |services| && j != i && Uses(services[j], z, t) {
      assert Uses(after[if j < i then j else j - 1], z, t);
    }
  }

  /** An accepted deletion keeps every pool covering the Services that stay. */
  lemma DeleteCovers(services: seq<Svc>, i: nat, c: Cluster, z: string, t: string)
    requires i < |services| && c.services == services && AllWell(services) && Covers(services, c)
    requires services[i].kind == LoadBalancer
    requires RemoveFromPool(c, ZoneOf(services[i]), AddressList(services[i].annotations)).ok
    requires Needs(services[..i] + services[i + 1..], z, t)
    ensures t in PoolOf(RemoveFromPool(c, ZoneOf(services[i]), AddressList(services[i].annotations)).cluster, z)
  {
    hide RemoveFromPool, Orphaned, AddressList, Prefixed, L.Well;
    var addrs := AddressList(services[i].annotations);
    NeedsTakenOut(services, i, z, t);
    var j :| 0 <= j < |services| && j != i && Uses(services[j], z, t);
    var b :| b in AddressList(services[j].annotations) && Prefixed(b) == t;
    ListedForms(services[j], b);
    forall a | a in addrs ensures IsValidIp(a) && Mentioned(services[i], a) {
      ListedForms(services[i], a);
    }
    RemovalSafe(addrs, services, i, j, b);
    RemovalExact(c, ZoneOf(services[i]), addrs, t);
  }
}
