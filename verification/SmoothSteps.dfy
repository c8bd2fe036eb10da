/** What an admission does when the cluster answers every call: the calls to the register decide. */
module SmoothSteps {
  import opened Text
  import opened Lists
  import opened Services
  import opened Ipam
  import opened Mutation
  import opened Validation
  import opened Admission
  import opened Pools
  import opened UpdateRollback
  import M = MutationFacts
  import L = LeaseCoverage

  /** The next `n` Kubernetes calls succeed. */
  predicate Up(c: Cluster, n: nat) {
    n <= |c.replies| && forall k | 0 <= k < n :: c.replies[k]
  }

  /** The cluster after `n` calls that changed nothing. */
  function Later(c: Cluster, n: nat): Cluster
    requires n <= |c.replies|
  {
    c.(replies := c.replies[n..])
  }

  lemma LaterTwice(c: Cluster, m: nat, n: nat)
    requires Up(c, m + n)
    ensures Up(Later(c, m), n) && Later(Later(c, m), n) == Later(c, m + n)
  {
    assert c.replies[m..][n..] == c.replies[m + n..];
  }

  lemma CallUp(c: Cluster)
    requires Up(c, 1)
    ensures Call(c) == Pools.Answer(true, Later(c, 1))
  {
  }

  lemma FetchUp(c: Cluster, id: Id, m: Annotations)
    requires Up(c, 1) && HasSecret(c, id, m)
    ensures FetchSecret(c, id, m) == Pools.Answer(true, Later(c, 1))
  {
    CallUp(c);
  }

  // ---------------------------------------------------------------- the hooks

  /** The mutating hook on a load balancer whose annotations are complete. */
  lemma MutateSmooth(svc: Svc, create: bool, rand: string, c: Cluster, r: Register)
    requires svc.kind == LoadBalancer && M.Complete(svc.annotations) && Reconcilable(svc.annotations)
    requires Up(c, 2) && HasSecret(c, svc.id, svc.annotations) && !(create && Exists(c.services, svc.id))
    ensures var l := LeaseMissing(svc.annotations, svc.id, SecretValue(c, svc.id, svc.annotations), r);
            Mutate(svc, create, false, rand, c, r)
            == Mutated(l.ok, Reconciled(svc).(annotations := l.annotations), Later(c, 2), l.reg)
  {
    hide LeaseMissing, WithDefaults, Reconcilable, SecretValue, HasSecret, Exists, FetchSecret, Call;
    M.CompleteFixpoint(svc.annotations, rand);
    CallUp(c);
    LaterTwice(c, 1, 1);
    assert HasSecret(Later(c, 1), svc.id, svc.annotations) by { SameSecrets(c, Later(c, 1), svc.id, svc.annotations); }
    FetchUp(Later(c, 1), svc.id, svc.annotations);
  }

  lemma SameSecrets(c1: Cluster, c2: Cluster, id: Id, m: Annotations)
    requires c1.secrets == c2.secrets
    ensures HasSecret(c1, id, m) == HasSecret(c2, id, m) && SecretValue(c1, id, m) == SecretValue(c2, id, m)
  {
  }

  lemma SamePlan(prev: Svc, next: Svc, rand: string, c1: Cluster, c2: Cluster)
    requires c1.secrets == c2.secrets
    ensures PlanFor(prev, next, rand, c1) == PlanFor(prev, next, rand, c2)
  {
    hide AddressList, Without, Within, IpamPart, OldAnnotations, SecretValue, HasSecret;
    var p := PlanFor(prev, next, rand, c1);
    SameSecrets(c1, c2, next.id, p.before);
    SameSecrets(c1, c2, next.id, p.after);
  }

  /** The validating hook on a creation, up to the pool. */
  lemma CreateSmooth(svc: Svc, c: Cluster, r: Register)
    requires svc.kind == LoadBalancer && Up(c, 2) && HasSecret(c, svc.id, svc.annotations)
    ensures var m, secret := svc.annotations, SecretValue(c, svc.id, svc.annotations);
            var p := ValidateEach(AddressList(m), m, svc.id, secret, r);
            p.count < |AddressList(m)| ==>
              CheckCreate(svc, false, c, r)
              == Verdict(false, Later(c, 2), ReleaseEach(AddressList(m)[..p.count], m, svc.id, secret, p.reg))
  {
    hide ValidateEach, ReleaseEach, AddressList, SecretValue, HasSecret, AddToPool, FetchSecret, Call;
    CallUp(c);
    LaterTwice(c, 1, 1);
    SameSecrets(c, Later(c, 1), svc.id, svc.annotations);
    FetchUp(Later(c, 1), svc.id, svc.annotations);
  }

  /** The validating hook on an update. */
  lemma UpdateSmooth(prev: Svc, next: Svc, rand: string, c: Cluster, r: Register, p: Plan)
    requires (prev.kind == LoadBalancer || next.kind == LoadBalancer) && Up(c, 3) && p == PlanFor(prev, next, rand, c)
    requires HasSecret(c, next.id, p.before) && HasSecret(c, next.id, p.after)
    ensures var v, u := CheckUpdate(prev, next, false, rand, c, r), UpdateLeases(next.id, p, r);
            if p.before == p.after then v == Verdict(true, Later(c, 1), r)
            else v == Verdict(u.ok, if u.ok then UpdatePools(p, Later(c, 3)) else Later(c, 3), u.reg)
  {
    hide UpdateLeases, UpdatePools, PlanFor, SecretValue, HasSecret, FetchSecret, Call;
    CallUp(c);
    LaterTwice(c, 1, 1);
    LaterTwice(c, 1, 2);
    LaterTwice(c, 2, 1);
    SameSecrets(c, Later(c, 1), next.id, p.before);
    FetchUp(Later(c, 1), next.id, p.before);
    SameSecrets(c, Later(c, 2), next.id, p.after);
    FetchUp(Later(c, 2), next.id, p.after);
  }

  // ---------------------------------------------------------------- whole admissions

  /** A creation that is rejected by the mutating hook or at one of its addresses. */
  lemma CreateRejected(w: World, obj: Svc, rand: string)
    requires IndexOf(w.c.services, obj.id) == |w.c.services| && Up(w.c, 4)
    requires obj.kind == LoadBalancer && !obj.ingress && M.Complete(obj.annotations) && Reconcilable(obj.annotations)
    requires HasSecret(w.c, obj.id, obj.annotations) && !Exists(w.c.services, obj.id)
    requires var l := LeaseMissing(obj.annotations, obj.id, SecretValue(w.c, obj.id, obj.annotations), w.r);
             M.Rest(l.annotations) == M.Rest(obj.annotations)
    ensures var secret := SecretValue(w.c, obj.id, obj.annotations);
            var l := LeaseMissing(obj.annotations, obj.id, secret, w.r);
            var list := AddressList(l.annotations);
            var p := ValidateEach(list, l.annotations, obj.id, secret, l.reg);
            && (!l.ok ==> Step(w, CreateOp(obj, false, rand)) == World(Later(w.c, 2), l.reg))
            && (l.ok && p.count < |list| ==>
                  Step(w, CreateOp(obj, false, rand))
                  == World(Later(w.c, 4), ReleaseEach(list[..p.count], l.annotations, obj.id, secret, p.reg)))
  {
    hide LeaseMissing, Mutate, CheckCreate, ValidateEach, ReleaseEach, AddressList, SecretValue, HasSecret, Reconcilable,
         M.Complete, Exists, M.Rest;
    var l := LeaseMissing(obj.annotations, obj.id, SecretValue(w.c, obj.id, obj.annotations), w.r);
    assert Submitted(obj, false) == obj;
    MutateSmooth(obj, true, rand, w.c, w.r);
    if l.ok {
      LaterTwice(w.c, 2, 2);
      SecretKept(w.c, Later(w.c, 2), obj.id, obj.annotations, l.annotations);
      CreateSmooth(Reconciled(obj).(annotations := l.annotations), Later(w.c, 2), l.reg);
    }
  }

  /** A secret's name is not one of the annotations the mutating hook writes. */
  lemma SecretKept(c1: Cluster, c2: Cluster, id: Id, m1: Annotations, m2: Annotations)
    requires c1.secrets == c2.secrets && M.Rest(m1) == M.Rest(m2)
    ensures HasSecret(c1, id, m1) == HasSecret(c2, id, m2) && SecretValue(c1, id, m1) == SecretValue(c2, id, m2)
  {
    hide M.Rest;
    M.RestGet(m1, m2, SecretName);
  }

  /** An update of the Service at `i`, after a successful mutation. */
  lemma UpdateDecided(w: World, i: nat, obj: Svc, rand: string, rand2: string, next: Svc, l: Leasing, p: Plan)
    requires i == IndexOf(w.c.services, obj.id) < |w.c.services| && Up(w.c, 5) && obj.ingress == w.c.services[i].ingress
    requires obj.kind == LoadBalancer && M.Complete(obj.annotations) && Reconcilable(obj.annotations)
    requires HasSecret(w.c, obj.id, obj.annotations)
    requires l == LeaseMissing(obj.annotations, obj.id, SecretValue(w.c, obj.id, obj.annotations), w.r) && l.ok
    requires next == Reconciled(obj).(annotations := l.annotations)
    requires p == PlanFor(w.c.services[i], next, rand2, w.c)
    requires HasSecret(w.c, obj.id, p.before) && HasSecret(w.c, obj.id, p.after)
    ensures var after, u := Step(w, UpdateOp(obj, false, rand, rand2)), UpdateLeases(obj.id, p, l.reg);
            if p.before == p.after then after == World(Later(w.c, 3).(services := w.c.services[i := next]), l.reg)
            else if u.ok then
              after == World(UpdatePools(p, Later(w.c, 5)).(services := w.c.services[i := next]), u.reg)
            else after == World(Later(w.c, 5), u.reg)
  {
    hide LeaseMissing, Mutate, CheckUpdate, UpdateLeases, UpdatePools, PlanFor, SecretValue, HasSecret, Reconcilable,
         M.Complete;
    assert Submitted(obj, w.c.services[i].ingress) == obj;
    MutateSmooth(obj, false, rand, w.c, w.r);
    SamePlan(w.c.services[i], next, rand2, w.c, Later(w.c, 2));
    SameSecrets(w.c, Later(w.c, 2), obj.id, p.before);
    SameSecrets(w.c, Later(w.c, 2), obj.id, p.after);
    LaterTwice(w.c, 2, 3);
    LaterTwice(w.c, 2, 1);
    UpdateSmooth(w.c.services[i], next, rand2, Later(w.c, 2), l.reg, p);
  }

  /** An update that makes another type of the load balancer at `i`: the mutating hook passes the object over. */
  lemma DowngradeDecided(w: World, i: nat, obj: Svc, rand: string, rand2: string, p: Plan)
    requires i == IndexOf(w.c.services, obj.id) < |w.c.services| && Up(w.c, 3)
    requires w.c.services[i].kind == LoadBalancer && obj.kind != LoadBalancer && !obj.ingress && !w.c.services[i].ingress
    requires p == PlanFor(w.c.services[i], obj, rand2, w.c)
    requires HasSecret(w.c, obj.id, p.before) && HasSecret(w.c, obj.id, p.after)
    ensures var after, u := Step(w, UpdateOp(obj, false, rand, rand2)), UpdateLeases(obj.id, p, w.r);
            if p.before == p.after then after == World(Later(w.c, 1).(services := w.c.services[i := obj]), w.r)
            else if u.ok then
              after == World(UpdatePools(p, Later(w.c, 3)).(services := w.c.services[i := obj]), u.reg)
            else after == World(Later(w.c, 3), u.reg)
  {
    hide CheckUpdate, UpdateLeases, UpdatePools, PlanFor, SecretValue, HasSecret, LeaseMissing, WithDefaults, Reconcilable;
    assert Submitted(obj, w.c.services[i].ingress) == obj;
    UpdateSmooth(w.c.services[i], obj, rand2, w.c, w.r, p);
  }

  /** The plan of an update of a Service with complete annotations, load balancer or not. */
  lemma PlanOfComplete(prev: Svc, next: Svc, rand: string, c: Cluster)
    requires M.Complete(prev.annotations)
    ensures var p := PlanFor(prev, next, rand, c);
            && p.before == IpamPart(prev.annotations) && p.after == IpamPart(next.annotations)
            && p.added == Without(AddressList(next.annotations), AddressList(prev.annotations))
            && p.kept == Within(AddressList(next.annotations), AddressList(prev.annotations))
            && p.removed == Without(AddressList(prev.annotations), AddressList(next.annotations))
            && p.oldSecret == SecretValue(c, next.id, prev.annotations)
            && p.newSecret == SecretValue(c, next.id, next.annotations)
            && HasSecret(c, next.id, p.before) == HasSecret(c, next.id, prev.annotations)
            && HasSecret(c, next.id, p.after) == HasSecret(c, next.id, next.annotations)
  {
    hide AddressList, Without, Within, IpamPart, WithDefaults;
    M.CompleteFixpoint(prev.annotations, rand);
    L.IpamGet(prev.annotations, Addresses);
    L.IpamGet(next.annotations, Addresses);
    L.IpamGet(prev.annotations, SecretName);
    L.IpamGet(next.annotations, SecretName);
    L.SameText(IpamPart(prev.annotations), prev.annotations);
    L.SameText(IpamPart(next.annotations), next.annotations);
  }

  /** Two annotation maps with a different IPAM text have different IPAM parts; calls read the same in both. */
  lemma IpamReads(m: Annotations)
    ensures Get(IpamPart(m), Zone) == Get(m, Zone) && Get(IpamPart(m), SecretName) == Get(m, SecretName)
    ensures Get(IpamPart(m), Addresses) == Get(m, Addresses) && Get(IpamPart(m), RetentionDays) == Get(m, RetentionDays)
    ensures Sendable(IpamPart(m)) == Sendable(m)
  {
    hide IpamPart, ParsesInt, ParsesBool;
    L.IpamGet(m, Zone);
    L.IpamGet(m, SecretName);
    L.IpamGet(m, Addresses);
    L.IpamGet(m, RetentionDays);
    L.IpamGet(m, DenyExternalCleanup);
  }

  // ---------------------------------------------------------------- single calls that are answered

  /** A request without an address that is answered with a free address. */
  lemma Grants(family: string, m: Annotations, id: Id, secret: string, r: Register, a: string, t: string)
    requires Sendable(m) && IsValidIp(a) && (t == a || t == Prefixed(a)) && SlotOf(Get(m, Zone), a) !in r.leases
    requires (family == IPV4_FAMILY && IsIPv4(a)) || (family == IPV6_FAMILY && IsIPv6(a))
    requires NextReply(r) == Done(t)
    ensures GetAddress(family, m, id, secret, r)
         == Ipam.Answer(Some(t), Posted(r, r.leases[SlotOf(Get(m, Zone), a) := Lease(secret, {id})], false, false))
    ensures BeforeSlash(t) == a
  {
    hide Sendable, Prefixed, RequestForm, IsIPv4, IsIPv6, BeforeSlash;
    RequestFormOfPrefixed(a);
    NormalisersAgree(a);
    ValidText(a);
    BeforeSlashPrefix(a, "");
    var q := Request(id, secret, None, Get(m, Zone), family, "");
    assert Rewrite(q) == q;
    assert Offers(t, family);
  }

  /** Calls that are refused. */
  lemma Refuses(a: string, family: string, m: Annotations, id: Id, secret: string, secret2: string, r: Register)
    requires NextReply(r) == Refused && Sendable(m)
    ensures GetAddress(family, m, id, secret, r) == Ipam.Answer(None, Posted(r, r.leases, true, false))
    ensures IsValidIp(a) ==> UpdateAddress(a, m, id, secret, r) == Ipam.Answer(None, Posted(r, r.leases, true, false))
    ensures IsValidIp(a) ==> RotateSecret(a, m, id, secret, secret2, r) == Ipam.Answer(None, Posted(r, r.leases, true, false))
  {
    hide Sendable, IsValidIp;
  }

  /** A validation that is answered. */
  lemma Validates(a: string, m: Annotations, id: Id, secret: string, r: Register)
    requires Sendable(m) && IsValidIp(a) && NextReply(r).Done?
    requires SlotOf(Get(m, Zone), a) in r.leases ==> r.leases[SlotOf(Get(m, Zone), a)].secret == secret
    ensures UpdateAddress(a, m, id, secret, r)
         == Ipam.Answer(Some(Prefixed(a)), Posted(r, Enlist(r.leases, SlotOf(Get(m, Zone), a), secret, id), false, false))
  {
    hide Sendable, IsValidIp, Rewrite, Enlist, Prefixed;
    RewriteValid(id, m, secret, None, a);
  }

  /** A rotation that is answered. */
  lemma Rekeys(a: string, m: Annotations, id: Id, secret: string, secret2: string, r: Register)
    requires Sendable(m) && IsValidIp(a) && NextReply(r).Done?
    requires SlotOf(Get(m, Zone), a) in r.leases && r.leases[SlotOf(Get(m, Zone), a)].secret == secret
    ensures var slot := SlotOf(Get(m, Zone), a);
            RotateSecret(a, m, id, secret, secret2, r)
            == Ipam.Answer(Some(Prefixed(a)),
                           Posted(r, r.leases[slot := r.leases[slot].(secret := secret2)], false, false))
  {
    hide Sendable, IsValidIp, Rewrite, Prefixed;
    RewriteValid(id, m, secret, Some(secret2), a);
  }

  /** A release that is answered. */
  lemma Releases(a: string, m: Annotations, id: Id, secret: string, r: Register)
    requires Sendable(m) && IsValidIp(a) && NextReply(r).Done?
    requires HeldBy(r.leases, SlotOf(Get(m, Zone), a), id, secret)
    ensures RemoveAddress(a, m, id, secret, r).reg == Deleted(r, Drop(r.leases, SlotOf(Get(m, Zone), a), id), false, false)
  {
    hide Sendable, IsValidIp, Rewrite, Drop, Prefixed;
    RewriteValid(id, m, secret, None, a);
  }

  // ---------------------------------------------------------------- updates without a call

  lemma SameLists(list: seq<string>)
    ensures Without(list, list) == [] && Within(list, list) == list
  {
    WithoutAll(list, list);
    DiffPartitions(list, list);
    DiffKeepsOrder(list, list);
    AllWithin(list, list);
  }

  lemma {:induction false} AllWithin(xs: seq<string>, ys: seq<string>)
    requires forall x | x in xs :: x in ys
    ensures Within(xs, ys) == xs
  {
    if xs != [] {
      AllWithin(xs[1..], ys);
    }
  }

  /** An update of a committed load balancer that only rewrites one of the two parsed annotations, to any text, is
      accepted and committed without a single request: so stored annotations can stop parsing. */
  lemma UnparsableAccepted(w: World, i: nat, k: Key, t: string, rand: string, rand2: string)
    requires i < |w.c.services| && i == IndexOf(w.c.services, w.c.services[i].id) && Up(w.c, 5)
    requires w.c.services[i].kind == LoadBalancer && M.Shaped(w.c.services[i].annotations)
    requires Pools.HasSecret(w.c, w.c.services[i].id, w.c.services[i].annotations)
    requires k == RetentionDays || k == DenyExternalCleanup
    ensures var obj := w.c.services[i].(annotations := w.c.services[i].annotations[k := t]);
            var after := Step(w, UpdateOp(obj, false, rand, rand2));
            && after.r == w.r && after.c.pools == w.c.pools && after.c.services == w.c.services[i := Reconciled(obj)]
            && (after.c.(services := w.c.services) == Later(w.c, 3) || after.c.(services := w.c.services) == Later(w.c, 5))
  {
    hide Step, SecretValue, HasSecret, LeaseMissing, PlanFor, UpdatePools, UpdateLeases, AddressList, IpamPart, Reconcilable,
         M.Complete, ParsesInt, ParsesBool, Without, Within;
    var prev := w.c.services[i];
    var obj := prev.(annotations := prev.annotations[k := t]);
    var next := Reconciled(obj);
    StillShaped(prev.annotations, k, t);
    M.LeasingFixpoint(obj.annotations, obj.id, SecretValue(w.c, obj.id, obj.annotations), w.r);
    var p := PlanFor(prev, next, rand2, w.c);
    PlanOfComplete(prev, next, rand2, w.c);
    SameName(w.c, prev.id, prev.annotations, obj.annotations);
    L.SameText(prev.annotations, obj.annotations);
    SameLists(AddressList(prev.annotations));
    IpamReads(prev.annotations);
    IpamReads(obj.annotations);
    NoCalls(obj.id, p, w.r, Later(w.c, 5));
    UpdateDecided(w, i, obj, rand, rand2, next, Leasing(true, obj.annotations, None, None, w.r), p);
  }

  lemma StillShaped(m: Annotations, k: Key, t: string)
    requires M.Shaped(m) && (k == RetentionDays || k == DenyExternalCleanup)
    ensures M.Shaped(m[k := t]) && M.Complete(m) && M.Complete(m[k := t]) && Reconcilable(m[k := t])
    ensures Get(m[k := t], SecretName) == Get(m, SecretName) && Get(m[k := t], Zone) == Get(m, Zone)
    ensures Get(m[k := t], Addresses) == Get(m, Addresses)
  {
    L.SameText(m, m[k := t]);
    hide ValidList, AddressList;
  }

  lemma SameName(c: Cluster, id: Id, m1: Annotations, m2: Annotations)
    requires Get(m1, SecretName) == Get(m2, SecretName)
    ensures HasSecret(c, id, m1) == HasSecret(c, id, m2) && SecretValue(c, id, m1) == SecretValue(c, id, m2)
  {
  }

  /** Nothing new, nothing removed, same zone, same secret: no call. */
  lemma NoCalls(id: Id, p: Plan, r: Register, c: Cluster)
    requires p.added == [] && p.removed == []
    requires Get(p.before, Zone) == Get(p.after, Zone) && Get(p.before, SecretName) == Get(p.after, SecretName)
    ensures UpdateLeases(id, p, r) == Rotated(true, r) && UpdatePools(p, c) == c
  {
  }

  lemma AddUp(c: Cluster, zone: string, addrs: seq<string>)
    requires Up(c, 6)
    ensures var added := AddToPool(c, zone, addrs);
            added.ok && added.cluster.faults == c.faults && Up(added.cluster, 4) && c.pools.Keys <= added.cluster.pools.Keys
  {
    hide AddForms, Without, Call;
    CallUp(c);
    LaterTwice(c, 1, 1);
    LaterTwice(c, 2, 4);
    CallUp(Later(c, 1));
  }

  /** When every call succeeds the pool side of an update has no fault. */
  lemma PoolsUp(p: Plan, c: Cluster)
    requires Up(c, 6) && Get(p.before, Zone) in c.pools
    ensures UpdatePools(p, c).faults == c.faults
  {
    hide AddToPool, RemoveFromPool, Call;
    AddUp(c, Get(p.after, Zone), p.added);
    var grown := if p.added != [] then AddToPool(c, Get(p.after, Zone), p.added).cluster else c;
    CallUp(grown);
    LaterTwice(grown, 1, 3);
    RemovalUp(Later(grown, 1), Get(p.before, Zone), p.removed);
  }

  /** The deletion hook on a load balancer with a pooled address. */
  lemma DeleteSmooth(svc: Svc, c: Cluster, r: Register)
    requires svc.kind == LoadBalancer && Up(c, 6) && HasSecret(c, svc.id, svc.annotations)
    requires ZoneOf(svc) in c.pools
    requires exists a :: a in AddressList(svc.annotations) && VerifyForm(a) in c.pools[ZoneOf(svc)]
    ensures var v, removal := CheckDelete(svc, false, c, r), RemoveFromPool(Later(c, 3), ZoneOf(svc), AddressList(svc.annotations));
            v.ok && removal.ok && v.cluster == removal.cluster && removal.cluster.faults == c.faults
  {
    hide ReleaseEach, ValidateEach, AddressList, SecretValue, HasSecret, FetchSecret, Call, RemoveFromPool, VerifyForm;
    CallUp(c);
    LaterTwice(c, 1, 1);
    LaterTwice(c, 2, 1);
    LaterTwice(c, 3, 3);
    SameSecrets(c, Later(c, 1), svc.id, svc.annotations);
    FetchUp(Later(c, 1), svc.id, svc.annotations);
    CallUp(Later(c, 2));
    RemovalUp(Later(c, 3), ZoneOf(svc), AddressList(svc.annotations));
  }

  lemma RemovalUp(c: Cluster, zone: string, addrs: seq<string>)
    requires Up(c, 3) && zone in c.pools
    ensures RemoveFromPool(c, zone, addrs).ok && RemoveFromPool(c, zone, addrs).cluster.faults == c.faults
  {
    hide Reduced, Unused;
  }
}
