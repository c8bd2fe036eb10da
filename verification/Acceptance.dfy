/** When the hooks accept: exactly, call by call, and for a register and a cluster that answer. */
module Acceptance {
  import opened Text
  import opened Lists
  import opened Services
  import opened Ipam
  import opened Mutation
  import opened Validation
  import opened Admission
  import opened Pools
  import opened PoolFacts
  import opened PoolCoverage
  import opened LeaseFacts
  import opened Rollback
  import opened UpdateRollback
  import opened SmoothSteps
  import M = MutationFacts
  import L = LeaseCoverage
  import X = PoolExact

  // ---------------------------------------------------------------- the pool calls

  /** An addition succeeds iff its write does and, where the zone has a pool, so does the read: a zone without a pool gets
      one whatever the read says. */
  lemma AdditionSucceeds(c: Cluster, zone: string, addrs: seq<string>)
    ensures AddToPool(c, zone, addrs).ok <==> Call(Call(c).cluster).ok && (zone in c.pools ==> Call(c).ok)
  {
    hide AddForms, Without;
  }

  /** A removal succeeds iff the zone has a pool and its three calls succeed. */
  lemma RemovalSucceeds(c: Cluster, zone: string, addrs: seq<string>)
    ensures RemoveFromPool(c, zone, addrs).ok
       <==> zone in c.pools && Call(c).ok && Call(After1(c)).ok && Call(After2(c)).ok
  {
    hide Reduced, Unused;
  }

  function After1(c: Cluster): Cluster { Call(c).cluster }

  /** The pool of the Service's zone can be read and holds one of its addresses in lookup form. */
  lemma LookupSucceeds(c: Cluster, m: Annotations)
    ensures VerifyAddresses(c, m).ok
       <==> Call(c).ok && exists a :: a in AddressList(m) && VerifyForm(a) in PoolOf(c, Get(m, Zone))
  {
    hide AddressList, VerifyForm;
  }

  // ---------------------------------------------------------------- what each hook accepts

  /** A creation is accepted iff there is nothing to do, or the lookups succeed, every address passes and the pool
      addition succeeds; then each address is pooled in the zone. */
  lemma CreateVerdict(svc: Svc, dry: bool, c: Cluster, r: Register)
    ensures var v, list := CheckCreate(svc, dry, c, r), AddressList(svc.annotations);
            && (v.ok <==> dry || svc.kind != LoadBalancer
                          || (CreateReady(svc, c) && CreateProgress(svc, c, r).count == |list|
                              && AddToPool(After2(c), ZoneOf(svc), list).ok))
            && (v.ok && !dry && svc.kind == LoadBalancer ==>
                  && v.reg == CreateProgress(svc, c, r).reg && ZoneOf(svc) in v.cluster.pools
                  && forall a | a in list :: Prefixed(a) in v.cluster.pools[ZoneOf(svc)])
  {
    hide ValidateEach, ReleaseEach, AddressList, SecretValue, HasSecret, AddToPool, IsValidIp, Prefixed, AddForm;
    var list := AddressList(svc.annotations);
    if CheckCreate(svc, dry, c, r).ok && !dry && svc.kind == LoadBalancer {
      ValidatedLeased(list, svc.annotations, svc.id, SecretValue(c, svc.id, svc.annotations), r);
      forall a | a in list ensures Prefixed(a) in PoolOf(AddToPool(After2(c), ZoneOf(svc), list).cluster, ZoneOf(svc)) {
        BareForms(a);
        FormsHave(list, Prefixed(a));
        AdditionExact(After2(c), ZoneOf(svc), list, Prefixed(a));
      }
      AdditionExact(After2(c), ZoneOf(svc), list, "");
    }
  }

  /** The IPAM side of an update accepts iff no address is kept across zones, every new one passes and, if the secret's
      name changes, every kept one is rotated. */
  lemma LeasesVerdict(id: Id, p: Plan, r: Register)
    ensures var v := ValidateEach(p.added, p.after, id, p.newSecret, r);
            UpdateLeases(id, p, r).ok
            <==> (Get(p.before, Zone) == Get(p.after, Zone) || p.kept == []) && v.count == |p.added|
                 && (Get(p.before, SecretName) == Get(p.after, SecretName)
                     || RotateUntil(p.kept, 0, p.after, id, p.oldSecret, p.newSecret, v.reg).count == |p.kept|)
  {
    hide ValidateEach, RotateFrom, RotateUntil, ReleaseEach;
    var v := ValidateEach(p.added, p.after, id, p.newSecret, r);
    RotateSplit(p.kept, 0, p.before, p.after, id, p.oldSecret, p.newSecret, v.reg);
  }

  /** An update is accepted iff there is nothing to do, or the first lookup succeeds and either no IPAM annotation
      changes or the secrets are found and the IPAM side accepts. */
  lemma UpdateAcceptance(prev: Svc, next: Svc, dry: bool, rand: string, c: Cluster, r: Register, p: Plan)
    requires p == PlanFor(prev, next, rand, c)
    ensures CheckUpdate(prev, next, dry, rand, c, r).ok
       <==> dry || (prev.kind != LoadBalancer && next.kind != LoadBalancer)
            || (Call(c).ok && (p.before == p.after || (UpdateReady(next, p, c) && UpdateLeases(next.id, p, r).ok)))
  {
    hide UpdateLeases, PlanFor, UpdatePools, SecretValue, HasSecret;
  }

  /** A deletion is accepted iff there is nothing to do, or the lookups succeed and no address is found in the pool or
      the removal succeeds. What is not found in the pool is no reason to refuse. */
  lemma DeleteVerdict(svc: Svc, dry: bool, c: Cluster, r: Register)
    ensures CheckDelete(svc, dry, c, r).ok
       <==> dry || svc.kind != LoadBalancer
            || (CreateReady(svc, c) && (!VerifyAddresses(After2(c), svc.annotations).ok
                                        || RemoveFromPool(After3(c), ZoneOf(svc), AddressList(svc.annotations)).ok))
  {
    hide ValidateEach, ReleaseEach, AddressList, SecretValue, HasSecret, RemoveFromPool, VerifyForm;
  }

  /** A deletion whose lookups succeed and that finds none of the addresses in the pool, or cannot read it, is accepted,
      leaves the pools alone and, the releases being delivered, drops exactly the Service's memberships. */
  lemma UnpooledDeletion(svc: Svc, c: Cluster, r: Register)
    requires svc.kind == LoadBalancer && CreateReady(svc, c)
    requires !Call(After2(c)).ok || forall a | a in AddressList(svc.annotations) :: VerifyForm(a) !in PoolOf(c, ZoneOf(svc))
    ensures var v := CheckDelete(svc, false, c, r);
            && v.ok && v.cluster.pools == c.pools && v.cluster.services == c.services
            && v.reg == ReleaseEach(AddressList(svc.annotations), svc.annotations, svc.id,
                                    SecretValue(c, svc.id, svc.annotations), r)
  {
    hide ValidateEach, ReleaseEach, AddressList, SecretValue, HasSecret, RemoveFromPool, VerifyForm;
  }

  lemma UnpooledReleases(svc: Svc, c: Cluster, r: Register)
    requires svc.kind == LoadBalancer && CreateReady(svc, c) && Sendable(svc.annotations) && L.Well(svc)
    requires !Call(After2(c)).ok || forall a | a in AddressList(svc.annotations) :: VerifyForm(a) !in PoolOf(c, ZoneOf(svc))
    requires forall a | a in AddressList(svc.annotations) ::
               HeldBy(r.leases, SlotOf(ZoneOf(svc), a), svc.id, SecretValue(c, svc.id, svc.annotations))
    requires CheckDelete(svc, false, c, r).reg.tally.deletesFailed == r.tally.deletesFailed
    ensures CheckDelete(svc, false, c, r).ok
    ensures Dropped(r.leases, CheckDelete(svc, false, c, r).reg.leases, Slots(ZoneOf(svc), AddressList(svc.annotations)), svc.id)
  {
    hide CheckDelete, ReleaseEach, AddressList, SecretValue, HasSecret, VerifyForm, Dropped, IsValidIp, CountWith, Sendable,
         FetchSecret, Call;
    UnpooledDeletion(svc, c, r);
    ReleaseOutcome(AddressList(svc.annotations), svc.annotations, svc.id, SecretValue(c, svc.id, svc.annotations), r);
  }

  // ---------------------------------------------------------------- releases do not wait for one another

  function ReplyAt(r: Register, i: nat): Reply {
    if i < |r.replies| then r.replies[i] else Refused
  }

  /** Every release of a list is sent, whatever becomes of the others, and one that is answered ends the membership. */
  lemma {:induction false} ReleasedEach(addrs: seq<string>, m: Annotations, id: Id, secret: string, r: Register, i: nat)
    requires Sendable(m) && (forall a | a in addrs :: IsValidIp(a)) && Distinct(addrs) && i < |addrs|
    requires HeldBy(r.leases, SlotOf(Get(m, Zone), addrs[i]), id, secret) && ReplyAt(r, i).Done?
    ensures !Member(ReleaseEach(addrs, m, id, secret, r).leases, SlotOf(Get(m, Zone), addrs[i]), id)
  {
    hide Sendable, IsValidIp, Distinct;
    var slot := SlotOf(Get(m, Zone), addrs[i]);
    var first := RemoveAddress(addrs[0], m, id, secret, r).reg;
    if i == 0 {
      Releases(addrs[0], m, id, secret, r);
      NeverEnlisted(addrs[1..], m, id, secret, first, slot);
    } else {
      assert slot != SlotOf(Get(m, Zone), addrs[0]) by { DistinctSlots(addrs, Get(m, Zone), 0, i); }
      RemoveElsewhere(addrs[0], m, id, secret, r, slot);
      OneReply(addrs[0], m, id, secret, r);
      TailDistinct(addrs);
      ReleasedEach(addrs[1..], m, id, secret, first, i - 1);
    }
  }

  lemma TailDistinct(addrs: seq<string>)
    requires Distinct(addrs) && addrs != []
    ensures Distinct(addrs[1..])
  {
  }

  lemma DistinctSlots(addrs: seq<string>, zone: string, i: nat, j: nat)
    requires Distinct(addrs) && i < j < |addrs|
    ensures SlotOf(zone, addrs[j]) != SlotOf(zone, addrs[i])
  {
    if SlotOf(zone, addrs[j]) == SlotOf(zone, addrs[i]) {
      PrefixedInjective(addrs[j], addrs[i]);
    }
  }

  lemma OneReply(a: string, m: Annotations, id: Id, secret: string, r: Register)
    requires Sendable(m) && IsValidIp(a)
    ensures RemoveAddress(a, m, id, secret, r).reg.replies == OtherReplies(r)
    ensures RemoveAddress(a, m, id, secret, r).reg.tally.sent == r.tally.sent + 1
  {
    hide Sendable, IsValidIp;
  }

  lemma {:induction false} NeverEnlisted(addrs: seq<string>, m: Annotations, id: Id, secret: string, r: Register, s: Slot)
    requires !Member(r.leases, s, id)
    ensures !Member(ReleaseEach(addrs, m, id, secret, r).leases, s, id)
  {
    hide Sendable, IsValidIp, RemoveAddress;
    if addrs != [] {
      var first := RemoveAddress(addrs[0], m, id, secret, r).reg;
      RemoveOnly(addrs[0], m, id, secret, r, s);
      NeverEnlisted(addrs[1..], m, id, secret, first, s);
    }
  }

  lemma RemoveOnly(a: string, m: Annotations, id: Id, secret: string, r: Register, s: Slot)
    requires !Member(r.leases, s, id)
    ensures !Member(RemoveAddress(a, m, id, secret, r).reg.leases, s, id)
  {
    hide Sendable, IsValidIp;
    if IsValidIp(a) {
      RewriteValid(id, m, secret, None, a);
    }
  }

  // ---------------------------------------------------------------- a register that answers

  /** The next `n` calls are answered. */
  predicate AllDone(r: Register, n: nat) {
    n <= |r.replies| && forall k | 0 <= k < n :: r.replies[k].Done?
  }

  /** The slot is free or held under the secret. */
  predicate Open(leases: Leases, s: Slot, secret: string) {
    s in leases ==> leases[s].secret == secret
  }

  lemma UpdateAnswered(a: string, m: Annotations, id: Id, secret: string, r: Register)
    requires AllDone(r, 1)
    ensures var call := UpdateAddress(a, m, id, secret, r);
            && (call.address.Some? <==> Sendable(m) && IsValidIp(a) && Open(r.leases, SlotOf(Get(m, Zone), a), secret))
            && (call.address.Some? ==> call.reg.leases == Enlist(r.leases, SlotOf(Get(m, Zone), a), secret, id)
                                       && call.reg.replies == r.replies[1..])
  {
    hide Sendable, IsValidIp, Rewrite, Enlist;
    if IsValidIp(a) {
      RewriteValid(id, m, secret, None, a);
    }
  }

  lemma OpenAfter(leases: Leases, slot: Slot, secret: string, id: Id, s: Slot)
    requires Open(leases, slot, secret)
    ensures Open(Enlist(leases, slot, secret, id), s, secret) <==> Open(leases, s, secret)
  {
  }

  /** Every address of a list passes iff the annotations parse, each is valid and each slot is free or held under the
      caller's secret. */
  lemma {:induction false} ValidationAnswered(addrs: seq<string>, m: Annotations, id: Id, secret: string, r: Register)
    requires AllDone(r, |addrs|)
    ensures var p := ValidateEach(addrs, m, id, secret, r);
            && (p.count == |addrs| <==>
                  addrs == [] || (Sendable(m) && forall a | a in addrs :: IsValidIp(a) && Open(r.leases, SlotOf(Get(m, Zone), a), secret)))
            && (p.count == |addrs| ==> p.reg.replies == r.replies[|addrs|..])
  {
    hide Sendable, IsValidIp, UpdateAddress, Open, Enlist;
    if addrs != [] {
      var zone, first := Get(m, Zone), UpdateAddress(addrs[0], m, id, secret, r);
      UpdateAnswered(addrs[0], m, id, secret, r);
      assert forall a :: a in addrs <==> a == addrs[0] || a in addrs[1..];
      if first.address.Some? {
        ValidationAnswered(addrs[1..], m, id, secret, first.reg);
        forall a ensures Open(first.reg.leases, SlotOf(zone, a), secret) <==> Open(r.leases, SlotOf(zone, a), secret) {
          OpenAfter(r.leases, SlotOf(zone, addrs[0]), secret, id, SlotOf(zone, a));
        }
        assert r.replies[1..][|addrs[1..]|..] == r.replies[|addrs|..];
      }
    }
  }

  lemma RotateAnswered(a: string, m: Annotations, id: Id, oldSecret: string, newSecret: string, r: Register)
    requires AllDone(r, 1)
    ensures var call, slot := RotateSecret(a, m, id, oldSecret, newSecret, r), SlotOf(Get(m, Zone), a);
            && (call.address.Some? <==> Sendable(m) && IsValidIp(a) && HeldUnder(r.leases, slot, oldSecret))
            && (call.address.Some? ==> call.reg.leases == r.leases[slot := r.leases[slot].(secret := newSecret)]
                                       && call.reg.replies == r.replies[1..])
  {
    hide Sendable, IsValidIp, Rewrite;
    if IsValidIp(a) {
      RewriteValid(id, m, oldSecret, Some(newSecret), a);
    }
  }

  /** Every address of a list without repetition is rotated iff the annotations parse, each is valid and each is held
      under the old secret. */
  lemma {:induction false} KeptAnswered(keep: seq<string>, index: nat, m: Annotations, id: Id, oldSecret: string,
                                             newSecret: string, r: Register)
    requires index <= |keep| && AllDone(r, |keep| - index) && Distinct(keep)
    ensures RotateUntil(keep, index, m, id, oldSecret, newSecret, r).count == |keep|
       <==> index == |keep|
            || (Sendable(m) && forall a | a in keep[index..] ::
                  IsValidIp(a) && HeldUnder(r.leases, SlotOf(Get(m, Zone), a), oldSecret))
    decreases |keep| - index
  {
    hide Sendable, IsValidIp, RotateSecret, Distinct;
    if index < |keep| {
      var zone, call := Get(m, Zone), RotateSecret(keep[index], m, id, oldSecret, newSecret, r);
      RotateAnswered(keep[index], m, id, oldSecret, newSecret, r);
      assert forall a :: a in keep[index..] <==> a == keep[index] || a in keep[index + 1..];
      if call.address.Some? {
        KeptAnswered(keep, index + 1, m, id, oldSecret, newSecret, call.reg);
        forall a | a in keep[index + 1..]
          ensures HeldUnder(call.reg.leases, SlotOf(zone, a), oldSecret) <==> HeldUnder(r.leases, SlotOf(zone, a), oldSecret)
        {
          var k :| index < k < |keep| && keep[k] == a;
          DistinctSlots(keep, zone, index, k);
        }
      }
    }
  }

  // ---------------------------------------------------------------- leasing

  predicate AsksFour(m: Annotations) {
    '.' !in Get(m, Addresses) && (Get(m, IpFamily) == "ipv4" || Get(m, IpFamily) == "dual")
  }

  predicate AsksSix(m: Annotations) {
    ':' !in Get(m, Addresses) && (Get(m, IpFamily) == "ipv6" || Get(m, IpFamily) == "dual")
  }

  function AskCount(m: Annotations): nat {
    (if AsksFour(m) then 1 else 0) + (if AsksSix(m) then 1 else 0)
  }

  /** The `k`-th answer hands out a free address of the family. */
  predicate HandsOut(m: Annotations, r: Register, k: nat, family: string)
    requires AllDone(r, k + 1)
  {
    Offers(r.replies[k].pick, family) && Slot(Get(m, Zone), RequestForm(r.replies[k].pick)) !in r.leases
  }

  /** The answers hand out a free address for every family that is asked for. */
  predicate Served(m: Annotations, r: Register)
    requires AllDone(r, AskCount(m))
  {
    && (AsksFour(m) ==> HandsOut(m, r, 0, "ipv4"))
    && (AsksSix(m) ==> HandsOut(m, r, if AsksFour(m) then 1 else 0, "ipv6"))
  }

  lemma GetAnswered(family: string, m: Annotations, id: Id, secret: string, r: Register)
    requires AllDone(r, 1)
    ensures var answer := GetAddress(family, m, id, secret, r);
            && (answer.address.Some? <==> Sendable(m) && HandsOut(m, r, 0, family))
            && (answer.address.Some? ==>
                  answer.address == Some(r.replies[0].pick) && answer.reg.replies == r.replies[1..]
                  && answer.reg.leases == r.leases[Slot(Get(m, Zone), RequestForm(r.replies[0].pick)) := Lease(secret, {id})])
  {
    hide Sendable, Offers, RequestForm;
    var q := Request(id, secret, None, Get(m, Zone), family, "");
    assert Rewrite(q) == q;
  }

  /** Two offers of different families are different slots. */
  lemma OffersDiffer(t4: string, t6: string)
    requires Offers(t4, "ipv4") && Offers(t6, "ipv6")
    ensures RequestForm(t4) != RequestForm(t6)
  {
    hide RequestForm, Prefixed, IsIPv4, IsIPv6;
    var a, b := BeforeSlash(t4), BeforeSlash(t6);
    RequestFormOfPrefixed(a);
    RequestFormOfPrefixed(b);
    NormalisersAgree(a);
    NormalisersAgree(b);
    ValidText(a);
    ValidText(b);
    if Prefixed(a) == Prefixed(b) {
      PrefixedInjective(a, b);
    }
  }

  lemma SameZone(m: Annotations, t: string)
    ensures Get(WithAddress(m, t), Zone) == Get(m, Zone) && Sendable(WithAddress(m, t)) == Sendable(m)
    ensures Get(WithAddress(m, t), IpFamily) == Get(m, IpFamily)
  {
    hide BeforeSlash, ParsesInt, ParsesBool;
  }

  lemma FourBare(t: string)
    requires Offers(t, "ipv4")
    ensures ':' !in BeforeSlash(t)
  {
    hide BeforeSlash, Prefixed;
  }

  /** Leasing succeeds iff the annotations parse, or nothing is asked for, and every family asked for is served. */
  lemma LeasingAnswered(m: Annotations, id: Id, secret: string, r: Register)
    requires Reconcilable(m) && AllDone(r, AskCount(m))
    ensures LeaseMissing(m, id, secret, r).ok <==> (AskCount(m) == 0 || Sendable(m)) && Served(m, r)
    ensures LeaseMissing(m, id, secret, r).ok ==> LeaseMissing(m, id, secret, r).reg.replies == r.replies[AskCount(m)..]
  {
    hide GetAddress, RemoveAddress, WithAddress, Sendable, HandsOut, ValidList, AddressList, DropSpaces, BeforeSlash;
    var four := LeaseFour(m, id, secret, r);
    if AsksFour(m) {
      GetAnswered(IPV4_FAMILY, m, id, secret, r);
      if four.ok {
        var t := r.replies[0].pick;
        assert Offers(t, "ipv4") by { Offered(m, r, 0, "ipv4"); }
        FourBare(t);
        M.PrependedChar(m, t, ':');
        SameZone(m, t);
        if AsksSix(m) {
          assert AllDone(four.reg, 1);
          GetAnswered(IPV6_FAMILY, four.annotations, id, secret, four.reg);
          SecondHandsOut(m, four.annotations, r, four.reg, secret, id);
          assert r.replies[1..][1..] == r.replies[2..];
        }
      }
    } else if AsksSix(m) {
      GetAnswered(IPV6_FAMILY, m, id, secret, r);
    }
  }

  lemma Offered(m: Annotations, r: Register, k: nat, family: string)
    requires AllDone(r, k + 1) && HandsOut(m, r, k, family)
    ensures Offers(r.replies[k].pick, family)
  {
    hide Offers, RequestForm;
  }

  /** The first grant does not take the slot of the second answer. */
  lemma SecondHandsOut(m: Annotations, m4: Annotations, r: Register, r4: Register, secret: string, id: Id)
    requires AllDone(r, 2) && r4.replies == r.replies[1..] && Get(m4, Zone) == Get(m, Zone)
    requires Offers(r.replies[0].pick, "ipv4")
    requires r4.leases == r.leases[Slot(Get(m, Zone), RequestForm(r.replies[0].pick)) := Lease(secret, {id})]
    ensures HandsOut(m4, r4, 0, "ipv6") <==> HandsOut(m, r, 1, "ipv6")
  {
    hide Offers, RequestForm;
    if Offers(r.replies[1].pick, "ipv6") {
      OffersDiffer(r.replies[0].pick, r.replies[1].pick);
    }
  }

  // ---------------------------------------------------------------- whole admissions that are answered

  /** With a cluster that answers, the mutating hook accepts iff the completed annotations reconcile, their secret exists
      and the leasing succeeds. */
  lemma MutateUp(svc: Svc, create: bool, rand: string, c: Cluster, r: Register)
    requires M.Mutates(svc, false) && Up(c, 2) && !(create && Exists(c.services, svc.id))
    ensures var m, full, l := Mutate(svc, create, false, rand, c, r), WithDefaults(svc.annotations, rand), M.LeasingOf(svc, rand, c, r);
            && (m.ok <==> Reconcilable(full) && HasSecret(c, svc.id, full) && l.ok)
            && (m.ok ==> m.cluster == Later(c, 2) && m.reg == l.reg && m.svc.id == svc.id && m.svc.kind == LoadBalancer)
  {
    hide LeaseMissing, WithDefaults, Reconcilable, SecretValue, HasSecret, Exists, FetchSecret, Call;
    var full := WithDefaults(svc.annotations, rand);
    CallUp(c);
    LaterTwice(c, 1, 1);
    SameSecrets(c, Later(c, 1), svc.id, full);
    FetchIff(Later(c, 1), svc.id, full);
  }

  lemma FetchIff(c: Cluster, id: Id, m: Annotations)
    requires Up(c, 1)
    ensures FetchSecret(c, id, m) == Pools.Answer(HasSecret(c, id, m), Later(c, 1))
  {
    CallUp(c);
  }

  /** The addresses of the user are free or held under the Service's secret. */
  predicate UserOpen(full: Annotations, c: Cluster, id: Id, leases: Leases) {
    forall a | a in M.UserList(full) :: Open(leases, SlotOf(Get(full, Zone), a), SecretValue(c, id, full))
  }

  /** After a mutation every listed address is open iff the user's were before. */
  lemma FreshOpen(svc: Svc, create: bool, rand: string, c: Cluster, r: Register, m: Mutated)
    requires M.Mutates(svc, false) && m == Mutate(svc, create, false, rand, c, r) && m.ok
    ensures var full, secret := WithDefaults(svc.annotations, rand), SecretValue(m.cluster, m.svc.id, m.svc.annotations);
            && (forall a | a in AddressList(m.svc.annotations) :: IsValidIp(a))
            && Sendable(m.svc.annotations) == Sendable(full) && HasSecret(m.cluster, svc.id, m.svc.annotations)
            && ((forall a | a in AddressList(m.svc.annotations) :: Open(m.reg.leases, SlotOf(ZoneOf(m.svc), a), secret))
                <==> UserOpen(full, c, svc.id, r.leases))
  {
    hide Mutate, LeaseMissing, M.LeasingOf, M.Added, AddressList, WithDefaults, M.AllFree, M.Granted, IsValidIp, CountWith,
         Sendable, SecretValue, HasSecret, Distinct, M.UserList, Open;
    var full, added := WithDefaults(svc.annotations, rand), FreshOf(svc, rand, c, r);
    var zone, secret := ZoneOf(m.svc), SecretValue(m.cluster, m.svc.id, m.svc.annotations);
    var list, user := AddressList(m.svc.annotations), M.UserList(full);
    M.MutateShape(svc, create, rand, c, r);
    SameSecret(svc, create, rand, c, r);
    FreshFacts(svc, create, rand, c, r);
    M.ValidListShape(list);
    GrantedSlots(r.leases, zone, added, secret, svc.id);
    assert forall a :: a in list <==> a in added || a in user;
    forall a | a in user ensures Open(m.reg.leases, SlotOf(zone, a), secret) <==> Open(r.leases, SlotOf(zone, a), secret) {
      UserNotFresh(added, user, list, a);
      SlotsHas(zone, added, a);
      OpenSame(r.leases, m.reg.leases, SlotOf(zone, a), secret);
    }
    forall a | a in added ensures Open(m.reg.leases, SlotOf(zone, a), secret) {
      SlotsHas(zone, added, a);
      GrantedOpen(r.leases, m.reg.leases, Slots(zone, added), secret, svc.id, SlotOf(zone, a));
    }
    SecretThere(svc, create, rand, c, r, m);
  }

  lemma UserNotFresh(added: seq<string>, user: seq<string>, list: seq<string>, a: string)
    requires list == added + user && Distinct(list) && a in user
    ensures a !in added
  {
    if i :| 0 <= i < |added| && added[i] == a {
      var j :| 0 <= j < |user| && user[j] == a;
      assert list[i] == list[|added| + j];
    }
  }

  lemma OpenSame(l1: Leases, l2: Leases, s: Slot, secret: string)
    requires SameAt(l1, l2, s)
    ensures Open(l1, s, secret) <==> Open(l2, s, secret)
  {
  }

  lemma GrantedOpen(l0: Leases, l1: Leases, S: set<Slot>, secret: string, id: Id, s: Slot)
    requires GrantedTo(l0, l1, S, secret, id) && s in S
    ensures Open(l1, s, secret)
  {
  }

  lemma SecretThere(svc: Svc, create: bool, rand: string, c: Cluster, r: Register, m: Mutated)
    requires M.Mutates(svc, false) && m == Mutate(svc, create, false, rand, c, r) && m.ok
    ensures HasSecret(m.cluster, svc.id, m.svc.annotations)
  {
    var full := WithDefaults(svc.annotations, rand);
    assert HasSecret(c, svc.id, full) && m.cluster.secrets == c.secrets by {
      hide LeaseMissing, WithDefaults, Reconcilable, Exists;
    }
    hide Mutate, WithDefaults, LeaseMissing, M.LeasingOf, M.ExtendsLeases, M.Shaped, ParsesInt, ParsesBool;
    M.MutateShape(svc, create, rand, c, r);
    M.RestGet(full, m.svc.annotations, SecretName);
  }

  /** What an object has to be like to be let through where every call is answered. */
  predicate Admissible(svc: Svc, rand: string, c: Cluster, r: Register)
    requires AllDone(r, 2)
  {
    var full := WithDefaults(svc.annotations, rand);
    Reconcilable(full) && HasSecret(c, svc.id, full) && Sendable(full) && Served(full, r) && UserOpen(full, c, svc.id, r.leases)
  }

  /** The creation of a load balancer under a free name, every call being answered, commits iff its completed annotations
      reconcile and parse, its secret exists, the API serves the families asked for and the user's addresses are free or
      held under the secret. What is committed is leased and pooled. */
  lemma CreationCommits(w: World, obj: Svc, rand: string)
    requires obj.kind == LoadBalancer && IndexOf(w.c.services, obj.id) == |w.c.services| && Up(w.c, 6) && AllDone(w.r, 4)
    ensures var after := Step(w, CreateOp(obj, false, rand));
            if Admissible(Submitted(obj, false), rand, w.c, w.r) then
              var svc := Mutate(Submitted(obj, false), true, false, rand, w.c, w.r).svc;
              && after.c.services == w.c.services + [svc] && svc.id == obj.id && svc.kind == LoadBalancer
              && L.Covered(svc, after.r.leases) && ZoneOf(svc) in after.c.pools
              && forall a | a in AddressList(svc.annotations) :: Prefixed(a) in after.c.pools[ZoneOf(svc)]
            else after.c.services == w.c.services
  {
    hide Mutate, CheckCreate, LeaseMissing, WithDefaults, Reconcilable, HasSecret, SecretValue, Sendable, Served, UserOpen, L.Covered,
         AddressList, Prefixed;
    var svc := Submitted(obj, false);
    var m := Mutate(svc, true, false, rand, w.c, w.r);
    NameFree(w.c.services, obj.id);
    MutateServices(svc, true, false, rand, w.c, w.r);
    AnsweredMutation(svc, true, rand, w.c, w.r);
    if m.ok {
      var v := CheckCreate(m.svc, false, m.cluster, m.reg);
      CreateServices(m.svc, false, m.cluster, m.reg);
      LaterTwice(w.c, 2, 4);
      AnsweredCreate(svc, rand, w.c, w.r, m);
      CreateVerdict(m.svc, false, m.cluster, m.reg);
      L.CreateLeases(m.svc, false, m.cluster, m.reg);
    }
  }

  lemma NameFree(services: seq<Svc>, id: Id)
    requires IndexOf(services, id) == |services|
    ensures !Exists(services, id)
  {
    forall k | 0 <= k < |services| ensures services[k].id != id {
    }
  }

  /** The mutating hook where the register answers, in the terms of the completed annotations. */
  lemma AnsweredMutation(svc: Svc, create: bool, rand: string, c: Cluster, r: Register)
    requires M.Mutates(svc, false) && Up(c, 2) && !(create && Exists(c.services, svc.id)) && AllDone(r, 4)
    ensures var m, full := Mutate(svc, create, false, rand, c, r), WithDefaults(svc.annotations, rand);
            && (m.ok <==> Reconcilable(full) && HasSecret(c, svc.id, full) && (AskCount(full) == 0 || Sendable(full)) && Served(full, r))
            && (m.ok ==> m.cluster == Later(c, 2) && m.svc.id == svc.id && m.svc.kind == LoadBalancer && AllDone(m.reg, 2))
  {
    hide Mutate, LeaseMissing, WithDefaults, Reconcilable, HasSecret, SecretValue, Sendable, Served;
    var full := WithDefaults(svc.annotations, rand);
    MutateUp(svc, create, rand, c, r);
    if Reconcilable(full) {
      LeasingAnswered(full, svc.id, SecretValue(c, svc.id, full), r);
    }
  }

  /** The validating hook on a creation where everything answers. */
  lemma AnsweredCreate(svc: Svc, rand: string, c: Cluster, r: Register, m: Mutated)
    requires M.Mutates(svc, false) && m == Mutate(svc, true, false, rand, c, r) && m.ok
    requires AllDone(m.reg, 2) && Up(m.cluster, 4)
    ensures var full := WithDefaults(svc.annotations, rand);
            CheckCreate(m.svc, false, m.cluster, m.reg).ok <==> Sendable(full) && UserOpen(full, c, svc.id, r.leases)
  {
    hide Mutate, CheckCreate, WithDefaults, HasSecret, SecretValue, Sendable, UserOpen, AddressList, AddToPool, FetchSecret, Call,
         Open, IsValidIp, CountWith, ValidateEach, M.LeasingOf, M.Extends;
    var list := AddressList(m.svc.annotations);
    M.MutateShape(svc, true, rand, c, r);
    M.ValidListShape(list);
    FreshOpen(svc, true, rand, c, r, m);
    CreateVerdict(m.svc, false, m.cluster, m.reg);
    ValidationAnswered(list, m.svc.annotations, m.svc.id, SecretValue(m.cluster, m.svc.id, m.svc.annotations), m.reg);
    LookupsUp(m.svc, m.cluster);
    AdditionSucceeds(After2(m.cluster), ZoneOf(m.svc), list);
  }

  lemma LookupsUp(svc: Svc, c: Cluster)
    requires Up(c, 4)
    ensures CreateReady(svc, c) <==> HasSecret(c, svc.id, svc.annotations)
    ensures Call(After2(c)).ok && Call(Call(After2(c)).cluster).ok
  {
    hide HasSecret, FetchSecret, Call;
    CallUp(c);
    LaterTwice(c, 1, 1);
    LaterTwice(c, 2, 1);
    LaterTwice(c, 3, 1);
    SameSecrets(c, Later(c, 1), svc.id, svc.annotations);
    FetchIff(Later(c, 1), svc.id, svc.annotations);
    CallUp(Later(c, 1));
    CallUp(Later(c, 2));
    CallUp(Later(c, 3));
  }

  // ---------------------------------------------------------------- answered updates

  /** What the validating hook asks of an update where every call is answered, `r` being the register it is called with. */
  predicate PlanAdmissible(p: Plan, id: Id, c: Cluster, r: Register) {
    p.before == p.after ||
    (&& HasSecret(c, id, p.before) && HasSecret(c, id, p.after)
     && (Get(p.before, Zone) == Get(p.after, Zone) || p.kept == [])
     && (p.added == [] || (Sendable(p.after) && forall a | a in p.added ::
                             IsValidIp(a) && Open(r.leases, SlotOf(Get(p.after, Zone), a), p.newSecret)))
     && (Get(p.before, SecretName) == Get(p.after, SecretName) || p.kept == []
         || (Sendable(p.after) && forall a | a in p.kept ::
               IsValidIp(a) && HeldUnder(r.leases, SlotOf(Get(p.after, Zone), a), p.oldSecret))))
  }

  /** The IPAM side of an update where every call is answered. */
  lemma LeasesAnswered(id: Id, p: Plan, r: Register)
    requires AllDone(r, |p.added| + |p.kept|) && Distinct(p.kept) && forall a | a in p.kept :: a !in p.added
    ensures UpdateLeases(id, p, r).ok
       <==> (Get(p.before, Zone) == Get(p.after, Zone) || p.kept == [])
            && (p.added == [] || (Sendable(p.after) && forall a | a in p.added ::
                                    IsValidIp(a) && Open(r.leases, SlotOf(Get(p.after, Zone), a), p.newSecret)))
            && (Get(p.before, SecretName) == Get(p.after, SecretName) || p.kept == []
                || (Sendable(p.after) && forall a | a in p.kept ::
                      IsValidIp(a) && HeldUnder(r.leases, SlotOf(Get(p.after, Zone), a), p.oldSecret)))
  {
    hide UpdateLeases, ValidateEach, RotateUntil, Sendable, IsValidIp, Open, Distinct;
    var zone, v := Get(p.after, Zone), ValidateEach(p.added, p.after, id, p.newSecret, r);
    LeasesVerdict(id, p, r);
    ValidationAnswered(p.added, p.after, id, p.newSecret, r);
    if v.count == |p.added| {
      KeptAnswered(p.kept, 0, p.after, id, p.oldSecret, p.newSecret, v.reg);
      assert p.kept[0..] == p.kept;
      forall a | a in p.kept
        ensures HeldUnder(v.reg.leases, SlotOf(zone, a), p.oldSecret) <==> HeldUnder(r.leases, SlotOf(zone, a), p.oldSecret)
      {
        KeptUntouched(p, id, r, a);
      }
    }
  }

  /** Validating the new addresses does not touch a kept one. */
  lemma KeptUntouched(p: Plan, id: Id, r: Register, a: string)
    requires ValidateEach(p.added, p.after, id, p.newSecret, r).count == |p.added| && a !in p.added
    ensures SameAt(r.leases, ValidateEach(p.added, p.after, id, p.newSecret, r).reg.leases, SlotOf(Get(p.after, Zone), a))
  {
    hide ValidateEach, IsValidIp, Sendable;
    ValidateOutcome(p.added, p.after, id, p.newSecret, r);
    assert p.added[..|p.added|] == p.added;
    SlotsHas(Get(p.after, Zone), p.added, a);
  }

  /** The validating hook on an update to a load balancer where every call is answered. */
  lemma AnsweredUpdate(prev: Svc, next: Svc, rand: string, c: Cluster, r: Register, p: Plan)
    requires p == PlanFor(prev, next, rand, c) && next.kind == LoadBalancer && L.Well(next) && Up(c, 3) && AllDone(r, 4)
    ensures CheckUpdate(prev, next, false, rand, c, r).ok <==> PlanAdmissible(p, next.id, c, r)
  {
    hide CheckUpdate, PlanFor, UpdateLeases, HasSecret, SecretValue, FetchSecret, Call, IsValidIp, Sendable, Open, AddressList,
         Distinct, HeldUnder, Without, Within, CountWith;
    UpdateAcceptance(prev, next, false, rand, c, r, p);
    PlanBasics(prev, next, rand, c);
    PlanShape(prev, next, rand, c);
    LeasesAnswered(next.id, p, r);
    CallUp(c);
    SecretsUp(next, p, c);
  }

  lemma SecretsUp(next: Svc, p: Plan, c: Cluster)
    requires Up(c, 3)
    ensures UpdateReady(next, p, c) <==> HasSecret(c, next.id, p.before) && HasSecret(c, next.id, p.after)
  {
    hide HasSecret, FetchSecret, Call;
    CallUp(c);
    LaterTwice(c, 1, 1);
    LaterTwice(c, 2, 1);
    SameSecrets(c, Later(c, 1), next.id, p.before);
    SameSecrets(c, Later(c, 2), next.id, p.after);
    FetchIff(Later(c, 1), next.id, p.before);
    FetchIff(Later(c, 2), next.id, p.after);
  }

  /** An update to a load balancer, every call being answered, commits iff the mutating hook lets it through, the secrets
      of both sides exist, no address is kept across zones, the new addresses are free or held under the new secret and,
      if the secret's name changes, the kept ones are held under the old one. */
  lemma UpdateCommitsIff(w: World, i: nat, obj: Svc, rand: string, rand2: string)
    requires i == IndexOf(w.c.services, obj.id) < |w.c.services| && Up(w.c, 5) && AllDone(w.r, 6)
    requires M.Mutates(Submitted(obj, w.c.services[i].ingress), false)
    ensures var svc, full := Submitted(obj, w.c.services[i].ingress), WithDefaults(obj.annotations, rand);
            var m := Mutate(svc, false, false, rand, w.c, w.r);
            UpdateCommits(w, i, obj, false, rand, rand2)
            <==> Reconcilable(full) && HasSecret(w.c, obj.id, full) && (AskCount(full) == 0 || Sendable(full)) && Served(full, w.r)
                 && PlanAdmissible(PlanFor(w.c.services[i], m.svc, rand2, m.cluster), obj.id, m.cluster, m.reg)
  {
    hide Mutate, CheckUpdate, PlanFor, WithDefaults, Reconcilable, HasSecret, Sendable, Served, PlanAdmissible, L.Well;
    var svc := Submitted(obj, w.c.services[i].ingress);
    var m := Mutate(svc, false, false, rand, w.c, w.r);
    AnsweredMutation(svc, false, rand, w.c, w.r);
    RepliesLeft(svc, rand, w.c, w.r);
    if m.ok {
      LaterTwice(w.c, 2, 3);
      L.MutatedWell(svc, false, rand, w.c, w.r);
      AnsweredUpdate(w.c.services[i], m.svc, rand2, m.cluster, m.reg, PlanFor(w.c.services[i], m.svc, rand2, m.cluster));
    }
  }

  lemma RepliesLeft(svc: Svc, rand: string, c: Cluster, r: Register)
    requires M.Mutates(svc, false) && Up(c, 2) && AllDone(r, 6)
    ensures Mutate(svc, false, false, rand, c, r).ok ==> AllDone(Mutate(svc, false, false, rand, c, r).reg, 4)
  {
    hide Mutate, LeaseMissing, WithDefaults, Reconcilable, HasSecret, SecretValue, Sendable, Served;
    var full := WithDefaults(svc.annotations, rand);
    MutateUp(svc, false, rand, c, r);
    if Reconcilable(full) {
      LeasingAnswered(full, svc.id, SecretValue(c, svc.id, full), r);
    }
  }

  /** The plan of an update that makes a load balancer of a Service without addresses: everything listed is new. */
  lemma FirstPlan(prev: Svc, next: Svc, rand: string, c: Cluster)
    requires prev.kind != LoadBalancer && Get(prev.annotations, Addresses) == "" && next.kind == LoadBalancer && L.Well(next)
    ensures var p := PlanFor(prev, next, rand, c);
            && p.before != p.after && p.kept == [] && p.added == AddressList(next.annotations) && p.removed == [""]
            && p.newSecret == SecretValue(c, next.id, next.annotations) && Get(p.after, Zone) == ZoneOf(next)
            && HasSecret(c, next.id, p.after) == HasSecret(c, next.id, next.annotations)
            && HasSecret(c, next.id, p.before) == HasSecret(c, next.id, WithDefaults(prev.annotations, rand))
            && Sendable(p.after) == Sendable(next.annotations)
  {
    hide PlanFor, AddressList, Without, Within, IsValidIp, CountWith, WithDefaults, IpamPart, HasSecret, SecretValue, Sendable;
    var p, list := PlanFor(prev, next, rand, c), AddressList(next.annotations);
    L.PlanUpgrade(prev, next, rand, c);
    L.NoEmptyAddress(next);
    PlanBasics(prev, next, rand, c);
    WithoutNone(list, [""]);
    WithinNone(list, [""]);
    WithoutNone([""], list);
    if p.before == p.after {
      L.UnchangedAnnotations(prev, next, rand, c);
      assert false;
    }
    PlanParts(prev, next, rand, c);
  }

  lemma PlanParts(prev: Svc, next: Svc, rand: string, c: Cluster)
    requires prev.kind != LoadBalancer
    ensures var p := PlanFor(prev, next, rand, c);
            && HasSecret(c, next.id, p.after) == HasSecret(c, next.id, next.annotations)
            && HasSecret(c, next.id, p.before) == HasSecret(c, next.id, WithDefaults(prev.annotations, rand))
  {
    hide AddressList, Without, Within, IpamPart, WithDefaults;
    L.IpamGet(WithDefaults(prev.annotations, rand), SecretName);
    L.IpamGet(next.annotations, SecretName);
  }

  /** The update that makes a load balancer of a Service without addresses, every call being answered, commits iff the
      object is admissible and the stored Service's secret exists, which for a Service that names none is the default one.
      What is committed is leased and pooled. */
  lemma UpgradeCommits(w: World, i: nat, obj: Svc, rand: string, rand2: string)
    requires i == IndexOf(w.c.services, obj.id) < |w.c.services| && Up(w.c, 7) && AllDone(w.r, 6)
    requires w.c.services[i].kind != LoadBalancer && Get(w.c.services[i].annotations, Addresses) == ""
    requires obj.kind == LoadBalancer || w.c.services[i].ingress
    ensures var prev, after := w.c.services[i], Step(w, UpdateOp(obj, false, rand, rand2));
            if Admissible(Submitted(obj, prev.ingress), rand, w.c, w.r) && HasSecret(w.c, obj.id, WithDefaults(prev.annotations, rand2))
            then
              var svc := Mutate(Submitted(obj, prev.ingress), false, false, rand, w.c, w.r).svc;
              && after.c.services == w.c.services[i := svc] && svc.kind == LoadBalancer && svc.id == obj.id
              && L.Covered(svc, after.r.leases)
              && forall a | a in AddressList(svc.annotations) :: Prefixed(a) in PoolOf(after.c, ZoneOf(svc))
            else after.c.services == w.c.services
  {
    hide Mutate, CheckUpdate, PlanFor, WithDefaults, Reconcilable, HasSecret, SecretValue, Sendable, Served, UserOpen, L.Covered,
         AddressList, Prefixed, L.Well, PlanAdmissible, PoolOf, UpdateLeases;
    var prev, svc := w.c.services[i], Submitted(obj, w.c.services[i].ingress);
    var m := Mutate(svc, false, false, rand, w.c, w.r);
    var v := CheckUpdate(prev, m.svc, false, rand2, m.cluster, m.reg);
    MutateServices(svc, false, false, rand, w.c, w.r);
    UpdateServices(prev, m.svc, false, rand2, m.cluster, m.reg);
    UpdateCommitsIff(w, i, obj, rand, rand2);
    AnsweredMutation(svc, false, rand, w.c, w.r);
    if m.ok {
      L.MutatedWell(svc, false, rand, w.c, w.r);
      FirstAdmissible(prev, svc, rand, rand2, w.c, w.r, m);
      if v.ok {
        LaterTwice(w.c, 2, 5);
        LeasedAndPooled(prev, m.svc, rand2, m.cluster, m.reg);
        X.SamePoolOfs(v.cluster, Step(w, UpdateOp(obj, false, rand, rand2)).c);
      }
    }
  }

  /** For such an update the plan is admissible iff the annotations parse, the user's addresses are open and the stored
      Service's secret exists. */
  lemma FirstAdmissible(prev: Svc, svc: Svc, rand: string, rand2: string, c: Cluster, r: Register, m: Mutated)
    requires prev.kind != LoadBalancer && Get(prev.annotations, Addresses) == ""
    requires M.Mutates(svc, false) && m == Mutate(svc, false, false, rand, c, r) && m.ok && L.Well(m.svc)
    requires m.svc.kind == LoadBalancer && m.cluster.secrets == c.secrets && m.svc.id == svc.id
    ensures var full := WithDefaults(svc.annotations, rand);
            PlanAdmissible(PlanFor(prev, m.svc, rand2, m.cluster), svc.id, m.cluster, m.reg)
            <==> Sendable(full) && UserOpen(full, c, svc.id, r.leases)
                 && HasSecret(c, svc.id, WithDefaults(prev.annotations, rand2))
  {
    hide Mutate, PlanFor, WithDefaults, HasSecret, SecretValue, Sendable, UserOpen, AddressList, IsValidIp, Open, L.Well;
    FirstPlan(prev, m.svc, rand2, m.cluster);
    FreshOpen(svc, false, rand, c, r, m);
    SameSecrets(c, m.cluster, svc.id, WithDefaults(prev.annotations, rand2));
  }

  /** An accepted upgrade of a Service without addresses, its pool addition succeeding, is leased and pooled. */
  lemma LeasedAndPooled(prev: Svc, next: Svc, rand: string, c: Cluster, r: Register)
    requires prev.kind != LoadBalancer && Get(prev.annotations, Addresses) == "" && next.kind == LoadBalancer && L.Well(next)
    requires prev.id == next.id && CheckUpdate(prev, next, false, rand, c, r).ok && Up(c, 5)
    ensures L.Covered(next, CheckUpdate(prev, next, false, rand, c, r).reg.leases)
    ensures forall a | a in AddressList(next.annotations) ::
              Prefixed(a) in PoolOf(CheckUpdate(prev, next, false, rand, c, r).cluster, ZoneOf(next))
  {
    hide CheckUpdate, PlanFor, UpdateLeases, UpdatePools, AddressList, Prefixed, L.Well, PoolOf, HasSecret, SecretValue, Sendable,
         WithDefaults, IsValidIp, Orphaned, AddForms, AddToPool;
    var v, p := CheckUpdate(prev, next, false, rand, c, r), PlanFor(prev, next, rand, c);
    NotCovered(prev, r.leases);
    PrevWell(prev);
    L.UpdateAccepted(prev, next, rand, c, r);
    FirstPlan(prev, next, rand, c);
    UpdatePoolsVerdict(prev, next, false, rand, c, r);
    assert v.cluster == UpdatePools(p, After3(c));
    FiveUp(c, ZoneOf(next), p.added);
    forall a | a in AddressList(next.annotations) ensures Prefixed(a) in PoolOf(v.cluster, ZoneOf(next)) {
      ListedForms(next, a);
      GrownStays(p, After3(c), next, a);
    }
  }

  lemma NotCovered(prev: Svc, leases: Leases)
    requires prev.kind != LoadBalancer
    ensures L.Covered(prev, leases)
  {
  }

  lemma PrevWell(prev: Svc)
    requires prev.kind != LoadBalancer
    ensures L.Well(prev)
  {
  }

  lemma FiveUp(c: Cluster, zone: string, addrs: seq<string>)
    requires Up(c, 5)
    ensures AddToPool(After3(c), zone, addrs).ok
  {
    hide Call;
    CallUp(c);
    LaterTwice(c, 1, 1);
    LaterTwice(c, 2, 1);
    LaterTwice(c, 3, 1);
    LaterTwice(c, 4, 1);
    CallUp(Later(c, 1));
    CallUp(Later(c, 2));
    CallUp(Later(c, 3));
    CallUp(Later(c, 4));
    AdditionSucceeds(After3(c), zone, addrs);
  }

  /** What an update adds stays, if the only text it removes is the empty one. */
  lemma GrownStays(p: Plan, c: Cluster, next: Svc, a: string)
    requires p.removed == [""] && a in p.added && AddForm(a) == Prefixed(a) && AddToPool(c, Get(p.after, Zone), p.added).ok
    ensures Prefixed(a) in PoolOf(UpdatePools(p, c), Get(p.after, Zone))
  {
    hide AddToPool, RemoveFromPool, VerifyPool, Prefixed, AddForm, AddForms, Mentions, PoolOf, Subsequence, Distinct;
    var oz, nz := Get(p.before, Zone), Get(p.after, Zone);
    var grown := AddToPool(c, nz, p.added).cluster;
    FormsHave(p.added, Prefixed(a));
    AdditionExact(c, nz, p.added, Prefixed(a));
    EmptyForm(a);
    assert !Orphaned(Prefixed(a), p.removed, c.services);
    PoolServices(c, nz, p.added);
    PoolServices(grown, oz, p.removed);
    PoolFaults(grown, oz, p.removed);
    var found := VerifyPool(grown, oz);
    X.SamePoolOfs(grown, found.cluster);
    if found.ok {
      if RemoveFromPool(found.cluster, oz, p.removed).ok {
        RemovalExact(found.cluster, oz, p.removed, Prefixed(a));
      } else {
        RemovalFails(found.cluster, oz, p.removed);
        X.SamePoolOfs(found.cluster, RemoveFromPool(found.cluster, oz, p.removed).cluster);
      }
    }
  }

  // ---------------------------------------------------------------- answered deletions

  /** The deletion of a load balancer, the cluster answering, commits iff its secret exists, whether it is pooled or not. */
  lemma DeletionCommits(w: World, i: nat)
    requires i < |w.c.services| && w.c.services[i].kind == LoadBalancer && Up(w.c, 6)
    ensures DeleteStep(w, i, false).c.services
         == if HasSecret(w.c, w.c.services[i].id, w.c.services[i].annotations)
            then w.c.services[..i] + w.c.services[i + 1..] else w.c.services
  {
    hide CheckDelete, HasSecret, FetchSecret, Call, AddressList, VerifyForm, RemoveFromPool;
    var svc := w.c.services[i];
    DeleteServices(svc, false, w.c, w.r);
    DeleteVerdict(svc, false, w.c, w.r);
    LookupsUp(svc, w.c);
    SixUp(w.c, ZoneOf(svc), AddressList(svc.annotations));
    LookupSucceeds(After2(w.c), svc.annotations);
    SameAfter(w.c);
  }

  lemma SameAfter(c: Cluster)
    ensures After2(c).pools == c.pools && After3(c).pools == c.pools
  {
  }

  lemma SixUp(c: Cluster, zone: string, addrs: seq<string>)
    requires Up(c, 6)
    ensures zone in c.pools ==> RemoveFromPool(After3(c), zone, addrs).ok
  {
    hide Call, Reduced, Unused;
    CallUp(c);
    LaterTwice(c, 1, 1);
    LaterTwice(c, 2, 1);
    LaterTwice(c, 3, 3);
    CallUp(Later(c, 1));
    CallUp(Later(c, 2));
    if zone in c.pools {
      RemovalUp(Later(c, 3), zone, addrs);
    }
  }
}
