/** Secrets over whole runs: every address of a committed load balancer stays leased under the value its secret
    annotation stands for, and the exact condition under which another Service's rotation breaks that. */
module SecretAgreement {
  import opened Text
  import opened Lists
  import opened Services
  import opened Ipam
  import opened Mutation
  import opened Validation
  import opened Admission
  import opened LeaseFacts
  import opened Rollback
  import opened UpdateRollback
  import opened Consequences
  import opened PoolFacts
  import opened PoolCoverage
  import opened PoolExact
  import M = MutationFacts
  import L = LeaseCoverage
  import Pools

  /** Memberships of others stay, under the same secret, outside the slots of `S`. */
  ghost predicate SteadyOff(l1: Leases, l2: Leases, id: Id, S: set<Slot>) {
    forall s, i :: i != id && s !in S && Member(l1, s, i) ==> Member(l2, s, i) && l2[s].secret == l1[s].secret
  }

  lemma SteadyTwice(l1: Leases, l2: Leases, l3: Leases, id: Id, S: set<Slot>)
    requires SteadyOff(l1, l2, id, S) && SteadyOff(l2, l3, id, S)
    ensures SteadyOff(l1, l3, id, S)
  {
  }

  lemma SteadyMore(l1: Leases, l2: Leases, id: Id, S: set<Slot>)
    requires SteadyOff(l1, l2, id, {})
    ensures SteadyOff(l1, l2, id, S)
  {
  }

  // ---------------------------------------------------------------- the calls

  /** No membership, the Service's own included, is lost or changes its secret. */
  ghost predicate Undisturbed(l1: Leases, l2: Leases) {
    forall s, i :: Member(l1, s, i) ==> Member(l2, s, i) && l2[s].secret == l1[s].secret
  }

  lemma EffectUndisturbed(leases: Leases, q: Request, pick: string)
    requires q.newSecret.None? && PostEffect(leases, q, pick).Some?
    ensures Undisturbed(leases, PostEffect(leases, q, pick).value.0)
  {
    hide RequestForm, Offers;
    var after := PostEffect(leases, q, pick).value.0;
    var slot := if q.address == "" then Slot(q.zone, RequestForm(pick)) else Slot(q.zone, q.address);
    assert forall s | s != slot && s in leases :: s in after && after[s] == leases[s];
    assert slot in leases ==> leases[slot].members <= after[slot].members && after[slot].secret == leases[slot].secret;
  }

  /** A POST that changes no secret. */
  lemma PostUndisturbed(q: Request, r: Register)
    requires q.newSecret.None?
    ensures Undisturbed(r.leases, Post(q, r).reg.leases)
  {
    hide PostEffect;
    var reply, q' := NextReply(r), Rewrite(q);
    assert q'.newSecret.None?;
    if !reply.Refused? && PostEffect(r.leases, q', reply.pick).Some? {
      EffectUndisturbed(r.leases, q', reply.pick);
    }
  }

  lemma SteadyForOthers(l1: Leases, l2: Leases, id: Id)
    requires Undisturbed(l1, l2)
    ensures SteadyOff(l1, l2, id, {})
  {
  }

  lemma RemoveSteady(a: string, m: Annotations, id: Id, secret: string, r: Register)
    ensures SteadyOff(r.leases, RemoveAddress(a, m, id, secret, r).reg.leases, id, {})
  {
    hide Sendable, IsValidIp;
    if IsValidIp(a) {
      RewriteValid(id, m, secret, None, a);
    }
  }

  lemma {:induction false} ValidateSteady(addrs: seq<string>, m: Annotations, id: Id, secret: string, r: Register)
    ensures SteadyOff(r.leases, ValidateEach(addrs, m, id, secret, r).reg.leases, id, {})
  {
    hide Post, SteadyOff, Undisturbed, Sendable, IsValidIp;
    if addrs == [] {
      NothingMoves(r.leases, id);
    } else {
      var first := UpdateAddress(addrs[0], m, id, secret, r);
      PostUndisturbed(RequestFor(id, m, secret, None, addrs[0]), r);
      NothingMoves(r.leases, id);
      SteadyForOthers(r.leases, Post(RequestFor(id, m, secret, None, addrs[0]), r).reg.leases, id);
      if first.address.Some? {
        ValidateSteady(addrs[1..], m, id, secret, first.reg);
        SteadyTwice(r.leases, first.reg.leases, ValidateEach(addrs, m, id, secret, r).reg.leases, id, {});
      }
    }
  }

  lemma NothingMoves(leases: Leases, id: Id)
    ensures SteadyOff(leases, leases, id, {})
  {
  }

  lemma {:induction false} ReleaseSteady(addrs: seq<string>, m: Annotations, id: Id, secret: string, r: Register)
    ensures SteadyOff(r.leases, ReleaseEach(addrs, m, id, secret, r).leases, id, {})
  {
    hide RemoveAddress, SteadyOff;
    if addrs == [] {
      NothingMoves(r.leases, id);
    } else {
      var first := RemoveAddress(addrs[0], m, id, secret, r).reg;
      RemoveSteady(addrs[0], m, id, secret, r);
      ReleaseSteady(addrs[1..], m, id, secret, first);
      SteadyTwice(r.leases, first.leases, ReleaseEach(addrs, m, id, secret, r).leases, id, {});
    }
  }

  /** A rotation call moves the slot of its address and nothing else, and with equal values nothing at all. */
  lemma RotateSteady(a: string, m: Annotations, id: Id, oldSecret: string, newSecret: string, r: Register)
    ensures var after := RotateSecret(a, m, id, oldSecret, newSecret, r).reg;
            SteadyOff(r.leases, after.leases, id, {SlotOf(Get(m, Zone), a)})
            && (oldSecret == newSecret ==> after.leases == r.leases)
  {
    hide Sendable, IsValidIp, Rewrite;
    if IsValidIp(a) {
      RewriteValid(id, m, oldSecret, Some(newSecret), a);
    }
  }

  lemma SteadyWithin(l1: Leases, l2: Leases, id: Id, S: set<Slot>, T: set<Slot>)
    requires SteadyOff(l1, l2, id, S) && S <= T
    ensures SteadyOff(l1, l2, id, T)
  {
  }

  lemma {:induction false} RotationSteady(keep: seq<string>, index: nat, before: Annotations, m: Annotations, id: Id,
                                          oldSecret: string, newSecret: string, r: Register)
    requires index <= |keep| && Get(before, Zone) == Get(m, Zone)
    ensures var after := RotateFrom(keep, index, before, m, id, oldSecret, newSecret, r).reg;
            SteadyOff(r.leases, after.leases, id, Slots(Get(m, Zone), keep))
            && (oldSecret == newSecret ==> after.leases == r.leases)
    decreases |keep| - index
  {
    hide RotateSecret, SteadyOff;
    var S := Slots(Get(m, Zone), keep);
    NothingMoves(r.leases, id);
    SteadyMore(r.leases, r.leases, id, S);
    if index < |keep| {
      var call := RotateSecret(keep[index], m, id, oldSecret, newSecret, r);
      var end := RotateFrom(keep, index, before, m, id, oldSecret, newSecret, r).reg;
      RotateSteady(keep[index], m, id, oldSecret, newSecret, r);
      assert keep[index] in keep;
      SteadyWithin(r.leases, call.reg.leases, id, {SlotOf(Get(m, Zone), keep[index])}, S);
      if call.address.Some? {
        RotationSteady(keep, index + 1, before, m, id, oldSecret, newSecret, call.reg);
        SteadyTwice(r.leases, call.reg.leases, end.leases, id, S);
      } else if index == 1 {
        RotateSteady(keep[0], before, id, newSecret, oldSecret, call.reg);
        assert keep[0] in keep;
        SteadyWithin(call.reg.leases, end.leases, id, {SlotOf(Get(m, Zone), keep[0])}, S);
        SteadyTwice(r.leases, call.reg.leases, end.leases, id, S);
      }
    }
  }

  // ---------------------------------------------------------------- the mutating hook

  lemma LeasingUndisturbed(m: Annotations, id: Id, secret: string, r: Register)
    ensures Undisturbed(r.leases, LeaseMissing(m, id, secret, r).reg.leases)
  {
    hide GetAddress, RemoveAddress, Prefixed, IsValidIp, BeforeSlash, WithAddress, Sendable;
    GetUndisturbed(IPV4_FAMILY, m, id, secret, r);
    var four := LeaseFour(m, id, secret, r);
    if four.ok {
      GetUndisturbed(IPV6_FAMILY, four.annotations, id, secret, four.reg);
      if four.fresh4.Some? {
        M.GrantFacts(IPV4_FAMILY, m, id, secret, r);
        AddressZone(m, four.fresh4.value);
        var answer := GetAddress(IPV6_FAMILY, four.annotations, id, secret, four.reg);
        GivenBack(four.fresh4.value, four.annotations, id, secret, r.leases, answer.reg);
      }
    }
  }

  lemma AddressZone(m: Annotations, t: string)
    ensures Get(WithAddress(m, t), Zone) == Get(m, Zone)
  {
    hide BeforeSlash;
  }

  lemma GetUndisturbed(family: string, m: Annotations, id: Id, secret: string, r: Register)
    ensures Undisturbed(r.leases, GetAddress(family, m, id, secret, r).reg.leases)
  {
    hide Post, Sendable;
    PostUndisturbed(Request(id, secret, None, Get(m, Zone), family, ""), r);
  }

  lemma GivenBack(t: string, m: Annotations, id: Id, secret: string, leases: Leases, r: Register)
    requires var a := BeforeSlash(t);
             IsValidIp(a) && (t == a || t == Prefixed(a)) && SlotOf(Get(m, Zone), a) !in leases
    requires Undisturbed(leases, r.leases)
    ensures Undisturbed(leases, RemoveAddress(t, m, id, secret, r).reg.leases)
  {
    hide RemoveAddress, IsValidIp;
    var after := RemoveAddress(t, m, id, secret, r).reg;
    forall s, i | Member(leases, s, i) ensures Member(after.leases, s, i) && after.leases[s].secret == leases[s].secret {
      if IsValidIp(t) {
        ValidText(t);
        assert Prefixed(BeforeSlash(t))[|BeforeSlash(t)|] == '/';
      }
      RemoveElsewhere(t, m, id, secret, r, s);
    }
  }

  lemma MutateUndisturbed(svc: Svc, create: bool, dry: bool, rand: string, c: Pools.Cluster, r: Register)
    ensures var m := Mutate(svc, create, dry, rand, c, r);
            Undisturbed(r.leases, m.reg.leases) && m.cluster.secrets == c.secrets
  {
    hide LeaseMissing, WithDefaults, Reconcilable, Pools.SecretValue, Pools.HasSecret, Exists, Member;
    var full := WithDefaults(svc.annotations, rand);
    LeasingUndisturbed(full, svc.id, Pools.SecretValue(c, svc.id, full), r);
  }

  // ---------------------------------------------------------------- agreement and the two frames

  lemma StillAgrees(svc: Svc, c1: Pools.Cluster, c2: Pools.Cluster, l1: Leases, l2: Leases, id: Id, S: set<Slot>)
    requires svc.id != id && SteadyOff(l1, l2, id, S) && c1.secrets == c2.secrets
    requires svc.kind == LoadBalancer && L.Covered(svc, l1) && SecretsAgree(svc, c1, l1)
    requires forall a | a in AddressList(svc.annotations) :: SlotOf(ZoneOf(svc), a) !in S
    ensures SecretsAgree(svc, c2, l2)
  {
    hide AddressList;
    forall a | a in AddressList(svc.annotations) ensures HeldUnder(l2, SlotOf(ZoneOf(svc), a), Pools.SecretValue(c2, svc.id, svc.annotations)) {
      assert Member(l1, SlotOf(ZoneOf(svc), a), svc.id);
      assert HeldUnder(l1, SlotOf(ZoneOf(svc), a), Pools.SecretValue(c1, svc.id, svc.annotations));
    }
  }

  lemma OwnAgrees(svc: Svc, c1: Pools.Cluster, c2: Pools.Cluster, l1: Leases, l2: Leases)
    requires Undisturbed(l1, l2) && c1.secrets == c2.secrets
    requires svc.kind == LoadBalancer && L.Covered(svc, l1) && SecretsAgree(svc, c1, l1)
    ensures L.Covered(svc, l2) && SecretsAgree(svc, c2, l2)
  {
    hide AddressList;
    forall a | a in AddressList(svc.annotations) ensures HeldUnder(l2, SlotOf(ZoneOf(svc), a), Pools.SecretValue(c2, svc.id, svc.annotations)) {
      assert Member(l1, SlotOf(ZoneOf(svc), a), svc.id);
      assert HeldUnder(l1, SlotOf(ZoneOf(svc), a), Pools.SecretValue(c1, svc.id, svc.annotations));
    }
  }

  // ---------------------------------------------------------------- creation

  /** An accepted creation leaves every address of the new load balancer under the value of its secret, and disturbs
      no one else's, accepted or not. */
  lemma CreateAgrees(svc: Svc, dry: bool, c: Pools.Cluster, r: Register)
    ensures var v := CheckCreate(svc, dry, c, r);
            && SteadyOff(r.leases, v.reg.leases, svc.id, {})
            && (v.ok && !dry && svc.kind == LoadBalancer ==> SecretsAgree(svc, c, v.reg.leases))
  {
    hide ValidateEach, ReleaseEach, AddressList, Pools.SecretValue, Pools.FetchSecret, Pools.AddToPool, Pools.Call, SteadyOff;
    var m, secret := svc.annotations, Pools.SecretValue(c, svc.id, svc.annotations);
    var addrs := AddressList(m);
    var p := ValidateEach(addrs, m, svc.id, secret, r);
    NothingMoves(r.leases, svc.id);
    ValidateSteady(addrs, m, svc.id, secret, r);
    if p.count < |addrs| {
      ReleaseSteady(addrs[..p.count], m, svc.id, secret, p.reg);
      SteadyTwice(r.leases, p.reg.leases, ReleaseEach(addrs[..p.count], m, svc.id, secret, p.reg).leases, svc.id, {});
    } else {
      ValidatedAgree(addrs, m, svc.id, secret, r);
    }
  }

  /** A validation that goes through leaves every address under the caller's secret. */
  lemma ValidatedAgree(addrs: seq<string>, m: Annotations, id: Id, secret: string, r: Register)
    requires ValidateEach(addrs, m, id, secret, r).count == |addrs|
    ensures forall a | a in addrs :: HeldUnder(ValidateEach(addrs, m, id, secret, r).reg.leases, SlotOf(Get(m, Zone), a), secret)
  {
    hide ValidateEach, IsValidIp, Sendable;
    ValidateOutcome(addrs, m, id, secret, r);
    assert addrs[..|addrs|] == addrs;
    forall a | a in addrs ensures SlotOf(Get(m, Zone), a) in Slots(Get(m, Zone), addrs) {
    }
  }

  // ---------------------------------------------------------------- deletion

  /** A deletion disturbs nobody else; rejected without a failed re-registration, it leaves the Service's own
      addresses under the value of its secret. */
  lemma DeleteAgrees(svc: Svc, dry: bool, c: Pools.Cluster, r: Register)
    requires L.Well(svc)
    ensures var v := CheckDelete(svc, dry, c, r);
            && SteadyOff(r.leases, v.reg.leases, svc.id, {})
            && (!v.ok && v.reg.tally.postsFailed == r.tally.postsFailed && SecretsAgree(svc, c, r.leases) ==>
                  SecretsAgree(svc, c, v.reg.leases))
            && (dry ==> v.reg == r)
  {
    hide ValidateEach, ReleaseEach, AddressList, Sendable, IsValidIp, CountWith, Pools.SecretValue, Pools.FetchSecret,
         Pools.RemoveFromPool, Pools.VerifyAddresses, Pools.Call, SteadyOff, HeldUnder;
    var m, secret := svc.annotations, Pools.SecretValue(c, svc.id, svc.annotations);
    var addrs := AddressList(m);
    var released := ReleaseEach(addrs, m, svc.id, secret, r);
    var again := ValidateEach(addrs, m, svc.id, secret, released);
    NothingMoves(r.leases, svc.id);
    ReleaseSteady(addrs, m, svc.id, secret, r);
    ValidateSteady(addrs, m, svc.id, secret, released);
    SteadyTwice(r.leases, released.leases, again.reg.leases, svc.id, {});
    L.ReleasesPostNothing(addrs, m, svc.id, secret, r);
    L.FailuresGrow(addrs, m, svc.id, secret, released);
    if again.count == |addrs| {
      ValidatedAgree(addrs, m, svc.id, secret, released);
    }
  }

  // ---------------------------------------------------------------- secrets are only read

  lemma PoolSecrets(c: Pools.Cluster, zone: string, addrs: seq<string>)
    ensures Pools.AddToPool(c, zone, addrs).cluster.secrets == c.secrets
    ensures Pools.VerifyPool(c, zone).cluster.secrets == c.secrets
    ensures Pools.RemoveFromPool(c, zone, addrs).cluster.secrets == c.secrets
  {
    hide Pools.AddForms, Pools.Reduced, Pools.Unused;
  }

  lemma CreateSecrets(svc: Svc, dry: bool, c: Pools.Cluster, r: Register)
    ensures CheckCreate(svc, dry, c, r).cluster.secrets == c.secrets
  {
    hide ValidateEach, ReleaseEach, AddressList, Pools.SecretValue, Pools.HasSecret, Pools.AddForms;
  }

  lemma UpdateSecrets(prev: Svc, svc: Svc, dry: bool, rand: string, c: Pools.Cluster, r: Register)
    ensures CheckUpdate(prev, svc, dry, rand, c, r).cluster.secrets == c.secrets
  {
    hide UpdateLeases, PlanFor, UpdatePools, Pools.SecretValue, Pools.HasSecret;
    forall p, c2: Pools.Cluster ensures UpdatePools(p, c2).secrets == c2.secrets {
      UpdatePoolsSecrets(p, c2);
    }
  }

  lemma UpdatePoolsSecrets(p: Plan, c: Pools.Cluster)
    ensures UpdatePools(p, c).secrets == c.secrets
  {
    hide Pools.AddToPool, Pools.VerifyPool, Pools.RemoveFromPool;
    var grown := if p.added != [] then Pools.AddToPool(c, Get(p.after, Zone), p.added).cluster else c;
    PoolSecrets(c, Get(p.after, Zone), p.added);
    PoolSecrets(grown, Get(p.before, Zone), p.removed);
    PoolSecrets(Pools.VerifyPool(grown, Get(p.before, Zone)).cluster, Get(p.before, Zone), p.removed);
  }

  lemma DeleteSecrets(svc: Svc, dry: bool, c: Pools.Cluster, r: Register)
    ensures CheckDelete(svc, dry, c, r).cluster.secrets == c.secrets
  {
    hide ValidateEach, ReleaseEach, AddressList, Pools.SecretValue, Pools.HasSecret, Pools.RemoveFromPool,
         Pools.VerifyAddresses;
    VerifyOutcome(After2(c), svc.annotations);
    PoolSecrets(After3(c), ZoneOf(svc), AddressList(svc.annotations));
  }

  /** No admission changes a secret. */
  lemma StepSecrets(w: World, op: Op)
    ensures Step(w, op).c.secrets == w.c.secrets
  {
    hide Mutate, CheckCreate, CheckUpdate, CheckDelete;
    var i := IndexOf(w.c.services, TargetOf(op));
    match op
    case CreateOp(obj, dry, rand) =>
      var m := Mutate(Submitted(obj, false), true, dry, rand, w.c, w.r);
      MutateUndisturbed(Submitted(obj, false), true, dry, rand, w.c, w.r);
      CreateSecrets(m.svc, dry, m.cluster, m.reg);
    case UpdateOp(obj, dry, rand, rand2) =>
      if i < |w.c.services| {
        var submitted := Submitted(obj, w.c.services[i].ingress);
        var m := Mutate(submitted, false, dry, rand, w.c, w.r);
        MutateUndisturbed(submitted, false, dry, rand, w.c, w.r);
        UpdateSecrets(w.c.services[i], m.svc, dry, rand2, m.cluster, m.reg);
      }
    case DeleteOp(_, dry) =>
      if i < |w.c.services| {
        DeleteSecrets(w.c.services[i], dry, w.c, w.r);
      }
    case StatusOp(_, _) =>
  }

  // ---------------------------------------------------------------- updates

  /** The update gets as far as changing the secret of kept addresses. */
  predicate Rotates(p: Plan, id: Id, r: Register) {
    !RejectedEarly(p, r, id) && p.kept != [] && Get(p.before, SecretName) != Get(p.after, SecretName)
  }

  /** A rotation that fails is undone: no answer is lost, the revert is answered if it is sent, and it is sent if it is
      needed and is then enough. It is not for a rotation that fails at the third address, which only an object that
      stops being a load balancer can bring about, by repeating an address. */
  predicate Settles(p: Plan, id: Id, r: Register) {
    UpdateLeases(id, p, r).reg.tally.lost == r.tally.lost && RotationAnswered(p, r, id) && RotationUndone(p, r, id)
  }

  lemma SlotIn(zone: string, a: string, zone2: string, list: seq<string>)
    ensures SlotOf(zone, a) in Slots(zone2, list) <==> zone == zone2 && a in list
  {
    SlotsHas(zone2, list, a);
  }

  /** The three stages of an accepted update. */
  lemma AcceptedStages(id: Id, p: Plan, r: Register)
    requires UpdateLeases(id, p, r).ok
    ensures var v := ValidateEach(p.added, p.after, id, p.newSecret, r).reg;
            var rotated := if Rotates(p, id, r)
                           then RotateFrom(p.kept, 0, p.before, p.after, id, p.oldSecret, p.newSecret, v).reg else v;
            && (Rotates(p, id, r) ==> RotateFrom(p.kept, 0, p.before, p.after, id, p.oldSecret, p.newSecret, v).ok)
            && UpdateLeases(id, p, r).reg == ReleaseEach(p.removed, p.before, id, p.oldSecret, rotated)
            && (p.kept != [] ==> Get(p.before, Zone) == Get(p.after, Zone))
  {
    hide ValidateEach, RotateFrom, ReleaseEach;
  }

  /** An accepted update moves nobody else's secret but those of the kept addresses, and none if the values agree. */
  lemma AcceptedSteady(id: Id, p: Plan, r: Register)
    requires UpdateLeases(id, p, r).ok
    ensures SteadyOff(r.leases, UpdateLeases(id, p, r).reg.leases, id,
                      if Rotates(p, id, r) && p.oldSecret != p.newSecret then Slots(Get(p.after, Zone), p.kept) else {})
  {
    hide ValidateEach, RotateFrom, ReleaseEach, UpdateLeases, Rotates, SteadyOff;
    var S := if Rotates(p, id, r) && p.oldSecret != p.newSecret then Slots(Get(p.after, Zone), p.kept) else {};
    var v := ValidateEach(p.added, p.after, id, p.newSecret, r).reg;
    AcceptedStages(id, p, r);
    ValidateSteady(p.added, p.after, id, p.newSecret, r);
    NothingMoves(v.leases, id);
    var rotated := if Rotates(p, id, r)
                   then RotateFrom(p.kept, 0, p.before, p.after, id, p.oldSecret, p.newSecret, v).reg else v;
    if Rotates(p, id, r) {
      assert p.kept != [] by { RotatesKept(p, id, r); }
      RotationSteady(p.kept, 0, p.before, p.after, id, p.oldSecret, p.newSecret, v);
    }
    ReleaseSteady(p.removed, p.before, id, p.oldSecret, rotated);
    SteadyMore(r.leases, v.leases, id, S);
    SteadyMore(v.leases, v.leases, id, S);
    SteadyMore(rotated.leases, UpdateLeases(id, p, r).reg.leases, id, S);
    SteadyTwice(r.leases, v.leases, rotated.leases, id, S);
    SteadyTwice(r.leases, rotated.leases, UpdateLeases(id, p, r).reg.leases, id, S);
  }

  lemma RotatesKept(p: Plan, id: Id, r: Register)
    ensures Rotates(p, id, r) ==> p.kept != []
  {
  }

  /** After an accepted rotation another load balancer whose secret agreed with its leases still agrees iff it lists
      no kept address in that zone or the two values are equal. */
  lemma RotationAgrees(id: Id, p: Plan, r: Register, other: Svc, c: Pools.Cluster)
    requires UpdateLeases(id, p, r).ok && Rotates(p, id, r)
    requires other.kind == LoadBalancer && other.id != id && L.Covered(other, r.leases) && SecretsAgree(other, c, r.leases)
    ensures SecretsAgree(other, c, UpdateLeases(id, p, r).reg.leases)
       <==> p.oldSecret == p.newSecret
            || forall a | a in p.kept :: !(Mentioned(other, a) && ZoneOf(other) == Get(p.after, Zone))
  {
    hide ValidateEach, RotateFrom, ReleaseEach, UpdateLeases, Rotates, AddressList;
    var zone := Get(p.after, Zone);
    AcceptedSteady(id, p, r);
    if p.oldSecret == p.newSecret || forall a | a in p.kept :: !(Mentioned(other, a) && ZoneOf(other) == zone) {
      var S := if p.oldSecret != p.newSecret then Slots(zone, p.kept) else {};
      forall a | a in AddressList(other.annotations) ensures SlotOf(ZoneOf(other), a) !in S {
        SlotIn(ZoneOf(other), a, zone, p.kept);
      }
      StillAgrees(other, c, c, r.leases, UpdateLeases(id, p, r).reg.leases, id, S);
    } else {
      var a :| a in p.kept && Mentioned(other, a) && ZoneOf(other) == zone;
      SharedMoves(id, p, r, other.id, a);
      assert HeldUnder(r.leases, SlotOf(zone, a), Pools.SecretValue(c, other.id, other.annotations));
    }
  }

  /** A kept address that another Service holds too changes its secret from the old value to the new one. */
  lemma SharedMoves(id: Id, p: Plan, r: Register, other: Id, a: string)
    requires UpdateLeases(id, p, r).ok && Rotates(p, id, r) && a in p.kept
    requires other != id && Member(r.leases, SlotOf(Get(p.after, Zone), a), other)
    ensures HeldUnder(r.leases, SlotOf(Get(p.after, Zone), a), p.oldSecret)
    ensures HeldUnder(UpdateLeases(id, p, r).reg.leases, SlotOf(Get(p.after, Zone), a), p.newSecret)
  {
    hide ValidateEach, RotateFrom, ReleaseEach, UpdateLeases, Rotates;
    var zone, slot := Get(p.after, Zone), SlotOf(Get(p.after, Zone), a);
    var v := ValidateEach(p.added, p.after, id, p.newSecret, r).reg;
    var rotated := RotateFrom(p.kept, 0, p.before, p.after, id, p.oldSecret, p.newSecret, v).reg;
    AcceptedStages(id, p, r);
    ValidateSteady(p.added, p.after, id, p.newSecret, r);
    RotateAll(p.kept, p.before, p.after, id, p.oldSecret, p.newSecret, v);
    SlotsHas(zone, p.kept, a);
    ReleaseSteady(p.removed, p.before, id, p.oldSecret, rotated);
    assert HeldUnder(v.leases, slot, p.oldSecret) && HeldUnder(rotated.leases, slot, p.newSecret);
    assert MembersAt(v.leases, slot) == MembersAt(rotated.leases, slot);
    assert Member(v.leases, slot, other) && Member(rotated.leases, slot, other);
  }

  // ---------------------------------------------------------------- rejected updates

  lemma {:induction false} ValidateElsewhere(addrs: seq<string>, m: Annotations, id: Id, secret: string, r: Register, s: Slot)
    requires s !in ValidSlots(Get(m, Zone), addrs)
    ensures SameAt(r.leases, ValidateEach(addrs, m, id, secret, r).reg.leases, s)
  {
    hide IsValidIp, Sendable, UpdateAddress;
    if addrs != [] {
      var first := UpdateAddress(addrs[0], m, id, secret, r);
      assert IsValidIp(addrs[0]) ==> s != SlotOf(Get(m, Zone), addrs[0]);
      UpdateElsewhere(addrs[0], m, id, secret, r, s);
      ValidateElsewhere(addrs[1..], m, id, secret, first.reg, s);
    }
  }

  lemma UpdateElsewhere(a: string, m: Annotations, id: Id, secret: string, r: Register, s: Slot)
    requires IsValidIp(a) ==> s != SlotOf(Get(m, Zone), a)
    ensures SameAt(r.leases, UpdateAddress(a, m, id, secret, r).reg.leases, s)
  {
    hide IsValidIp, Sendable, Rewrite;
    if IsValidIp(a) {
      RewriteValid(id, m, secret, None, a);
    }
  }

  /** A failed rotation that is settled leaves the leases as the validation left them. */
  lemma SettledRotation(id: Id, p: Plan, r: Register)
    requires !UpdateLeases(id, p, r).ok && !RejectedEarly(p, r, id) && Settles(p, id, r)
    ensures var v := ValidateEach(p.added, p.after, id, p.newSecret, r).reg;
            var rotated := RotateFrom(p.kept, 0, p.before, p.after, id, p.oldSecret, p.newSecret, v).reg;
            rotated.leases == v.leases
            && UpdateLeases(id, p, r).reg == ReleaseEach(p.added, p.after, id, p.newSecret, rotated)
  {
    hide ValidateEach, ReleaseEach, RotateFrom, RotateUntil, Sendable, IsValidIp, Enlisted, Rekeyed, UpdateLeases, RejectedEarly,
         RevertAnswered, Undone;
    var v := ValidateEach(p.added, p.after, id, p.newSecret, r).reg;
    LateStages(p, r, id);
    RotationAtomic(p.kept, p.before, p.after, id, p.oldSecret, p.newSecret, v);
  }

  /** A rejected update moves nobody else's secret, and nothing outside the slots of its new addresses, if a failed
      rotation is settled. */
  lemma RejectedSteady(id: Id, p: Plan, r: Register)
    requires !UpdateLeases(id, p, r).ok
    requires !RejectedEarly(p, r, id) ==> Settles(p, id, r)
    ensures SteadyOff(r.leases, UpdateLeases(id, p, r).reg.leases, id, {})
    ensures forall s | s !in ValidSlots(Get(p.after, Zone), p.added) :: SameAt(r.leases, UpdateLeases(id, p, r).reg.leases, s)
  {
    hide ValidateEach, ReleaseEach, RotateFrom, UpdateLeases, RemoveAddress, IsValidIp, SteadyOff, Settles, RejectedEarly;
    var m, zone := p.after, Get(p.after, Zone);
    var v := ValidateEach(p.added, m, id, p.newSecret, r).reg;
    var end := UpdateLeases(id, p, r).reg;
    ValidateSteady(p.added, m, id, p.newSecret, r);
    NothingMoves(r.leases, id);
    forall s | s !in ValidSlots(zone, p.added) ensures SameAt(r.leases, v.leases, s) {
      ValidateElsewhere(p.added, m, id, p.newSecret, r, s);
    }
    if RejectedEarly(p, r, id) {
      var from := EarlyEnd(id, p, r);
      if p.added != [] {
        RemoveSteady(p.added[0], m, id, p.newSecret, from);
        SteadyTwice(r.leases, from.leases, end.leases, id, {});
        forall s | s !in ValidSlots(zone, p.added) ensures SameAt(from.leases, end.leases, s) {
          assert p.added[0] in p.added;
          RemoveElsewhere(p.added[0], m, id, p.newSecret, from, s);
        }
      }
    } else {
      SettledRotation(id, p, r);
      var rotated := RotateFrom(p.kept, 0, p.before, m, id, p.oldSecret, p.newSecret, v).reg;
      ReleaseSteady(p.added, m, id, p.newSecret, rotated);
      SteadyTwice(r.leases, v.leases, end.leases, id, {});
      forall s | s !in ValidSlots(zone, p.added) ensures SameAt(v.leases, end.leases, s) {
        ReleaseElsewhere(p.added, m, id, p.newSecret, rotated, s);
      }
    }
  }

  // ---------------------------------------------------------------- the update hook

  /** Of an update that gets as far as changing the secret of kept addresses: accepted, the two values are equal or no
      other load balancer of the zone lists one of them; rejected, the failed rotation is undone. */
  predicate SoundUpdate(services: seq<Svc>, i: nat, next: Svc, p: Plan, c: Pools.Cluster, r: Register)
    requires i < |services|
  {
    (services[i].kind == LoadBalancer || next.kind == LoadBalancer) && UpdateReady(next, p, c) && Rotates(p, next.id, r) ==>
      if UpdateLeases(next.id, p, r).ok
      then p.oldSecret == p.newSecret || forall a | a in p.kept :: !ListedBesideIn(services, i, Get(p.after, Zone), a)
      else Settles(p, next.id, r)
  }

  lemma AcceptedStage(prev: Svc, next: Svc, rand: string, c: Pools.Cluster, r: Register)
    requires CheckUpdate(prev, next, false, rand, c, r).ok
    ensures var v, p := CheckUpdate(prev, next, false, rand, c, r), PlanFor(prev, next, rand, c);
            || v.reg == r
            || (UpdateReady(next, p, c) && UpdateLeases(next.id, p, r).ok && v.reg == UpdateLeases(next.id, p, r).reg
                && (prev.kind == LoadBalancer || next.kind == LoadBalancer))
  {
    hide UpdateLeases, PlanFor, UpdatePools, Pools.SecretValue, Pools.HasSecret;
  }

  lemma RejectedKinds(prev: Svc, next: Svc, rand: string, c: Pools.Cluster, r: Register)
    requires !CheckUpdate(prev, next, false, rand, c, r).ok
    ensures prev.kind == LoadBalancer || next.kind == LoadBalancer
  {
    hide UpdateLeases, PlanFor, UpdatePools, Pools.SecretValue, Pools.HasSecret;
  }

  /** An update past its early rejections fails only in a rotation. */
  lemma LateRejection(id: Id, p: Plan, r: Register)
    requires !UpdateLeases(id, p, r).ok && !RejectedEarly(p, r, id)
    ensures Rotates(p, id, r)
  {
    hide ValidateEach, RotateFrom, ReleaseEach;
  }

  /** New addresses are not the stored load balancer's. */
  lemma NewAreNew(prev: Svc, next: Svc, rand: string, c: Pools.Cluster)
    requires prev.kind == LoadBalancer
    ensures forall a | a in AddressList(prev.annotations) :: a !in PlanFor(prev, next, rand, c).added
  {
    hide PlanFor, AddressList, Without, Within;
    L.PlanLists(prev, next, rand, c);
    forall a | a in AddressList(prev.annotations) ensures a !in PlanFor(prev, next, rand, c).added {
      WithoutHas(AddressList(next.annotations), AddressList(prev.annotations), a);
    }
  }

  /** A sound update, accepted or rejected, leaves every other agreeing load balancer in agreement. */
  lemma UpdateOthersAgree(services: seq<Svc>, i: nat, j: nat, next: Svc, rand: string, c: Pools.Cluster, r: Register)
    requires i < |services| && j < |services| && services[i].id == next.id && services[j].id != next.id
    requires SoundUpdate(services, i, next, PlanFor(services[i], next, rand, c), c, r)
    requires services[j].kind == LoadBalancer && L.Covered(services[j], r.leases) && SecretsAgree(services[j], c, r.leases)
    ensures SecretsAgree(services[j], c, CheckUpdate(services[i], next, false, rand, c, r).reg.leases)
  {
    hide CheckUpdate, PlanFor, UpdateLeases, AddressList, L.Well, Rotates, Settles, RejectedEarly, UpdateReady, IsValidIp,
         SteadyOff, ListedBesideIn;
    var prev, other, p := services[i], services[j], PlanFor(services[i], next, rand, c);
    var v, u := CheckUpdate(prev, next, false, rand, c, r), UpdateLeases(next.id, p, r);
    if v.reg == r {
    } else if v.ok {
      AcceptedStage(prev, next, rand, c, r);
      AcceptedSteady(next.id, p, r);
      var S := if Rotates(p, next.id, r) && p.oldSecret != p.newSecret then Slots(Get(p.after, Zone), p.kept) else {};
      forall a | a in AddressList(other.annotations) ensures SlotOf(ZoneOf(other), a) !in S {
        SlotIn(ZoneOf(other), a, Get(p.after, Zone), p.kept);
        if ZoneOf(other) == Get(p.after, Zone) {
          BesideIn(services, i, j, a);
        }
      }
      StillAgrees(other, c, c, r.leases, v.reg.leases, next.id, S);
    } else {
      RejectedStage(prev, next, rand, c, r);
      RejectedKinds(prev, next, rand, c, r);
      if !RejectedEarly(p, r, next.id) {
        LateRejection(next.id, p, r);
      }
      RejectedSteady(next.id, p, r);
      StillAgrees(other, c, c, r.leases, v.reg.leases, next.id, {});
    }
  }

  lemma BesideIn(services: seq<Svc>, i: nat, j: nat, a: string)
    requires i < |services| && j < |services| && i != j && Mentioned(services[j], a)
    ensures ListedBesideIn(services, i, ZoneOf(services[j]), a)
  {
  }

  /** A rejected sound update leaves the stored load balancer in agreement. */
  lemma RejectedAgrees(services: seq<Svc>, i: nat, next: Svc, rand: string, c: Pools.Cluster, r: Register)
    requires i < |services| && services[i].id == next.id && L.Well(services[i]) && L.Well(next)
    requires SoundUpdate(services, i, next, PlanFor(services[i], next, rand, c), c, r)
    requires services[i].kind == LoadBalancer && SecretsAgree(services[i], c, r.leases)
    requires !CheckUpdate(services[i], next, false, rand, c, r).ok
    ensures SecretsAgree(services[i], c, CheckUpdate(services[i], next, false, rand, c, r).reg.leases)
  {
    hide CheckUpdate, PlanFor, UpdateLeases, AddressList, L.Well, Rotates, Settles, RejectedEarly, UpdateReady, IsValidIp,
         SteadyOff, ListedBesideIn;
    var prev, p := services[i], PlanFor(services[i], next, rand, c);
    var v := CheckUpdate(prev, next, false, rand, c, r);
    RejectedStage(prev, next, rand, c, r);
    if v.reg != r {
      NewAreNew(prev, next, rand, c);
      if !RejectedEarly(p, r, next.id) {
        LateRejection(next.id, p, r);
      }
      RejectedSteady(next.id, p, r);
      forall a | a in AddressList(prev.annotations)
        ensures HeldUnder(v.reg.leases, SlotOf(ZoneOf(prev), a), Pools.SecretValue(c, prev.id, prev.annotations))
      {
        NotReached(ZoneOf(prev), a, Get(p.after, Zone), p.added);
        assert SameAt(r.leases, v.reg.leases, SlotOf(ZoneOf(prev), a));
        assert HeldUnder(r.leases, SlotOf(ZoneOf(prev), a), Pools.SecretValue(c, prev.id, prev.annotations));
      }
    }
  }

  /** An accepted update that makes a load balancer of a Service without addresses leaves it in agreement. */
  lemma UpgradeAgrees(prev: Svc, next: Svc, rand: string, c: Pools.Cluster, r: Register)
    requires prev.kind != LoadBalancer && next.kind == LoadBalancer && prev.id == next.id && L.Well(next)
    requires Get(prev.annotations, Addresses) == "" && CheckUpdate(prev, next, false, rand, c, r).ok
    ensures SecretsAgree(next, c, CheckUpdate(prev, next, false, rand, c, r).reg.leases)
  {
    hide CheckUpdate, PlanFor, UpdateLeases, AddressList, Without, Within, CountWith, IsValidIp,
         Pools.SecretValue, Pools.HasSecret;
    var v, p := CheckUpdate(prev, next, false, rand, c, r), PlanFor(prev, next, rand, c);
    var news := AddressList(next.annotations);
    L.UpdateVerdict(prev, next, false, rand, c, r);
    L.PlanUpgrade(prev, next, rand, c);
    L.NoEmptyAddress(next);
    PlanBasics(prev, next, rand, c);
    PlanShape(prev, next, rand, c);
    forall a: string ensures a !in p.kept && (a in p.added <==> a in news) && (a in p.removed ==> a !in news) {
      WithinHas(news, [""], a);
      WithoutHas(news, [""], a);
      WithoutHas([""], news, a);
    }
    if v.reg == r && p.before == p.after {
      L.UnchangedAnnotations(prev, next, rand, c);
      assert false;
    }
    PlanNames(prev, next, rand, c);
    forall a | a in news ensures HeldUnder(v.reg.leases, SlotOf(ZoneOf(next), a), p.newSecret) {
      NewSecretEverywhere(next.id, p, r, a);
    }
  }

  /** The same secret name means the same value. */
  lemma PlanNames(prev: Svc, next: Svc, rand: string, c: Pools.Cluster)
    ensures var p := PlanFor(prev, next, rand, c);
            Get(p.before, SecretName) == Get(p.after, SecretName) ==> p.oldSecret == p.newSecret
  {
    hide AddressList, Without, Within, IpamPart, OldAnnotations;
  }

  // ---------------------------------------------------------------- steps and runs

  /** Every committed load balancer's addresses are leased under the value of its secret. */
  ghost predicate AllAgree(w: World) {
    forall i | 0 <= i < |w.c.services| && w.c.services[i].kind == LoadBalancer ::
      SecretsAgree(w.c.services[i], w.c, w.r.leases)
  }

  /** An update that changes the secret of kept addresses is sound. */
  predicate SoundRotation(w: World, op: Op) {
    op.UpdateOp? ==>
      var i := IndexOf(w.c.services, op.obj.id);
      i < |w.c.services| && !op.dry ==>
        var m := Mutate(Submitted(op.obj, w.c.services[i].ingress), false, false, op.rand, w.c, w.r);
        m.ok ==> SoundUpdate(w.c.services, i, m.svc, PlanFor(w.c.services[i], m.svc, op.rand2, m.cluster), m.cluster, m.reg)
  }

  lemma SameAgreement(svc: Svc, c1: Pools.Cluster, c2: Pools.Cluster, leases: Leases)
    requires c1.secrets == c2.secrets
    ensures SecretsAgree(svc, c1, leases) <==> SecretsAgree(svc, c2, leases)
  {
    hide AddressList, HeldUnder;
  }

  /** An update that the mutating hook rejects or that is a dry run changes no secret of a committed Service. */
  lemma UpdateStepOthers(w: World, i: nat, j: nat, obj: Svc, dry: bool, rand: string, rand2: string)
    requires L.LeasesCover(w) && AllAgree(w) && L.CleanUpgrade(w, UpdateOp(obj, dry, rand, rand2))
    requires SoundRotation(w, UpdateOp(obj, dry, rand, rand2))
    requires i == IndexOf(w.c.services, obj.id) < |w.c.services| && j < |w.c.services|
    requires w.c.services[j].id != obj.id && w.c.services[j].kind == LoadBalancer
    ensures SecretsAgree(w.c.services[j], w.c, UpdateStep(w, i, obj, dry, rand, rand2).r.leases)
  {
    hide Mutate, CheckUpdate, PlanFor, L.Covered, L.Well, SoundUpdate, SecretsAgree;
    var submitted, other := Submitted(obj, w.c.services[i].ingress), w.c.services[j];
    var m := Mutate(submitted, false, dry, rand, w.c, w.r);
    MutateUndisturbed(submitted, false, dry, rand, w.c, w.r);
    MutateTarget(submitted, false, dry, rand, w.c, w.r);
    OwnAgrees(other, w.c, m.cluster, w.r.leases, m.reg.leases);
    SameAgreement(other, w.c, m.cluster, m.reg.leases);
    if m.ok {
      var v := CheckUpdate(w.c.services[i], m.svc, dry, rand2, m.cluster, m.reg);
      if dry {
        DryUpdate(w.c.services[i], m.svc, rand2, m.cluster, m.reg);
      } else {
        NewWell(submitted, rand, w.c, w.r);
        UpdateOthersAgree(w.c.services, i, j, m.svc, rand2, m.cluster, m.reg);
        SameAgreement(other, w.c, m.cluster, v.reg.leases);
      }
    }
  }

  lemma DryUpdate(prev: Svc, next: Svc, rand: string, c: Pools.Cluster, r: Register)
    ensures CheckUpdate(prev, next, true, rand, c, r) == Verdict(true, c, r)
  {
  }

  /** What the mutating hook lets through: well formed, and a load balancer only if the hook has made it one. */
  lemma NewWell(svc: Svc, rand: string, c: Pools.Cluster, r: Register)
    requires Mutate(svc, false, false, rand, c, r).ok
    ensures L.Well(Mutate(svc, false, false, rand, c, r).svc)
    ensures Mutate(svc, false, false, rand, c, r).svc.kind == LoadBalancer ==> M.Mutates(svc, false)
  {
    hide Mutate, L.Well;
    L.MutatedWell(svc, false, rand, c, r);
    if !M.Mutates(svc, false) {
      L.MutateSkips(svc, false, false, rand, c, r);
    }
  }

  /** After an update, accepted or not, the Service at its place agrees. */
  lemma UpdateStepOwn(w: World, i: nat, obj: Svc, dry: bool, rand: string, rand2: string)
    requires L.LeasesCover(w) && AllAgree(w) && L.CleanUpgrade(w, UpdateOp(obj, dry, rand, rand2))
    requires SoundRotation(w, UpdateOp(obj, dry, rand, rand2)) && i == IndexOf(w.c.services, obj.id) < |w.c.services|
    ensures var after := UpdateStep(w, i, obj, dry, rand, rand2);
            && |after.c.services| == |w.c.services|
            && (after.c.services[i].kind == LoadBalancer ==> SecretsAgree(after.c.services[i], w.c, after.r.leases))
  {
    hide Mutate, CheckUpdate, PlanFor, L.Covered, L.Well, SoundUpdate, SecretsAgree;
    var prev := w.c.services[i];
    var submitted := Submitted(obj, prev.ingress);
    var m := Mutate(submitted, false, dry, rand, w.c, w.r);
    MutateUndisturbed(submitted, false, dry, rand, w.c, w.r);
    MutateTarget(submitted, false, dry, rand, w.c, w.r);
    MutateServices(submitted, false, dry, rand, w.c, w.r);
    if prev.kind == LoadBalancer {
      OwnAgrees(prev, w.c, m.cluster, w.r.leases, m.reg.leases);
      SameAgreement(prev, w.c, m.cluster, m.reg.leases);
    }
    if m.ok {
      var v := CheckUpdate(prev, m.svc, dry, rand2, m.cluster, m.reg);
      UpdateServices(prev, m.svc, dry, rand2, m.cluster, m.reg);
      if dry {
        DryUpdate(prev, m.svc, rand2, m.cluster, m.reg);
      } else {
        NewWell(submitted, rand, w.c, w.r);
        UpdateHookOwn(w.c.services, i, m.svc, rand2, m.cluster, m.reg);
        SameAgreement(if v.ok then m.svc else prev, w.c, m.cluster, v.reg.leases);
      }
    }
  }

  /** A sound update leaves in agreement the new Service if accepted and the stored one if not. */
  lemma UpdateHookOwn(services: seq<Svc>, i: nat, next: Svc, rand: string, c: Pools.Cluster, r: Register)
    requires i < |services| && services[i].id == next.id && L.Well(services[i]) && L.Well(next)
    requires services[i].kind != LoadBalancer && next.kind == LoadBalancer ==> Get(services[i].annotations, Addresses) == ""
    requires SoundUpdate(services, i, next, PlanFor(services[i], next, rand, c), c, r)
    requires services[i].kind == LoadBalancer ==> SecretsAgree(services[i], c, r.leases)
    ensures var v := CheckUpdate(services[i], next, false, rand, c, r);
            var svc := if v.ok then next else services[i];
            svc.kind == LoadBalancer ==> SecretsAgree(svc, c, v.reg.leases)
  {
    hide CheckUpdate, PlanFor, L.Well, SoundUpdate, SecretsAgree;
    var prev := services[i];
    if CheckUpdate(prev, next, false, rand, c, r).ok {
      if next.kind == LoadBalancer {
        if prev.kind == LoadBalancer {
          UpdateSecretsAgree(prev, next, rand, c, r);
        } else {
          UpgradeAgrees(prev, next, rand, c, r);
        }
      }
    } else if prev.kind == LoadBalancer {
      RejectedAgrees(services, i, next, rand, c, r);
    }
  }

  /** After a creation all load balancers agree, the new one included if it was committed. */
  lemma CreateStepAgrees(w: World, obj: Svc, dry: bool, rand: string, k: nat)
    requires L.LeasesCover(w) && AllAgree(w)
    ensures var after := CreateStep(w, obj, dry, rand);
            k < |after.c.services| && after.c.services[k].kind == LoadBalancer ==>
              SecretsAgree(after.c.services[k], w.c, after.r.leases)
  {
    hide Mutate, CheckCreate, L.Covered, L.Well, SecretsAgree, SteadyOff;
    var submitted, after := Submitted(obj, false), CreateStep(w, obj, dry, rand);
    var m := Mutate(submitted, true, dry, rand, w.c, w.r);
    MutateUndisturbed(submitted, true, dry, rand, w.c, w.r);
    MutateTarget(submitted, true, dry, rand, w.c, w.r);
    MutateServices(submitted, true, dry, rand, w.c, w.r);
    if IndexOf(w.c.services, obj.id) < |w.c.services| {
      L.CreateTaken(w, obj, dry, rand);
    } else {
      if m.ok {
        CreateServices(m.svc, dry, m.cluster, m.reg);
        CreateAgrees(m.svc, dry, m.cluster, m.reg);
        SameAgreement(m.svc, w.c, m.cluster, after.r.leases);
      }
      if k < |w.c.services| && w.c.services[k].kind == LoadBalancer {
        var svc := w.c.services[k];
        OwnAgrees(svc, w.c, m.cluster, w.r.leases, m.reg.leases);
        SameAgreement(svc, w.c, m.cluster, m.reg.leases);
        if m.ok {
          StillAgrees(svc, w.c, w.c, m.reg.leases, after.r.leases, obj.id, {}) by {
            NotThere(w.c.services, obj.id, k);
          }
        }
      }
    }
  }

  lemma {:induction false} NotThere(services: seq<Svc>, id: Id, k: nat)
    requires IndexOf(services, id) == |services| && k < |services|
    ensures services[k].id != id
  {
  }

  /** After a deletion all load balancers that are still there agree. */
  lemma DeleteStepAgrees(w: World, i: nat, dry: bool, k: nat)
    requires L.LeasesCover(w) && AllAgree(w) && i < |w.c.services|
    requires DeleteStep(w, i, dry).r.tally.postsFailed == w.r.tally.postsFailed
    ensures var after := DeleteStep(w, i, dry);
            k < |after.c.services| && after.c.services[k].kind == LoadBalancer ==>
              SecretsAgree(after.c.services[k], w.c, after.r.leases)
  {
    hide CheckDelete, L.Covered, L.Well, SecretsAgree, SteadyOff;
    var svc, after := w.c.services[i], DeleteStep(w, i, dry);
    DeleteServices(svc, dry, w.c, w.r);
    DeleteAgrees(svc, dry, w.c, w.r);
    var v := CheckDelete(svc, dry, w.c, w.r);
    var j := if v.ok && !dry && k >= i then k + 1 else k;
    if j < |w.c.services| && j != i && w.c.services[j].kind == LoadBalancer {
      StillAgrees(w.c.services[j], w.c, w.c, w.r.leases, v.reg.leases, svc.id, {});
    }
  }

  /** One step keeps every committed load balancer's leases under the value of its secret. */
  lemma SecretsStep(w: World, op: Op)
    requires L.LeasesCover(w) && AllAgree(w) && L.CleanUpgrade(w, op) && SoundRotation(w, op)
    requires op.DeleteOp? ==> Step(w, op).r.tally.postsFailed == w.r.tally.postsFailed
    ensures AllAgree(Step(w, op))
  {
    hide CreateStep, UpdateStep, DeleteStep, L.LeasesCover, L.CleanUpgrade, SoundRotation, SecretsAgree;
    var i, after := IndexOf(w.c.services, TargetOf(op)), Step(w, op);
    StepSecrets(w, op);
    forall k | 0 <= k < |after.c.services| && after.c.services[k].kind == LoadBalancer
      ensures SecretsAgree(after.c.services[k], after.c, after.r.leases)
    {
      var svc := after.c.services[k];
      match op {
        case CreateOp(obj, dry, rand) => CreateStepAgrees(w, obj, dry, rand, k);
        case UpdateOp(obj, dry, rand, rand2) =>
          if i < |w.c.services| {
            if svc.id == obj.id {
              TargetPosition(w, op, k);
              UpdateStepOwn(w, i, obj, dry, rand, rand2);
            } else {
              var j := OldPosition(w, op, k);
              UpdateStepOthers(w, i, j, obj, dry, rand, rand2);
            }
          }
        case DeleteOp(_, dry) =>
          if i < |w.c.services| {
            DeleteStepAgrees(w, i, dry, k);
          }
        case StatusOp(_, ingress) =>
          StatusAgrees(w.c.services[k], ingress, w.c, w.r.leases);
      }
      SameAgreement(svc, w.c, after.c, after.r.leases);
    }
  }

  lemma StatusAgrees(svc: Svc, ingress: bool, c: Pools.Cluster, leases: Leases)
    ensures SecretsAgree(svc.(ingress := ingress), c, leases) <==> SecretsAgree(svc, c, leases)
  {
    hide AddressList, HeldUnder;
  }

  /** The target of an update stays in its place. */
  lemma TargetPosition(w: World, op: Op, k: nat)
    requires L.LeasesCover(w) && op.UpdateOp? && IndexOf(w.c.services, TargetOf(op)) < |w.c.services|
    requires k < |Step(w, op).c.services| && Step(w, op).c.services[k].id == TargetOf(op)
    ensures k == IndexOf(w.c.services, TargetOf(op))
  {
    hide Step, L.Covered, L.Well;
    StepServices(w, op);
  }

  /** What a run is asked for so that secrets agree in every state. */
  predicate SecretAssumptions(w: World, ops: seq<Op>)
    decreases |ops|
  {
    ops == [] ||
    (&& L.CleanUpgrade(w, ops[0]) && SoundRotation(w, ops[0])
     && (ops[0].DeleteOp? ==> Step(w, ops[0]).r.tally.postsFailed == w.r.tally.postsFailed)
     && SecretAssumptions(Step(w, ops[0]), ops[1..]))
  }

  /** Secrets agree in every state of every run. */
  lemma {:induction false} SecretsRun(w: World, ops: seq<Op>)
    requires L.LeasesCover(w) && AllAgree(w) && SecretAssumptions(w, ops)
    ensures L.LeasesCover(Run(w, ops)) && AllAgree(Run(w, ops))
    decreases |ops|
  {
    hide Step, L.LeasesCover, AllAgree, L.CleanUpgrade, SoundRotation;
    if ops != [] {
      L.LeasesCoverStep(w, ops[0]);
      SecretsStep(w, ops[0]);
      SecretsRun(Step(w, ops[0]), ops[1..]);
    }
  }
}
