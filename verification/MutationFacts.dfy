/** What the mutating hook achieves: shape of the object, leases granted, atomicity, fixpoint. */
module MutationFacts {
  import opened Text
  import opened Lists
  import opened Services
  import opened Ipam
  import opened Mutation
  import Pools

  // ---------------------------------------------------------------- address lists

  lemma {:induction false} FamiliesCount(list: seq<string>)
    requires forall a | a in list :: IsValidIp(a)
    ensures CountWith('.', list) + CountWith(':', list) == |list|
  {
    if list != [] {
      ValidText(list[0]);
      FamiliesCount(list[1..]);
    }
  }

  /** At most one address per family: one address, or two of different families. */
  lemma ValidListShape(list: seq<string>)
    requires ValidList(list)
    ensures |list| <= 2 && Distinct(list)
    ensures |list| == 2 ==> ('.' in list[0] <==> ':' in list[1])
  {
    FamiliesCount(list);
    if |list| == 2 {
      ValidText(list[0]);
      ValidText(list[1]);
      assert list[1..][0] == list[1] && list[1..][1..] == [];
      assert CountWith('.', list[1..]) == if '.' in list[1] then 1 else 0;
      assert CountWith(':', list[1..]) == if ':' in list[1] then 1 else 0;
    }
  }

  /** An address of a family the list lacks can be put in front of it. */
  lemma ValidListExtends(a: string, list: seq<string>)
    requires IsValidIp(a) && ValidList(list)
    requires forall b | b in list :: !('.' in a && '.' in b) && !(':' in a && ':' in b)
    ensures ValidList([a] + list)
  {
    assert ([a] + list)[1..] == list;
    ValidText(a);
    if '.' in a {
      NoneWith('.', list);
    } else {
      NoneWith(':', list);
    }
  }

  lemma {:induction false} NoneWith(ch: char, list: seq<string>)
    requires forall b | b in list :: ch !in b
    ensures CountWith(ch, list) == 0
  {
    if list != [] {
      NoneWith(ch, list[1..]);
    }
  }

  /** The addresses the annotation text lists; none when the text is empty. */
  function UserList(m: Annotations): seq<string> {
    if Get(m, Addresses) == "" then [] else AddressList(m)
  }

  lemma UserListHas(m: Annotations, ch: char)
    requires ch != ','
    ensures ch in Get(m, Addresses) <==> exists a :: a in UserList(m) && ch in a
  {
    SplitChars(Get(m, Addresses), ',', ch);
  }

  /** Text of valid addresses holds no space, so dropping spaces is a no-op. */
  lemma SpacesNoOp(m: Annotations)
    requires forall a | a in UserList(m) :: IsValidIp(a)
    ensures DropSpaces(Get(m, Addresses)) == Get(m, Addresses)
  {
    UserListHas(m, ' ');
    DropSpacesNoOp(Get(m, Addresses));
  }

  // ---------------------------------------------------------------- one lease

  /** A granted request: the slot was free, the Service alone holds it now, and the list gains one address. */
  lemma GrantFacts(family: string, m: Annotations, id: Id, secret: string, r: Register)
    requires GetAddress(family, m, id, secret, r).address.Some?
    ensures var answer := GetAddress(family, m, id, secret, r);
            var t := answer.address.value;
            var a := BeforeSlash(t);
            && Sendable(m) && IsValidIp(a)
            && (family == IPV4_FAMILY ==> '.' in a) && (family == IPV6_FAMILY ==> ':' in a)
            && (family == IPV4_FAMILY || family == IPV6_FAMILY)
            && (t == a || t == Prefixed(a)) && t != ""
            && SlotOf(Get(m, Zone), a) !in r.leases
            && answer.reg.leases == r.leases[SlotOf(Get(m, Zone), a) := Lease(secret, {id})]
            && answer.reg.tally == r.tally.(sent := r.tally.sent + 1)
  {
    var q := Request(id, secret, None, Get(m, Zone), family, "");
    assert Rewrite(q) == q;
    var t := GetAddress(family, m, id, secret, r).address.value;
    var a := BeforeSlash(t);
    assert Offers(t, family);
    NormalisersAgree(a);
    RequestFormOfPrefixed(a);
    ValidText(a);
  }

  /** A request that is not granted leaves the leases alone, unless its answer was lost. */
  lemma NoGrantFacts(family: string, m: Annotations, id: Id, secret: string, r: Register)
    requires GetAddress(family, m, id, secret, r).address.None?
    ensures var after := GetAddress(family, m, id, secret, r).reg;
            && after.tally.deletesFailed == r.tally.deletesFailed
            && after.tally.lost >= r.tally.lost
            && (after.tally.lost == r.tally.lost ==> after.leases == r.leases)
  {
  }

  // ---------------------------------------------------------------- both leases

  /** The leases after granting fresh addresses; the last one of the list was leased first. */
  function Granted(leases: Leases, zone: string, fresh_: seq<string>, secret: string, id: Id): Leases {
    if fresh_ == [] then leases
    else Granted(leases, zone, fresh_[1..], secret, id)[SlotOf(zone, fresh_[0]) := Lease(secret, {id})]
  }

  predicate AllFree(leases: Leases, zone: string, list: seq<string>) {
    forall a | a in list :: SlotOf(zone, a) !in leases
  }

  /** `m2` and `r2` are `m1` and `r1` after the addresses `added` were leased and put in front of the list. */
  ghost predicate Extends(m1: Annotations, r1: Register, m2: Annotations, r2: Register, added: seq<string>,
                          id: Id, secret: string) {
    && ExtendsText(m1, m2, added)
    && ExtendsLeases(Get(m1, Zone), r1, r2, added, id, secret)
  }

  ghost predicate ExtendsText(m1: Annotations, m2: Annotations, added: seq<string>) {
    && ValidList(UserList(m2)) && UserList(m2) == added + UserList(m1)
    && Rest(m1) == Rest(m2)
    && (added == [] ==> m2 == m1)
    && (added != [] ==> Sendable(m1) && Get(m2, MetallbIPs) == Get(m2, Addresses) && MetallbIPs in m2)
  }

  ghost predicate ExtendsLeases(zone: string, r1: Register, r2: Register, added: seq<string>, id: Id, secret: string) {
    && r2.leases == Granted(r1.leases, zone, added, secret, id)
    && AllFree(r1.leases, zone, added)
    && r2.tally == r1.tally.(sent := r1.tally.sent + |added|)
    && (added == [] ==> r2 == r1)
  }

  /** All annotations but the two that carry the address text. */
  function Rest(m: Annotations): Annotations { m - {Addresses, MetallbIPs} }

  lemma RestGet(m1: Annotations, m2: Annotations, k: Key)
    requires Rest(m1) == Rest(m2) && k != Addresses && k != MetallbIPs
    ensures Get(m1, k) == Get(m2, k) && (k in m1 <==> k in m2)
  {
    assert k in Rest(m1) <==> k in m1;
    assert k in Rest(m2) <==> k in m2;
    assert k in m1 ==> Rest(m1)[k] == m1[k] && Rest(m2)[k] == m2[k];
  }

  lemma GrantedOne(leases: Leases, zone: string, a: string, secret: string, id: Id)
    ensures Granted(leases, zone, [a], secret, id) == leases[SlotOf(zone, a) := Lease(secret, {id})]
  {
    assert [a][1..] == [];
  }

  lemma GrantedTwo(leases: Leases, zone: string, b: string, a: string, secret: string, id: Id)
    ensures Granted(leases, zone, [b, a], secret, id)
         == leases[SlotOf(zone, a) := Lease(secret, {id})][SlotOf(zone, b) := Lease(secret, {id})]
  {
    assert [b, a][1..] == [a];
    GrantedOne(leases, zone, a, secret, id);
  }

  /** Prepending a leased address of a missing family. */
  lemma PrependExtends(m: Annotations, r: Register, t: string, r2: Register, id: Id, secret: string)
    requires var a := BeforeSlash(t);
             && Sendable(m) && IsValidIp(a) && ValidList(UserList(m))
             && ('.' in a ==> '.' !in Get(m, Addresses)) && (':' in a ==> ':' !in Get(m, Addresses))
             && SlotOf(Get(m, Zone), a) !in r.leases
             && r2.leases == r.leases[SlotOf(Get(m, Zone), a) := Lease(secret, {id})]
             && r2.tally == r.tally.(sent := r.tally.sent + 1)
    ensures Extends(m, r, WithAddress(m, t), r2, [BeforeSlash(t)], id, secret)
    ensures '.' in BeforeSlash(t) ==> '.' in Get(WithAddress(m, t), Addresses)
    ensures ':' in BeforeSlash(t) ==> ':' in Get(WithAddress(m, t), Addresses)
  {
    var a := BeforeSlash(t);
    UserListHas(m, '.');
    UserListHas(m, ':');
    ValidListExtends(a, UserList(m));
    AddressPrepended(m, a, t);
    GrantedOne(r.leases, Get(m, Zone), a, secret, id);
    assert Rest(WithAddress(m, t)) == Rest(m);
  }

  lemma GrantExtends(family: string, m: Annotations, id: Id, secret: string, r: Register, t: string, r2: Register)
    requires GetAddress(family, m, id, secret, r) == Answer(Some(t), r2)
    requires ValidList(UserList(m))
    requires family == IPV4_FAMILY ==> '.' !in Get(m, Addresses)
    requires family == IPV6_FAMILY ==> ':' !in Get(m, Addresses)
    ensures Extends(m, r, WithAddress(m, t), r2, [BeforeSlash(t)], id, secret)
    ensures family == IPV4_FAMILY ==> '.' in Get(WithAddress(m, t), Addresses)
    ensures family == IPV6_FAMILY ==> ':' in Get(WithAddress(m, t), Addresses)
  {
    GrantFacts(family, m, id, secret, r);
    ValidText(BeforeSlash(t));
    PrependExtends(m, r, t, r2, id, secret);
  }

  lemma TextTwice(m1: Annotations, m2: Annotations, m3: Annotations, a: string, b: string)
    requires ExtendsText(m1, m2, [a]) && ExtendsText(m2, m3, [b])
    ensures ExtendsText(m1, m3, [b, a])
  {
    assert [b] + ([a] + UserList(m1)) == [b, a] + UserList(m1);
  }

  lemma LeasesTwice(zone: string, r1: Register, r2: Register, r3: Register, a: string, b: string, id: Id, secret: string)
    requires ExtendsLeases(zone, r1, r2, [a], id, secret) && ExtendsLeases(zone, r2, r3, [b], id, secret)
    ensures ExtendsLeases(zone, r1, r3, [b, a], id, secret)
  {
    GrantedOne(r1.leases, zone, a, secret, id);
    GrantedOne(r2.leases, zone, b, secret, id);
    GrantedTwo(r1.leases, zone, b, a, secret, id);
    assert SlotOf(zone, a) !in r1.leases && SlotOf(zone, b) !in r1.leases by {
      assert a in [a] && b in [b];
    }
  }

  lemma ExtendsTwice(m1: Annotations, r1: Register, m2: Annotations, r2: Register, m3: Annotations, r3: Register,
                     a: string, b: string, id: Id, secret: string)
    requires Extends(m1, r1, m2, r2, [a], id, secret) && Extends(m2, r2, m3, r3, [b], id, secret)
    ensures Extends(m1, r1, m3, r3, [b, a], id, secret)
  {
    TextTwice(m1, m2, m3, a, b);
    RestGet(m1, m2, Zone);
    LeasesTwice(Get(m1, Zone), r1, r2, r3, a, b, id, secret);
  }

  function Bare(t: Option<string>): seq<string> {
    if t.Some? then [BeforeSlash(t.value)] else []
  }

  /** The addresses a leasing run put in front of the list: IPv6 first when both were leased. */
  function Added(l: Leasing): seq<string> {
    Bare(l.fresh6) + Bare(l.fresh4)
  }

  /** What the IPv4 stage adds. */
  lemma FourExtends(m: Annotations, id: Id, secret: string, r: Register)
    requires Reconcilable(m) && LeaseFour(m, id, secret, r).ok
    ensures var four := LeaseFour(m, id, secret, r);
            && Extends(m, r, four.annotations, four.reg, Bare(four.fresh4), id, secret)
            && (Wants(IPV4_FAMILY, m) ==> '.' in Get(four.annotations, Addresses))
            && four.fresh6.None?
  {
    var four := LeaseFour(m, id, secret, r);
    if four.fresh4.Some? {
      GrantFacts(IPV4_FAMILY, m, id, secret, r);
      GrantExtends(IPV4_FAMILY, m, id, secret, r, four.fresh4.value, four.reg);
    } else {
      assert [] + UserList(m) == UserList(m);
    }
  }

  /** What the IPv6 stage adds to what the IPv4 stage has done. */
  lemma SixExtends(m: Annotations, r: Register, four: Leasing, id: Id, secret: string)
    requires four.ok && four.fresh6.None? && LeaseSix(four, id, secret).ok
    requires Extends(m, r, four.annotations, four.reg, Bare(four.fresh4), id, secret)
    requires Wants(IPV4_FAMILY, m) ==> '.' in Get(four.annotations, Addresses)
    ensures var six := LeaseSix(four, id, secret);
            && Extends(m, r, six.annotations, six.reg, Added(six), id, secret)
            && (Wants(IPV4_FAMILY, m) ==> '.' in Get(six.annotations, Addresses))
            && (Wants(IPV6_FAMILY, m) ==> ':' in Get(six.annotations, Addresses))
  {
    var six := LeaseSix(four, id, secret);
    RestGet(m, four.annotations, IpFamily);
    assert [] + Bare(four.fresh4) == Bare(four.fresh4);
    if six.fresh6.Some? {
      GrantExtends(IPV6_FAMILY, four.annotations, id, secret, four.reg, six.fresh6.value, six.reg);
      StillThere(four.annotations, six.annotations, Bare(six.fresh6), '.');
      BothAdded(m, r, four, six, id, secret);
    }
  }

  lemma BothAdded(m: Annotations, r: Register, four: Leasing, six: Leasing, id: Id, secret: string)
    requires Extends(m, r, four.annotations, four.reg, Bare(four.fresh4), id, secret)
    requires Extends(four.annotations, four.reg, six.annotations, six.reg, Bare(six.fresh6), id, secret)
    requires six.fresh6.Some? && six.fresh4 == four.fresh4
    ensures Extends(m, r, six.annotations, six.reg, Added(six), id, secret)
  {
    var b := BeforeSlash(six.fresh6.value);
    if four.fresh4.Some? {
      var a := BeforeSlash(four.fresh4.value);
      ExtendsTwice(m, r, four.annotations, four.reg, six.annotations, six.reg, a, b, id, secret);
      assert Added(six) == [b, a];
    } else {
      assert Added(six) == [b];
    }
  }

  lemma StillThere(m1: Annotations, m2: Annotations, added: seq<string>, ch: char)
    requires UserList(m2) == added + UserList(m1) && ch != ','
    ensures ch in Get(m1, Addresses) ==> ch in Get(m2, Addresses)
  {
    UserListHas(m1, ch);
    UserListHas(m2, ch);
  }

  /** The final space removal changes nothing. */
  lemma FinalSpaces(m: Annotations)
    requires ValidList(UserList(m)) && Get(m, Addresses) != ""
    ensures WithoutSpaces(m) == m && UserList(m) == AddressList(m)
  {
    SpacesNoOp(m);
  }

  /** A successful leasing run, for any reconciled annotations: the list it leaves is valid, covers the wanted
      families and is the fresh addresses followed by the user's; exactly the fresh addresses were leased. */
  lemma LeasingSucceeds(m: Annotations, id: Id, secret: string, r: Register)
    requires Reconcilable(m) && LeaseMissing(m, id, secret, r).ok
    ensures var l := LeaseMissing(m, id, secret, r);
            && Extends(m, r, l.annotations, l.reg, Added(l), id, secret)
            && (Wants(IPV4_FAMILY, m) ==> '.' in Get(l.annotations, Addresses))
            && (Wants(IPV6_FAMILY, m) ==> ':' in Get(l.annotations, Addresses))
            && UserList(l.annotations) == AddressList(l.annotations)
  {
    var four := LeaseFour(m, id, secret, r);
    FourExtends(m, id, secret, r);
    SixExtends(m, r, four, id, secret);
    var six := LeaseSix(four, id, secret);
    assert '.' in Get(six.annotations, Addresses) || ':' in Get(six.annotations, Addresses);
    FinalSpaces(six.annotations);
    assert LeaseMissing(m, id, secret, r) == six;
  }

  /** Which families a successful leasing run leases: those that are asked for and not listed yet, no other. */
  lemma FamiliesLeased(m: Annotations, id: Id, secret: string, r: Register)
    requires Reconcilable(m) && LeaseMissing(m, id, secret, r).ok
    ensures var l := LeaseMissing(m, id, secret, r);
            && (l.fresh4.Some? <==> '.' !in Get(m, Addresses) && (Get(m, IpFamily) == "ipv4" || Get(m, IpFamily) == "dual"))
            && (l.fresh6.Some? <==> ':' !in Get(m, Addresses) && (Get(m, IpFamily) == "ipv6" || Get(m, IpFamily) == "dual"))
  {
    hide GetAddress, RemoveAddress, ValidList, AddressList, IsIPv4, IsIPv6, Sendable, DropSpaces;
    var four := LeaseFour(m, id, secret, r);
    if four.fresh4.Some? {
      GrantFacts(IPV4_FAMILY, m, id, secret, r);
      var a := BeforeSlash(four.fresh4.value);
      ValidText(a);
      PrependedChar(m, four.fresh4.value, ':');
    }
  }

  lemma PrependedChar(m: Annotations, t: string, ch: char)
    requires ch !in BeforeSlash(t) && ch != ','
    ensures ch in Get(WithAddress(m, t), Addresses) <==> ch in Get(m, Addresses)
    ensures Get(WithAddress(m, t), IpFamily) == Get(m, IpFamily)
  {
    hide BeforeSlash;
  }

  // ---------------------------------------------------------------- the whole hook

  /** The leasing run inside a successful mutation of a Service the hook does not skip. */
  function LeasingOf(svc: Svc, rand: string, c: Pools.Cluster, r: Register): Leasing {
    var full := WithDefaults(svc.annotations, rand);
    LeaseMissing(full, svc.id, Pools.SecretValue(c, svc.id, full), r)
  }

  predicate Mutates(svc: Svc, dry: bool) { !dry && (svc.kind == LoadBalancer || svc.ingress) }

  /** Which steps a successful mutation has gone through. */
  lemma MutateRuns(svc: Svc, create: bool, rand: string, c: Pools.Cluster, r: Register)
    requires Mutates(svc, false) && Mutate(svc, create, false, rand, c, r).ok
    ensures var m := Mutate(svc, create, false, rand, c, r);
            var full, l := WithDefaults(svc.annotations, rand), LeasingOf(svc, rand, c, r);
            && Reconcilable(full) && l.ok && m.reg == l.reg
            && m.svc == Svc(svc.id, LoadBalancer, svc.ingress, l.annotations,
                            Some(PolicyFor(Get(full, IpFamily))), "")
  {
  }

  /** A complete and mirrored annotation map: nothing in it is missing or stale. */
  predicate Complete(m: Annotations) {
    && Addresses in m && DenyExternalCleanup in m && AllowLocalSharedIp in m && IpFamily in m
    && RetentionDays in m && SecretName in m && Zone in m
    && MetallbPool in m && m[MetallbPool] == m[Zone]
    && MetallbIPs in m && m[MetallbIPs] == m[Addresses]
    && MetallbSharedIp in m && m[MetallbSharedIp] == m[AllowLocalSharedIp]
  }

  lemma DefaultsComplete(m: Annotations, rand: string)
    ensures Complete(WithDefaults(m, rand))
    ensures Get(WithDefaults(m, rand), Addresses) == Get(m, Addresses)
  {
  }

  /** Shape of the annotations that leasing for a complete map leaves: one of the three families, and an address of each
      kind it asks for. */
  ghost predicate Shaped(m: Annotations) {
    && Complete(m) && ValidList(AddressList(m)) && AddressList(m) == UserList(m) && Get(m, Addresses) != ""
    && (Get(m, IpFamily) == "ipv4" || Get(m, IpFamily) == "ipv6" || Get(m, IpFamily) == "dual")
    && (Get(m, IpFamily) == "ipv4" || Get(m, IpFamily) == "dual" ==> '.' in Get(m, Addresses))
    && (Get(m, IpFamily) == "ipv6" || Get(m, IpFamily) == "dual" ==> ':' in Get(m, Addresses))
  }

  lemma LeasingShape(full: Annotations, id: Id, secret: string, r: Register, l: Leasing)
    requires Complete(full) && Reconcilable(full)
    requires l == LeaseMissing(full, id, secret, r) && l.ok
    ensures Shaped(l.annotations)
    ensures Extends(full, r, l.annotations, l.reg, Added(l), id, secret)
  {
    LeasingSucceeds(full, id, secret, r);
    CompleteKept(full, l.annotations, Added(l));
    RestGet(full, l.annotations, IpFamily);
    assert '.' in Get(l.annotations, Addresses) || ':' in Get(l.annotations, Addresses);
  }

  lemma CompleteKept(m1: Annotations, m2: Annotations, added: seq<string>)
    requires Complete(m1) && ExtendsText(m1, m2, added)
    ensures Complete(m2)
  {
    RestGet(m1, m2, DenyExternalCleanup);
    RestGet(m1, m2, AllowLocalSharedIp);
    RestGet(m1, m2, IpFamily);
    RestGet(m1, m2, RetentionDays);
    RestGet(m1, m2, SecretName);
    RestGet(m1, m2, Zone);
    RestGet(m1, m2, MetallbPool);
    RestGet(m1, m2, MetallbSharedIp);
  }

  /** The object a successful mutation leaves, for any input annotations: a load balancer whose non-empty address
      list is valid, has at most one address per family, covers the families asked for and is the freshly leased
      addresses followed by the user's; the MetalLB annotations mirror the IPAM ones, and the policy is the family's. */
  lemma MutateShape(svc: Svc, create: bool, rand: string, c: Pools.Cluster, r: Register)
    requires Mutates(svc, false) && Mutate(svc, create, false, rand, c, r).ok
    ensures var m := Mutate(svc, create, false, rand, c, r);
            var full, l := WithDefaults(svc.annotations, rand), LeasingOf(svc, rand, c, r);
            && l.ok && m.svc.annotations == l.annotations && m.reg == l.reg
            && m.svc.id == svc.id && m.svc.kind == LoadBalancer && m.svc.clusterIP == ""
            && m.svc.policy == Some(if Get(m.svc.annotations, IpFamily) == "dual" then RequireDualStack else SingleStack)
            && Shaped(m.svc.annotations)
            && Extends(full, r, m.svc.annotations, m.reg, Added(l), svc.id, Pools.SecretValue(c, svc.id, full))
  {
    var full, l := WithDefaults(svc.annotations, rand), LeasingOf(svc, rand, c, r);
    MutateRuns(svc, create, rand, c, r);
    DefaultsComplete(svc.annotations, rand);
    LeasingShape(full, svc.id, Pools.SecretValue(c, svc.id, full), r, l);
    RestGet(full, l.annotations, IpFamily);
  }

  lemma CompleteFixpoint(m: Annotations, rand: string)
    requires Complete(m)
    ensures WithDefaults(m, rand) == m
  {
    DefaultsFixpoint(m, rand);
  }

  lemma LeasingFixpoint(m: Annotations, id: Id, secret: string, r: Register)
    requires Shaped(m)
    ensures LeaseMissing(m, id, secret, r) == Leasing(true, m, None, None, r)
  {
    FinalSpaces(m);
  }

  lemma ShapedReconciles(m: Annotations)
    requires Shaped(m)
    ensures Reconcilable(m) && Complete(m)
  {
    hide ValidList, AddressList;
  }

  lemma RunAgain(once: Svc, create: bool, rand: string, c: Pools.Cluster, r: Register)
    requires Shaped(once.annotations) && once.kind == LoadBalancer && Reconciled(once) == once
    ensures Mutate(once, create, false, rand, c, r).svc == once && Mutate(once, create, false, rand, c, r).reg == r
  {
    hide LeaseMissing, WithDefaults, Shaped, Reconcilable, Exists, Pools.SecretValue, Pools.FetchSecret;
    assert Complete(once.annotations) && Reconcilable(once.annotations) by { ShapedReconciles(once.annotations); }
    CompleteFixpoint(once.annotations, rand);
    LeasingFixpoint(once.annotations, once.id, Pools.SecretValue(c, once.id, once.annotations), r);
  }

  /** Run on its own successful output the hook sends nothing and changes nothing, whatever the world looks like then. */
  lemma MutateFixpoint(svc: Svc, create: bool, rand: string, c: Pools.Cluster, r: Register,
                       create2: bool, rand2: string, c2: Pools.Cluster, r2: Register)
    requires Mutate(svc, create, false, rand, c, r).ok
    ensures var once := Mutate(svc, create, false, rand, c, r).svc;
            var twice := Mutate(once, create2, false, rand2, c2, r2);
            twice.svc == once && twice.reg == r2
  {
    if Mutates(svc, false) {
      hide Mutate, LeasingOf, WithDefaults, Shaped, Extends;
      MutateShape(svc, create, rand, c, r);
      RunAgain(Mutate(svc, create, false, rand, c, r).svc, create2, rand2, c2, r2);
    }
  }

  // ---------------------------------------------------------------- rejected mutations

  /** Giving a just granted address back undoes the grant iff the address is passed bare. */
  lemma GiveBack(t: string, m: Annotations, id: Id, secret: string, leases: Leases, r: Register)
    requires var a := BeforeSlash(t);
             && Sendable(m) && IsValidIp(a) && (t == a || t == Prefixed(a))
             && SlotOf(Get(m, Zone), a) !in leases
             && r.leases == leases[SlotOf(Get(m, Zone), a) := Lease(secret, {id})]
    requires RemoveAddress(t, m, id, secret, r).reg.tally.deletesFailed == r.tally.deletesFailed
    ensures RemoveAddress(t, m, id, secret, r).reg.leases == leases <==> '/' !in t
  {
    var slot := SlotOf(Get(m, Zone), BeforeSlash(t));
    ReleaseOutcome(t, m, id, secret, r);
    ValidText(BeforeSlash(t));
    assert r.leases[slot] == Lease(secret, {id});
    if '/' !in t {
      assert Drop(r.leases, slot, id) == r.leases - {slot} == leases;
    } else {
      assert !IsValidIp(t);
      assert slot in r.leases;
    }
  }

  /** The IPv6 lease fails after a fresh IPv4 lease: the compensation restores the register iff the API had
      answered with the bare address. With a prefix length in the answer nothing is sent. */
  lemma DualStackAtomic(m: Annotations, id: Id, secret: string, r: Register)
    requires LeaseFour(m, id, secret, r).ok && LeaseFour(m, id, secret, r).fresh4.Some?
    requires !LeaseMissing(m, id, secret, r).ok
    requires LeaseMissing(m, id, secret, r).reg.tally.lost == r.tally.lost
    requires LeaseMissing(m, id, secret, r).reg.tally.deletesFailed == r.tally.deletesFailed
    ensures LeaseMissing(m, id, secret, r).reg.leases == r.leases
       <==> '/' !in LeaseFour(m, id, secret, r).fresh4.value
  {
    var four := LeaseFour(m, id, secret, r);
    var t, m4 := four.fresh4.value, four.annotations;
    GrantFacts(IPV4_FAMILY, m, id, secret, r);
    NoGrantFacts(IPV6_FAMILY, m4, id, secret, four.reg);
    var answer := GetAddress(IPV6_FAMILY, m4, id, secret, four.reg);
    ReleaseOutcome(t, m4, id, secret, answer.reg);
    GiveBack(t, m4, id, secret, r.leases, answer.reg);
  }

  /** What a release call does when its answer is not lost and it is not refused in transit. */
  lemma ReleaseOutcome(a: string, m: Annotations, id: Id, secret: string, r: Register)
    ensures var after := RemoveAddress(a, m, id, secret, r).reg;
            var slot := SlotOf(Get(m, Zone), a);
            && after.tally.deletesFailed >= r.tally.deletesFailed && after.tally.lost >= r.tally.lost
            && after.tally.postsFailed == r.tally.postsFailed
            && (!Sendable(m) || !IsValidIp(a) ==> after == r)
            && (Sendable(m) && IsValidIp(a) && after.tally.deletesFailed == r.tally.deletesFailed ==>
                  after.leases == if Member(r.leases, slot, id) && r.leases[slot].secret == secret
                                  then Drop(r.leases, slot, id) else r.leases)
  {
    if IsValidIp(a) {
      RewriteValid(id, m, secret, None, a);
    }
  }
}
