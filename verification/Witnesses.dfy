/** Requests that break what the hooks do not promise in full: each is a submitted object, a state the hooks can be
    called in, and the answers of the register; the cluster answers every call. */
module Witnesses {
  import opened Text
  import opened Lists
  import opened Services
  import opened Ipam
  import opened Mutation
  import opened Validation
  import opened Admission
  import opened SmoothSteps
  import opened PoolFacts
  import opened PoolCoverage
  import opened PoolExact
  import opened UpdateRollback
  import opened Consequences
  import opened SecretAgreement
  import M = MutationFacts
  import L = LeaseCoverage
  import Pools

  // ---------------------------------------------------------------- objects and stores

  const ME := Id("team", "web")
  const DB := Id("team", "db")
  /** Complete annotations, as the mutating hook leaves them or a user may write them. */
  function Notes(text: string, family: string, zone: string, secret: string, days: string): Annotations {
    map[DenyExternalCleanup := "false", AllowLocalSharedIp := "key", IpFamily := family, RetentionDays := days,
        SecretName := secret, Zone := zone, MetallbPool := zone, MetallbSharedIp := "key"][Addresses := text][MetallbIPs := text]
  }

  lemma NotesRead(text: string, family: string, zone: string, secret: string, days: string)
    ensures var m := Notes(text, family, zone, secret, days);
            && M.Complete(m) && Get(m, Addresses) == text && Get(m, IpFamily) == family && Get(m, Zone) == zone
            && Get(m, SecretName) == secret && Get(m, RetentionDays) == days && Get(m, DenyExternalCleanup) == "false"
            && Sendable(m) == ParsesInt(days)
  {
    hide ParsesInt;
  }

  lemma ZeroParses()
    ensures ParsesInt("0") && !ParsesInt("soon")
  {
    assert DecimalValue("0") == 0;
    assert "soon"[0] in "soon" && !Digit("soon"[0]);
  }

  function Balancer(id: Id, m: Annotations): Svc {
    Svc(id, LoadBalancer, false, m, Some(PolicyFor(Get(m, IpFamily))), "")
  }

  const SECRETS: map<Id, string> := map[Id("ipam-system", DEFAULT_SECRET_NAME) := "s", Id("team", "mine") := "old",
                                        Id("team", "theirs") := "new"]

  function Answering(services: seq<Svc>, pools: map<string, seq<string>>): Pools.Cluster {
    Pools.Cluster(services, pools, SECRETS, seq(20, _ => true), 0, 0)
  }

  function Holding(leases: Leases, replies: seq<Reply>): Register {
    Register(leases, replies, Tally(0, 0, 0, 0))
  }

  lemma Secrets(services: seq<Svc>, pools: map<string, seq<string>>, id: Id, m: Annotations)
    requires id.namespace == "team"
    ensures var c := Answering(services, pools);
            && Up(c, 20)
            && (Get(m, SecretName) == DEFAULT_SECRET_NAME ==>
                  Pools.HasSecret(c, id, m) && Pools.SecretValue(c, id, m) == "s")
            && (Get(m, SecretName) == "mine" ==> Pools.HasSecret(c, id, m) && Pools.SecretValue(c, id, m) == "old")
            && (Get(m, SecretName) == "theirs" ==> Pools.HasSecret(c, id, m) && Pools.SecretValue(c, id, m) == "new")
  {
  }

  /** The request commits nothing, no answer is lost and every release is delivered, and yet the leases are not what
      they were. */
  predicate Leaks(w: World, op: Op) {
    var after := Step(w, op);
    after.c.services == w.c.services && after.r.leases != w.r.leases
    && after.r.tally.lost == w.r.tally.lost && after.r.tally.deletesFailed == w.r.tally.deletesFailed
  }

  // ---------------------------------------------------------------- lists and slots

  lemma ListOfOne(m: Annotations, a: string)
    requires IsValidIp(a) && Get(m, Addresses) == a
    ensures AddressList(m) == [a] && ValidList(AddressList(m)) && M.UserList(m) == [a]
  {
    ValidText(a);
    SplitNone(a, ',');
    assert CountWith('.', [a][1..]) == 0 && CountWith(':', [a][1..]) == 0;
  }

  lemma ListOfTwo(m: Annotations, b: string, a: string)
    requires IsIPv6(b) && IsIPv4(a) && Get(m, Addresses) == b + "," + a
    ensures AddressList(m) == [b, a] && ValidList(AddressList(m)) && M.UserList(m) == [b, a]
  {
    ValidText(a);
    ValidText(b);
    SplitNone(a, ',');
    SplitPrepend(b, a, ',');
    assert [b, a][1..] == [a] && [a][1..] == [];
    assert CountWith('.', [a]) == 1 && CountWith(':', [a]) == 0;
  }

  lemma OtherSlot(zone: string, a: string, zone2: string, b: string)
    requires a != b || zone != zone2
    ensures SlotOf(zone, a) != SlotOf(zone2, b)
  {
    if Prefixed(a) == Prefixed(b) {
      PrefixedInjective(a, b);
    }
  }

  // ---------------------------------------------------------------- leasing

  /** A Service without addresses asks for an IPv4 address and gets one. */
  lemma LeasesFour(zone: string, secret: string, value: string, r: Register, a: string)
    requires IsIPv4(a) && SlotOf(zone, a) !in r.leases && NextReply(r) == Done(a)
    ensures LeaseMissing(Notes("", IPV4_FAMILY, zone, secret, "0"), ME, value, r)
         == Leasing(true, Notes(a, IPV4_FAMILY, zone, secret, "0"), Some(a), None,
                    Posted(r, r.leases[SlotOf(zone, a) := Lease(value, {ME})], false, false))
  {
    hide GetAddress, Notes, Sendable, ParsesInt, IsIPv4, BeforeSlash, RemoveAddress, DropSpaces;
    var m := Notes("", IPV4_FAMILY, zone, secret, "0");
    NotesRead("", IPV4_FAMILY, zone, secret, "0");
    ZeroParses();
    Grants(IPV4_FAMILY, m, ME, value, r, a, a);
    AddressNoted(a, "", IPV4_FAMILY, zone, secret, a);
    NotesRead(a, IPV4_FAMILY, zone, secret, "0");
    DropSpacesNoOp(a) by { ValidText(a); }
    NothingDropped(Notes(a, IPV4_FAMILY, zone, secret, "0"));
  }

  lemma NothingDropped(m: Annotations)
    requires Addresses in m && DropSpaces(Get(m, Addresses)) == Get(m, Addresses)
    ensures WithoutSpaces(m) == m
  {
  }

  lemma AddressNoted(t: string, text: string, family: string, zone: string, secret: string, a: string)
    requires BeforeSlash(t) == a
    ensures WithAddress(Notes(text, family, zone, secret, "0"), t)
         == Notes(if text == "" then a else a + "," + text, family, zone, secret, "0")
  {
    hide BeforeSlash;
  }

  /** A dual-stack Service without addresses gets an IPv4 address and then an IPv6 one. */
  lemma LeasesBoth(zone: string, secret: string, value: string, r: Register, a: string, b: string)
    requires IsIPv4(a) && IsIPv6(b) && SlotOf(zone, a) !in r.leases && SlotOf(zone, b) !in r.leases
    requires |r.replies| >= 2 && r.replies[0] == Done(a) && r.replies[1] == Done(b)
    ensures var r1 := Posted(r, r.leases[SlotOf(zone, a) := Lease(value, {ME})], false, false);
            LeaseMissing(Notes("", DUAL_FAMILY, zone, secret, "0"), ME, value, r)
            == Leasing(true, Notes(b + "," + a, DUAL_FAMILY, zone, secret, "0"), Some(a), Some(b),
                       Posted(r1, r1.leases[SlotOf(zone, b) := Lease(value, {ME})], false, false))
  {
    hide GetAddress, Notes, Sendable, ParsesInt, IsIPv4, IsIPv6, BeforeSlash, RemoveAddress, DropSpaces, CountWith;
    var m, m4 := Notes("", DUAL_FAMILY, zone, secret, "0"), Notes(a, DUAL_FAMILY, zone, secret, "0");
    var m6 := Notes(b + "," + a, DUAL_FAMILY, zone, secret, "0");
    NotesRead("", DUAL_FAMILY, zone, secret, "0");
    NotesRead(a, DUAL_FAMILY, zone, secret, "0");
    NotesRead(b + "," + a, DUAL_FAMILY, zone, secret, "0");
    ZeroParses();
    ValidText(a);
    ValidText(b);
    OtherSlot(zone, a, zone, b);
    Grants(IPV4_FAMILY, m, ME, value, r, a, a);
    AddressNoted(a, "", DUAL_FAMILY, zone, secret, a);
    var r1 := Posted(r, r.leases[SlotOf(zone, a) := Lease(value, {ME})], false, false);
    Grants(IPV6_FAMILY, m4, ME, value, r1, b, b);
    AddressNoted(b, a, DUAL_FAMILY, zone, secret, b);
    ListOfTwo(m6, b, a);
    DropSpacesNoOp(b + "," + a);
    NothingDropped(m6);
  }

  /** The IPv4 request is answered with a prefix length and the IPv6 one is refused: nothing is given back. */
  lemma LeasesSuffixed(zone: string, secret: string, value: string, r: Register, a: string)
    requires IsIPv4(a) && SlotOf(zone, a) !in r.leases
    requires |r.replies| >= 2 && r.replies[0] == Done(Prefixed(a)) && r.replies[1] == Refused
    ensures var l := LeaseMissing(Notes("", DUAL_FAMILY, zone, secret, "0"), ME, value, r);
            var r1 := Posted(r, r.leases[SlotOf(zone, a) := Lease(value, {ME})], false, false);
            !l.ok && l.annotations == Notes(a, DUAL_FAMILY, zone, secret, "0") && l.reg == Posted(r1, r1.leases, true, false)
  {
    hide GetAddress, Notes, Sendable, ParsesInt, IsIPv4, BeforeSlash, RemoveAddress, DropSpaces, Prefixed;
    var m, m4 := Notes("", DUAL_FAMILY, zone, secret, "0"), Notes(a, DUAL_FAMILY, zone, secret, "0");
    NotesRead("", DUAL_FAMILY, zone, secret, "0");
    NotesRead(a, DUAL_FAMILY, zone, secret, "0");
    ZeroParses();
    ValidText(a);
    Grants(IPV4_FAMILY, m, ME, value, r, a, Prefixed(a));
    AddressNoted(Prefixed(a), "", DUAL_FAMILY, zone, secret, a);
    var r1 := Posted(r, r.leases[SlotOf(zone, a) := Lease(value, {ME})], false, false);
    Refuses(a, IPV6_FAMILY, m4, ME, value, value, r1);
    var r2 := Posted(r1, r1.leases, true, false);
    SuffixInvalid(a);
    assert RemoveAddress(Prefixed(a), m4, ME, value, r2).reg == r2 by {
      M.ReleaseOutcome(Prefixed(a), m4, ME, value, r2);
    }
  }

  lemma SuffixInvalid(a: string)
    ensures !IsValidIp(Prefixed(a))
  {
    assert Prefixed(a)[|a|] == '/';
    if IsValidIp(Prefixed(a)) {
      ValidText(Prefixed(a));
    }
  }

  // ---------------------------------------------------------------- rejected creations

  function Creation(family: string, zone: string): Op {
    CreateOp(Balancer(ME, Notes("", family, zone, DEFAULT_SECRET_NAME, "0")), false, "")
  }

  lemma SameRest(text: string, text2: string, family: string, zone: string, secret: string)
    ensures M.Rest(Notes(text, family, zone, secret, "0")) == M.Rest(Notes(text2, family, zone, secret, "0"))
  {
  }

  lemma Stores(services: seq<Svc>, pools: map<string, seq<string>>)
    ensures Answering(services, pools).services == services && Answering(services, pools).pools == pools
    ensures Answering(services, pools).secrets == SECRETS && Answering(services, pools).faults == 0
  {
  }

  /** The first admission of all, with the leasing run it contains. */
  lemma FirstCreation(family: string, zone: string, r: Register, text2: string, l: Leasing)
    requires l == LeaseMissing(Notes("", family, zone, DEFAULT_SECRET_NAME, "0"), ME, "s", r)
    requires l.annotations == Notes(text2, family, zone, DEFAULT_SECRET_NAME, "0") && KnownFamily(family)
    requires l.ok ==> ValidateEach(AddressList(l.annotations), l.annotations, ME, "s", l.reg).count == 0
    ensures var after := Step(World(Answering([], map[]), r), Creation(family, zone));
            after.c.services == []
            && after.r == if l.ok then ValidateEach(AddressList(l.annotations), l.annotations, ME, "s", l.reg).reg else l.reg
  {
    hide Notes, Step, LeaseMissing, M.Complete, M.Rest, ValidateEach, Answering, SECRETS, AddressList, IndexOf;
    var c, obj := Answering([], map[]), Balancer(ME, Notes("", family, zone, DEFAULT_SECRET_NAME, "0"));
    NotesRead("", family, zone, DEFAULT_SECRET_NAME, "0");
    Secrets([], map[], ME, obj.annotations);
    SameRest("", text2, family, zone, DEFAULT_SECRET_NAME);
    Stores([], map[]);
    assert IndexOf(c.services, ME) <= |c.services|;
    CreateRejected(World(c, r), obj, "");
    assert AddressList(l.annotations)[..0] == [];
  }

  /** A dual-stack creation whose IPv4 reply carries "/32" and whose IPv6 request is refused keeps the IPv4 lease. */
  lemma SuffixedReplyLeaks(zone: string, a: string)
    requires IsIPv4(a)
    ensures var w := World(Answering([], map[]), Holding(map[], [Done(Prefixed(a)), Refused]));
            && Leaks(w, Creation(DUAL_FAMILY, zone))
            && Step(w, Creation(DUAL_FAMILY, zone)).r.leases == map[SlotOf(zone, a) := Lease("s", {ME})]
  {
    hide Notes, Step, LeaseMissing, IsIPv4, ValidateEach, Answering, Prefixed, Creation;
    var r := Holding(map[], [Done(Prefixed(a)), Refused]);
    LeasesSuffixed(zone, DEFAULT_SECRET_NAME, "s", r, a);
    FirstCreation(DUAL_FAMILY, zone, r, a, LeaseMissing(Notes("", DUAL_FAMILY, zone, DEFAULT_SECRET_NAME, "0"), ME, "s", r));
    Stores([], map[]);
    OneLease(zone, a);
  }

  lemma OneLease(zone: string, a: string)
    ensures map[SlotOf(zone, a) := Lease("s", {ME})] != map[]
  {
    assert SlotOf(zone, a) in map[SlotOf(zone, a) := Lease("s", {ME})];
  }

  /** A creation whose own fresh address is refused on validation keeps that lease. */
  lemma RefusedFreshLeaks(zone: string, a: string)
    requires IsIPv4(a)
    ensures var w := World(Answering([], map[]), Holding(map[], [Done(a), Refused]));
            && Leaks(w, Creation(IPV4_FAMILY, zone))
            && Step(w, Creation(IPV4_FAMILY, zone)).r.leases == map[SlotOf(zone, a) := Lease("s", {ME})]
  {
    hide Notes, Step, LeaseMissing, IsIPv4, IsIPv6, ParsesInt, Answering, Prefixed, Creation, UpdateAddress, Sendable;
    var m4, r := Notes(a, IPV4_FAMILY, zone, DEFAULT_SECRET_NAME, "0"), Holding(map[], [Done(a), Refused]);
    var l := LeaseMissing(Notes("", IPV4_FAMILY, zone, DEFAULT_SECRET_NAME, "0"), ME, "s", r);
    LeasesFour(zone, DEFAULT_SECRET_NAME, "s", r, a);
    ZeroParses();
    NotesRead(a, IPV4_FAMILY, zone, DEFAULT_SECRET_NAME, "0");
    ListOfOne(m4, a);
    Refuses(a, IPV4_FAMILY, m4, ME, "s", "s", l.reg);
    FirstCreation(IPV4_FAMILY, zone, r, a, l);
    Stores([], map[]);
    OneLease(zone, a);
  }

  // ---------------------------------------------------------------- rejected updates

  /** A stored Service with one IPv4 address, its lease and its pool. */
  function StoredFour(zone: string, a: string): Svc {
    Balancer(ME, Notes(a, IPV4_FAMILY, zone, DEFAULT_SECRET_NAME, "0"))
  }

  function Submission(text: string, family: string, zone: string): Op {
    UpdateOp(Balancer(ME, Notes(text, family, zone, DEFAULT_SECRET_NAME, "0")), false, "", "")
  }

  /** The plan of an update of that Service, read off the two texts. */
  lemma FourPlan(zone: string, a: string, next: Svc, zone2: string, text: string, family: string,
                 c: Pools.Cluster)
    requires next == Balancer(ME, Notes(text, family, zone2, DEFAULT_SECRET_NAME, "0"))
    requires c.secrets == SECRETS && IsValidIp(a) && (text != a || zone != zone2)
    ensures var p := PlanFor(StoredFour(zone, a), next, "", c);
            && p.before != p.after && Sendable(p.before) && Sendable(p.after)
            && Get(p.before, Zone) == zone && Get(p.after, Zone) == zone2
            && p.added == Without(AddressList(next.annotations), [a]) && p.kept == Within(AddressList(next.annotations), [a])
            && p.removed == Without([a], AddressList(next.annotations))
            && p.oldSecret == "s" && p.newSecret == "s" && Get(p.before, SecretName) == Get(p.after, SecretName)
            && Pools.HasSecret(c, ME, p.before) && Pools.HasSecret(c, ME, p.after)
  {
    hide Notes, M.Complete, IsIPv4, IsIPv6, ParsesInt, PlanFor, AddressList, Without, Within, IpamPart, Sendable;
    var prev := StoredFour(zone, a);
    NotesRead(a, IPV4_FAMILY, zone, DEFAULT_SECRET_NAME, "0");
    NotesRead(text, family, zone2, DEFAULT_SECRET_NAME, "0");
    ZeroParses();
    PlanOfComplete(prev, next, "", c);
    IpamReads(prev.annotations);
    IpamReads(next.annotations);
    ListOfOne(prev.annotations, a);
    assert Pools.SecretRef(ME, prev.annotations) == Id("ipam-system", DEFAULT_SECRET_NAME);
    assert Pools.SecretRef(ME, next.annotations) == Id("ipam-system", DEFAULT_SECRET_NAME);
  }

  /** The update hook's part in an update of that Service that the IPAM side rejects. */
  lemma FourRejected(zone: string, a: string, r: Register, text: string, family: string, zone2: string,
                     l: Leasing, text2: string)
    requires IsValidIp(a) && (text2 != a || zone != zone2) && KnownFamily(family)
    requires text == "" || ValidList(AddressList(Notes(text, family, zone2, DEFAULT_SECRET_NAME, "0")))
    requires l == LeaseMissing(Notes(text, family, zone2, DEFAULT_SECRET_NAME, "0"), ME, "s", r) && l.ok
    requires l.annotations == Notes(text2, family, zone2, DEFAULT_SECRET_NAME, "0")
    requires var p := PlanFor(StoredFour(zone, a), Balancer(ME, l.annotations), "", Answering([StoredFour(zone, a)], map[zone := [Prefixed(a)]]));
             !UpdateLeases(ME, p, l.reg).ok
    ensures var prev := StoredFour(zone, a);
            var c := Answering([prev], map[zone := [Prefixed(a)]]);
            var after := Step(World(c, r), Submission(text, family, zone2));
            after.c.services == c.services
            && after.r == UpdateLeases(ME, PlanFor(prev, Balancer(ME, l.annotations), "", c), l.reg).reg
  {
    hide Notes, Step, LeaseMissing, M.Complete, IsIPv4, IsIPv6, ParsesInt, Answering, PlanFor, UpdateLeases, Sendable,
         Prefixed, CountWith, AddressList, SECRETS;
    var prev := StoredFour(zone, a);
    var c := Answering([prev], map[zone := [Prefixed(a)]]);
    var obj, next := Balancer(ME, Notes(text, family, zone2, DEFAULT_SECRET_NAME, "0")), Balancer(ME, l.annotations);
    Stores([prev], map[zone := [Prefixed(a)]]);
    NotesRead(text, family, zone2, DEFAULT_SECRET_NAME, "0");
    NotesRead(text2, family, zone2, DEFAULT_SECRET_NAME, "0");
    Secrets([prev], map[zone := [Prefixed(a)]], ME, obj.annotations);
    FourPlan(zone, a, next, zone2, text2, family, c);
    assert IndexOf(c.services, ME) == 0;
    UpdateDecided(World(c, r), 0, obj, "", "", next, l, PlanFor(prev, next, "", c));
  }

  /** Two new addresses, the first refused: it is released, and that is all. */
  lemma FirstGivenBack(b: string, a: string, p: Plan, r: Register)
    requires p.added == [b, a] && p.kept == [] && Sendable(p.after) && IsValidIp(b)
    requires |r.replies| >= 2 && r.replies[0] == Refused && r.replies[1].Done?
    requires HeldBy(r.leases, SlotOf(Get(p.after, Zone), b), ME, p.newSecret)
    ensures var refused := Posted(r, r.leases, true, false);
            UpdateLeases(ME, p, r)
            == Rotated(false, Deleted(refused, Drop(r.leases, SlotOf(Get(p.after, Zone), b), ME), false, false))
  {
    hide UpdateAddress, RemoveAddress, Sendable, IsValidIp, Drop;
    Refuses(b, IPV6_FAMILY, p.after, ME, p.newSecret, "", r);
    Releases(b, p.after, ME, p.newSecret, Posted(r, r.leases, true, false));
  }

  lemma TwoGranted(held: Leases, s: Slot, t: Slot, lease: Lease, id: Id)
    requires s !in held && t !in held && s != t && lease.members == {id}
    ensures Drop(held[s := lease][t := lease], t, id) == held[s := lease]
    ensures held[s := lease] != held
  {
    assert s in held[s := lease];
  }

  lemma Apart(news: seq<string>, olds: seq<string>)
    requires forall a | a in news :: a !in olds
    ensures Without(news, olds) == news && Within(news, olds) == []
  {
    WithoutNone(news, olds);
    WithinNone(news, olds);
  }

  /** The IPAM side when both families were leased and the first new address is refused. */
  lemma SecondKept(zone: string, o: string, a: string, b: string, held: Leases, r: Register, l: Leasing, c: Pools.Cluster)
    requires IsIPv4(o) && IsIPv4(a) && IsIPv6(b) && a != o && c.secrets == SECRETS
    requires SlotOf(zone, a) !in held && SlotOf(zone, b) !in held
    requires l.annotations == Notes(b + "," + a, DUAL_FAMILY, zone, DEFAULT_SECRET_NAME, "0")
    requires l.reg.leases == held[SlotOf(zone, a) := Lease("s", {ME})][SlotOf(zone, b) := Lease("s", {ME})]
    requires l.reg.replies == [Refused, Done("")] && l.reg.tally == r.tally.(sent := 2)
    ensures var u := UpdateLeases(ME, PlanFor(StoredFour(zone, o), Balancer(ME, l.annotations), "", c), l.reg);
            && !u.ok && u.reg.leases == held[SlotOf(zone, a) := Lease("s", {ME})]
            && u.reg.tally.lost == r.tally.lost && u.reg.tally.deletesFailed == r.tally.deletesFailed
    ensures b + "," + a != o
  {
    hide Notes, IsIPv4, IsIPv6, UpdateLeases, Sendable, PlanFor, AddressList, Prefixed, SECRETS, CountWith, Drop, StoredFour;
    var text := b + "," + a;
    ValidText(a);
    ValidText(b);
    ValidText(o);
    assert text[|b|] in text;
    OtherSlot(zone, b, zone, a);
    NotesRead(text, DUAL_FAMILY, zone, DEFAULT_SECRET_NAME, "0");
    ListOfTwo(l.annotations, b, a);
    FourPlan(zone, o, Balancer(ME, l.annotations), zone, text, DUAL_FAMILY, c);
    Apart([b, a], [o]);
    FirstGivenBack(b, a, PlanFor(StoredFour(zone, o), Balancer(ME, l.annotations), "", c), l.reg);
    TwoGranted(held, SlotOf(zone, a), SlotOf(zone, b), Lease("s", {ME}), ME);
  }

  /** A Service that holds an IPv4 address becomes dual-stack without an address text of its own. Of the two fresh
      addresses the first is refused on validation: only it is released, the second stays leased. */
  lemma SecondFreshLeaks(zone: string, o: string, a: string, b: string)
    requires IsIPv4(o) && IsIPv4(a) && IsIPv6(b) && a != o
    ensures var held := map[SlotOf(zone, o) := Lease("s", {ME})];
            var w := World(Answering([StoredFour(zone, o)], map[zone := [Prefixed(o)]]),
                           Holding(held, [Done(a), Done(b), Refused, Done("")]));
            && Leaks(w, Submission("", DUAL_FAMILY, zone))
            && Step(w, Submission("", DUAL_FAMILY, zone)).r.leases == held[SlotOf(zone, a) := Lease("s", {ME})]
  {
    hide Notes, Step, LeaseMissing, IsIPv4, IsIPv6, Answering, UpdateLeases, PlanFor, AddressList, Prefixed, SECRETS,
         CountWith, Drop, StoredFour, Submission;
    var held := map[SlotOf(zone, o) := Lease("s", {ME})];
    var c := Answering([StoredFour(zone, o)], map[zone := [Prefixed(o)]]);
    var r := Holding(held, [Done(a), Done(b), Refused, Done("")]);
    ValidText(a);
    ValidText(b);
    OtherSlot(zone, a, zone, o);
    OtherSlot(zone, b, zone, o);
    LeasesBoth(zone, DEFAULT_SECRET_NAME, "s", r, a, b);
    Stores([StoredFour(zone, o)], map[zone := [Prefixed(o)]]);
    var l := LeaseMissing(Notes("", DUAL_FAMILY, zone, DEFAULT_SECRET_NAME, "0"), ME, "s", r);
    SecondKept(zone, o, a, b, held, r, l, c);
    FourRejected(zone, o, r, "", DUAL_FAMILY, zone, l, b + "," + a);
    TwoGranted(held, SlotOf(zone, a), SlotOf(zone, b), Lease("s", {ME}), ME) by { OtherSlot(zone, b, zone, a); }
  }

  /** The requests of this module work for every address of the family they name; here is one of them in full. */
  lemma SampleLeak()
    ensures var held := map[SlotOf("zone", "10.0.0.9") := Lease("s", {ME})];
            Leaks(World(Answering([StoredFour("zone", "10.0.0.9")], map["zone" := [Prefixed("10.0.0.9")]]),
                        Holding(held, [Done("10.0.0.1"), Done("2001:db8::1"), Refused, Done("")])),
                  Submission("", DUAL_FAMILY, "zone"))
  {
    hide Leaks, Answering, StoredFour, Submission, Holding, Prefixed;
    assert IsIPv4("10.0.0.1") && IsIPv4("10.0.0.9") && IsIPv6("2001:db8::1");
    SecondFreshLeaks("zone", "10.0.0.9", "10.0.0.1", "2001:db8::1");
  }

  /** A zone change whose fresh address has the text of an old one: the text counts as kept, the update is rejected,
      and nothing is released. */
  lemma FreshOldTextLeaks(zone: string, zone2: string, a: string)
    requires IsIPv4(a) && zone != zone2
    ensures var held := map[SlotOf(zone, a) := Lease("s", {ME})];
            var w := World(Answering([StoredFour(zone, a)], map[zone := [Prefixed(a)]]), Holding(held, [Done(a)]));
            && Leaks(w, Submission("", IPV4_FAMILY, zone2))
            && Step(w, Submission("", IPV4_FAMILY, zone2)).r.leases == held[SlotOf(zone2, a) := Lease("s", {ME})]
  {
    hide Notes, Step, LeaseMissing, IsIPv4, ParsesInt, Answering, Sendable,
         PlanFor, AddressList, Prefixed, SECRETS, CountWith, StoredFour, Submission;
    var held := map[SlotOf(zone, a) := Lease("s", {ME})];
    var c := Answering([StoredFour(zone, a)], map[zone := [Prefixed(a)]]);
    var r := Holding(held, [Done(a)]);
    var next := Balancer(ME, Notes(a, IPV4_FAMILY, zone2, DEFAULT_SECRET_NAME, "0"));
    OtherSlot(zone, a, zone2, a);
    LeasesFour(zone2, DEFAULT_SECRET_NAME, "s", r, a);
    NotesRead(a, IPV4_FAMILY, zone2, DEFAULT_SECRET_NAME, "0");
    ListOfOne(next.annotations, a);
    Stores([StoredFour(zone, a)], map[zone := [Prefixed(a)]]);
    FourPlan(zone, a, next, zone2, a, IPV4_FAMILY, c);
    var l := LeaseMissing(Notes("", IPV4_FAMILY, zone2, DEFAULT_SECRET_NAME, "0"), ME, "s", r);
    assert Within([a], [a]) == [a] && Without([a], [a]) == [];
    FourRejected(zone, a, r, "", IPV4_FAMILY, zone2, l, a);
    assert SlotOf(zone2, a) in l.reg.leases;
  }

  /** A Service asks for an address it holds from before and for a foreign one. The foreign one is refused, and the
      rejection releases the first new address: the lease held from before is gone. */
  lemma HeldFirstLost(zone: string, o: string, a: string, b: string)
    requires IsIPv4(o) && IsIPv4(a) && IsIPv6(b) && a != o
    ensures var held := map[SlotOf(zone, o) := Lease("s", {ME})];
            var w := World(Answering([StoredFour(zone, o)], map[zone := [Prefixed(o)]]),
                           Holding(held[SlotOf(zone, b) := Lease("s", {ME})], [Done(""), Refused, Done("")]));
            && Leaks(w, Submission(b + "," + a, DUAL_FAMILY, zone))
            && Step(w, Submission(b + "," + a, DUAL_FAMILY, zone)).r.leases == held
  {
    hide Notes, Step, LeaseMissing, IsIPv4, IsIPv6, Answering, UpdateLeases, PlanFor, AddressList, Prefixed, SECRETS,
         CountWith, Drop, StoredFour, Submission, Sendable, ParsesInt;
    var held := map[SlotOf(zone, o) := Lease("s", {ME})];
    var c := Answering([StoredFour(zone, o)], map[zone := [Prefixed(o)]]);
    var r := Holding(held[SlotOf(zone, b) := Lease("s", {ME})], [Done(""), Refused, Done("")]);
    var text := b + "," + a;
    var m := Notes(text, DUAL_FAMILY, zone, DEFAULT_SECRET_NAME, "0");
    ValidText(a);
    ValidText(b);
    ValidText(o);
    assert text[|b|] in text;
    OtherSlot(zone, b, zone, o);
    NotesRead(text, DUAL_FAMILY, zone, DEFAULT_SECRET_NAME, "0");
    TextShaped(m, b, a);
    M.LeasingFixpoint(m, ME, "s", r);
    ListOfTwo(m, b, a);
    Stores([StoredFour(zone, o)], map[zone := [Prefixed(o)]]);
    FourPlan(zone, o, Balancer(ME, m), zone, text, DUAL_FAMILY, c);
    Apart([b, a], [o]);
    SecondRefused(b, a, PlanFor(StoredFour(zone, o), Balancer(ME, m), "", c), r);
    FourRejected(zone, o, r, text, DUAL_FAMILY, zone, Leasing(true, m, None, None, r), text);
    DropHeld(held, SlotOf(zone, b), Lease("s", {ME}), ME);
  }

  lemma TextShaped(m: Annotations, b: string, a: string)
    requires IsIPv6(b) && IsIPv4(a) && M.Complete(m) && KnownFamily(Get(m, IpFamily)) && Get(m, Addresses) == b + "," + a
    ensures M.Shaped(m) && Reconcilable(m)
  {
    hide CountWith, AddressList;
    ListOfTwo(m, b, a);
    var text := b + "," + a;
    assert text[..|b|] == b && text[|b| + 1..] == a;
    assert ':' in text && '.' in text by {
      assert forall ch :: ch in b ==> ch in text;
      assert forall ch :: ch in a ==> ch in text;
    }
  }

  lemma DropHeld(held: Leases, s: Slot, lease: Lease, id: Id)
    requires s !in held && lease.members == {id}
    ensures Drop(held[s := lease], s, id) == held && held[s := lease] != held
  {
    assert s in held[s := lease];
  }

  /** Two new addresses, the first held already, the second refused: the first is released. */
  lemma SecondRefused(b: string, a: string, p: Plan, r: Register)
    requires p.added == [b, a] && p.kept == [] && Sendable(p.after) && IsValidIp(b) && IsValidIp(a)
    requires r.replies == [Done(""), Refused, Done("")]
    requires HeldBy(r.leases, SlotOf(Get(p.after, Zone), b), ME, p.newSecret)
    ensures var u := UpdateLeases(ME, p, r);
            && !u.ok && u.reg.leases == Drop(r.leases, SlotOf(Get(p.after, Zone), b), ME)
            && u.reg.tally.lost == r.tally.lost && u.reg.tally.deletesFailed == r.tally.deletesFailed
  {
    hide UpdateAddress, RemoveAddress, Sendable, IsValidIp, Drop;
    var slot := SlotOf(Get(p.after, Zone), b);
    assert r.leases[slot].members + {ME} == r.leases[slot].members;
    assert Enlist(r.leases, slot, p.newSecret, ME) == r.leases;
    Validates(b, p.after, ME, p.newSecret, r);
    var first := Posted(r, r.leases, false, false);
    Refuses(a, IPV4_FAMILY, p.after, ME, p.newSecret, "", first);
    var second := Posted(first, first.leases, true, false);
    assert [b, a][1..] == [a];
    assert ValidateEach([a], p.after, ME, p.newSecret, first) == Progress(0, second);
    Releases(b, p.after, ME, p.newSecret, second);
  }

  // ---------------------------------------------------------------- secret rotation

  function Rotating(text: string, zone: string, secret: string, days: string): Svc {
    Balancer(ME, Notes(text, DUAL_FAMILY, zone, secret, days))
  }

  function Resubmit(svc: Svc): Op { UpdateOp(svc, false, "", "") }

  /** Two kept addresses, the second rotation refused, stored annotations that do not parse: no revert is sent. */
  lemma HalfWay(b: string, a: string, p: Plan, r: Register)
    requires p.kept == [b, a] && p.added == [] && Sendable(p.after) && !Sendable(p.before) && IsValidIp(b) && IsValidIp(a)
    requires Get(p.before, Zone) == Get(p.after, Zone) && Get(p.before, SecretName) != Get(p.after, SecretName)
    requires r.replies == [Done(""), Refused]
    requires HeldBy(r.leases, SlotOf(Get(p.after, Zone), b), ME, p.oldSecret)
    ensures var u, slot := UpdateLeases(ME, p, r), SlotOf(Get(p.after, Zone), b);
            && !u.ok && u.reg.leases == r.leases[slot := r.leases[slot].(secret := p.newSecret)]
            && u.reg.tally.lost == r.tally.lost && u.reg.tally.deletesFailed == r.tally.deletesFailed
  {
    hide RotateSecret, Sendable, IsValidIp;
    Rekeys(b, p.after, ME, p.oldSecret, p.newSecret, r);
    var first := RotateSecret(b, p.after, ME, p.oldSecret, p.newSecret, r).reg;
    Refuses(a, IPV4_FAMILY, p.after, ME, p.oldSecret, p.newSecret, first);
    var second := Posted(first, first.leases, true, false);
    NotSent(b, p.before, p.newSecret, p.oldSecret, second);
    assert RotateFrom(p.kept, 1, p.before, p.after, ME, p.oldSecret, p.newSecret, first) == Rotated(false, second);
    assert RotateFrom(p.kept, 0, p.before, p.after, ME, p.oldSecret, p.newSecret, r) == Rotated(false, second);
  }

  lemma NotSent(a: string, m: Annotations, oldSecret: string, newSecret: string, r: Register)
    requires !Sendable(m)
    ensures RotateSecret(a, m, ME, oldSecret, newSecret, r) == Ipam.Answer(None, r)
  {
    hide Sendable;
  }

  /** A rotation of two addresses for a Service whose stored annotations do not parse any more, refused half way. */
  lemma RotationHalted(zone: string, a: string, b: string, c: Pools.Cluster, r: Register)
    requires IsIPv4(a) && IsIPv6(b) && Up(c, 5) && c.secrets == SECRETS
    requires c.services == [Rotating(b + "," + a, zone, "mine", "soon")] && r.replies == [Done(""), Refused]
    requires r.leases == map[SlotOf(zone, b) := Lease("old", {ME}), SlotOf(zone, a) := Lease("old", {ME})]
    ensures var after := Step(World(c, r), Resubmit(Rotating(b + "," + a, zone, "theirs", "0")));
            && after.c.services == c.services
            && after.r.leases == r.leases[SlotOf(zone, b) := Lease("new", {ME})]
            && after.r.tally.lost == r.tally.lost && after.r.tally.deletesFailed == r.tally.deletesFailed
  {
    hide Notes, Step, LeaseMissing, IsIPv4, IsIPv6, UpdateLeases, PlanFor, AddressList, Prefixed, SECRETS,
         CountWith, Sendable, ParsesInt, IpamPart, M.Complete, Without, Within;
    var text := b + "," + a;
    var prev, obj := Rotating(text, zone, "mine", "soon"), Rotating(text, zone, "theirs", "0");
    NotesRead(text, DUAL_FAMILY, zone, "mine", "soon");
    NotesRead(text, DUAL_FAMILY, zone, "theirs", "0");
    ZeroParses();
    TextShaped(obj.annotations, b, a);
    M.LeasingFixpoint(obj.annotations, ME, "new", r);
    PlanOfComplete(prev, obj, "", c);
    IpamReads(prev.annotations);
    IpamReads(obj.annotations);
    ListOfTwo(prev.annotations, b, a);
    ListOfTwo(obj.annotations, b, a);
    SmoothSteps.SameLists([b, a]);
    ValidText(a);
    ValidText(b);
    OtherSlot(zone, b, zone, a);
    NamedSecrets(c, prev.annotations);
    NamedSecrets(c, obj.annotations);
    var p := PlanFor(prev, obj, "", c);
    assert IndexOf(c.services, ME) == 0;
    HalfWay(b, a, p, r);
    UpdateDecided(World(c, r), 0, obj, "", "", obj, Leasing(true, obj.annotations, None, None, r), p);
  }

  lemma NamedSecrets(c: Pools.Cluster, m: Annotations)
    requires c.secrets == SECRETS
    ensures Get(m, SecretName) == "mine" ==> Pools.HasSecret(c, ME, m) && Pools.SecretValue(c, ME, m) == "old"
    ensures Get(m, SecretName) == "theirs" ==> Pools.HasSecret(c, ME, m) && Pools.SecretValue(c, ME, m) == "new"
  {
  }

  /** Two requests: the first makes the stored retention text unparsable and is committed without a call; the second
      gives it back and changes the secret, fails at the second address, and leaves the first under the new value. */
  lemma RevertNotSent(zone: string, a: string, b: string)
    requires IsIPv4(a) && IsIPv6(b)
    ensures var text := b + "," + a;
            var leases := map[SlotOf(zone, b) := Lease("old", {ME}), SlotOf(zone, a) := Lease("old", {ME})];
            var w := World(Answering([Rotating(text, zone, "mine", "0")], map[zone := [Prefixed(b), Prefixed(a)]]),
                           Holding(leases, [Done(""), Refused]));
            var between := Step(w, Resubmit(Rotating(text, zone, "mine", "soon")));
            var op := Resubmit(Rotating(text, zone, "theirs", "0"));
            && between.r == w.r && between.c.services == [Rotating(text, zone, "mine", "soon")]
            && Leaks(between, op) && Step(between, op).r.leases == leases[SlotOf(zone, b) := Lease("new", {ME})]
  {
    hide Notes, Step, IsIPv4, IsIPv6, Answering, Prefixed, SECRETS, M.Shaped, IndexOf;
    var text, pools := b + "," + a, map[zone := [Prefixed(b), Prefixed(a)]];
    var leases := map[SlotOf(zone, b) := Lease("old", {ME}), SlotOf(zone, a) := Lease("old", {ME})];
    var prev := Rotating(text, zone, "mine", "0");
    var w := World(Answering([prev], pools), Holding(leases, [Done(""), Refused]));
    QuietFirst(zone, a, b, w);
    RotationHalted(zone, a, b, Step(w, Resubmit(Rotating(text, zone, "mine", "soon"))).c, w.r);
    ValidText(a);
    ValidText(b);
    OtherSlot(zone, b, zone, a);
    assert leases[SlotOf(zone, b) := Lease("new", {ME})][SlotOf(zone, b)] != leases[SlotOf(zone, b)];
  }

  lemma QuietFirst(zone: string, a: string, b: string, w: World)
    requires IsIPv4(a) && IsIPv6(b)
    requires w.c == Answering([Rotating(b + "," + a, zone, "mine", "0")], map[zone := [Prefixed(b), Prefixed(a)]])
    ensures var after := Step(w, Resubmit(Rotating(b + "," + a, zone, "mine", "soon")));
            && after.r == w.r && after.c.services == [Rotating(b + "," + a, zone, "mine", "soon")]
            && Up(after.c, 5) && after.c.secrets == SECRETS
  {
    hide Notes, Step, IsIPv4, IsIPv6, Prefixed, SECRETS, M.Shaped, LeaseMissing, PlanFor, UpdateLeases, ParsesInt, CountWith, AddressList;
    var text := b + "," + a;
    var prev := Rotating(text, zone, "mine", "0");
    NotesRead(text, DUAL_FAMILY, zone, "mine", "0");
    TextShaped(prev.annotations, b, a);
    NamedSecrets(w.c, prev.annotations);
    assert IndexOf(w.c.services, prev.id) == 0;
    NotesDays(text, DUAL_FAMILY, zone, "mine", "0", "soon");
    NotesRead(text, DUAL_FAMILY, zone, "mine", "soon");
    UnparsableAccepted(w, 0, RetentionDays, "soon", "", "");
    assert w.c.services[0 := Rotating(text, zone, "mine", "soon")] == [Rotating(text, zone, "mine", "soon")];
  }

  lemma NotesDays(text: string, family: string, zone: string, secret: string, days: string, days2: string)
    ensures Notes(text, family, zone, secret, days)[RetentionDays := days2] == Notes(text, family, zone, secret, days2)
  {
  }

  // ---------------------------------------------------------------- rejected changes of the type

  /** A submitted object that stops being a load balancer: the mutating hook does not look at it. */
  function Downgrading(text: string, family: string, zone: string, secret: string): Op {
    UpdateOp(Balancer(ME, Notes(text, family, zone, secret, "0")).(kind := NodePort), false, "", "")
  }

  lemma ListOfThree(m: Annotations, x: string, y: string, z: string)
    requires IsValidIp(x) && IsValidIp(y) && IsValidIp(z) && Get(m, Addresses) == x + "," + y + "," + z
    ensures AddressList(m) == [x, y, z]
  {
    hide IsValidIp;
    ValidText(x);
    ValidText(y);
    ValidText(z);
    assert x + "," + y + "," + z == x + "," + (y + "," + z);
    SplitNone(z, ',');
    SplitPrepend(y, z, ',');
    SplitPrepend(x, y + "," + z, ',');
  }

  /** Three new addresses, the last refused: the first is released and the second stays. */
  lemma MiddleKept(x: string, y: string, z: string, p: Plan, r: Register)
    requires p.added == [x, y, z] && p.kept == [] && Sendable(p.after) && x != y
    requires IsValidIp(x) && IsValidIp(y) && IsValidIp(z)
    requires r.replies == [Done(""), Done(""), Refused, Done("")]
    requires SlotOf(Get(p.after, Zone), x) !in r.leases && SlotOf(Get(p.after, Zone), y) !in r.leases
    ensures var u := UpdateLeases(ME, p, r);
            && !u.ok && u.reg.leases == r.leases[SlotOf(Get(p.after, Zone), y) := Lease(p.newSecret, {ME})]
            && u.reg.tally.lost == r.tally.lost && u.reg.tally.deletesFailed == r.tally.deletesFailed
  {
    hide UpdateAddress, RemoveAddress, Sendable, IsValidIp;
    var sx, sy := SlotOf(Get(p.after, Zone), x), SlotOf(Get(p.after, Zone), y);
    OtherSlot(Get(p.after, Zone), x, Get(p.after, Zone), y);
    Validates(x, p.after, ME, p.newSecret, r);
    var first := Posted(r, r.leases[sx := Lease(p.newSecret, {ME})], false, false);
    Validates(y, p.after, ME, p.newSecret, first);
    var second := Posted(first, first.leases[sy := Lease(p.newSecret, {ME})], false, false);
    Refuses(z, IPV4_FAMILY, p.after, ME, p.newSecret, "", second);
    var third := Posted(second, second.leases, true, false);
    assert [x, y, z][1..] == [y, z] && [y, z][1..] == [z];
    assert ValidateEach([z], p.after, ME, p.newSecret, second) == Progress(0, third);
    assert ValidateEach([y, z], p.after, ME, p.newSecret, first) == Progress(1, third);
    assert ValidateEach([x, y, z], p.after, ME, p.newSecret, r) == Progress(2, third);
    Releases(x, p.after, ME, p.newSecret, third);
    SwapGrants(r.leases, sx, sy, Lease(p.newSecret, {ME}), ME);
  }

  lemma SwapGrants(held: Leases, s: Slot, t: Slot, lease: Lease, id: Id)
    requires s !in held && t !in held && s != t && lease.members == {id}
    ensures Drop(held[s := lease][t := lease], s, id) == held[t := lease]
    ensures held[t := lease] != held
  {
    assert t in held[t := lease];
  }

  /** A load balancer becomes another type with three new addresses, the last of which is refused: the release of the
      first leaves the second leased, although no address is fresh and none was held before. */
  lemma DowngradeLeaks(zone: string, o: string, x: string, y: string, z: string)
    requires IsIPv4(o) && IsIPv4(x) && IsIPv4(y) && IsIPv4(z) && o !in [x, y, z] && x != y
    ensures var held := map[SlotOf(zone, o) := Lease("s", {ME})];
            var w := World(Answering([StoredFour(zone, o)], map[zone := [Prefixed(o)]]),
                           Holding(held, [Done(""), Done(""), Refused, Done("")]));
            var op := Downgrading(x + "," + y + "," + z, IPV4_FAMILY, zone, DEFAULT_SECRET_NAME);
            Leaks(w, op) && Step(w, op).r.leases == held[SlotOf(zone, y) := Lease("s", {ME})]
  {
    hide Notes, Step, IsIPv4, Answering, UpdateLeases, PlanFor, AddressList, Prefixed, SECRETS, Sendable, ParsesInt, IpamPart,
         M.Complete, Without, Within, IsValidIp;
    var text := x + "," + y + "," + z;
    var prev, obj := StoredFour(zone, o), Balancer(ME, Notes(text, IPV4_FAMILY, zone, DEFAULT_SECRET_NAME, "0")).(kind := NodePort);
    var held := map[SlotOf(zone, o) := Lease("s", {ME})];
    var r := Holding(held, [Done(""), Done(""), Refused, Done("")]);
    var c := Answering([prev], map[zone := [Prefixed(o)]]);
    NotesRead(o, IPV4_FAMILY, zone, DEFAULT_SECRET_NAME, "0");
    NotesRead(text, IPV4_FAMILY, zone, DEFAULT_SECRET_NAME, "0");
    ZeroParses();
    FourValid(o);
    FourValid(x);
    FourValid(y);
    FourValid(z);
    Stores([prev], map[zone := [Prefixed(o)]]);
    Secrets([prev], map[zone := [Prefixed(o)]], ME, prev.annotations);
    Secrets([prev], map[zone := [Prefixed(o)]], ME, obj.annotations);
    PlanOfComplete(prev, obj, "", c);
    IpamReads(prev.annotations);
    IpamReads(obj.annotations);
    ListOfOne(prev.annotations, o);
    ListOfThree(obj.annotations, x, y, z);
    ValidText(o);
    assert text[|x|] in text;
    Apart([x, y, z], [o]);
    OtherSlot(zone, x, zone, o);
    OtherSlot(zone, y, zone, o);
    OtherSlot(zone, x, zone, y);
    var p := PlanFor(prev, obj, "", c);
    MiddleKept(x, y, z, p, r);
    assert IndexOf(c.services, ME) == 0;
    DowngradeDecided(World(c, r), 0, obj, "", "", p);
    SwapGrants(held, SlotOf(zone, x), SlotOf(zone, y), Lease("s", {ME}), ME);
  }

  lemma FourValid(a: string)
    requires IsIPv4(a)
    ensures IsValidIp(a)
  {
  }

  /** Two kept addresses, the first one repeated behind the second: the third rotation finds it under the new secret
      and fails, and there is no revert for a third address. */
  lemma ThirdFails(b: string, a: string, p: Plan, r: Register)
    requires p.kept == [b, a, b] && p.added == [] && Sendable(p.after) && a != b && IsValidIp(a) && IsValidIp(b)
    requires Get(p.before, Zone) == Get(p.after, Zone) && Get(p.before, SecretName) != Get(p.after, SecretName)
    requires r.replies == [Done(""), Done(""), Done("")] && p.oldSecret != p.newSecret
    requires HeldBy(r.leases, SlotOf(Get(p.after, Zone), b), ME, p.oldSecret)
    requires HeldBy(r.leases, SlotOf(Get(p.after, Zone), a), ME, p.oldSecret)
    ensures var u, sb, sa := UpdateLeases(ME, p, r), SlotOf(Get(p.after, Zone), b), SlotOf(Get(p.after, Zone), a);
            && !u.ok && u.reg.tally.lost == r.tally.lost && u.reg.tally.deletesFailed == r.tally.deletesFailed
            && u.reg.leases == r.leases[sb := r.leases[sb].(secret := p.newSecret)][sa := r.leases[sa].(secret := p.newSecret)]
  {
    hide RotateSecret, Sendable, IsValidIp;
    var m := p.after;
    var sb, sa := SlotOf(Get(m, Zone), b), SlotOf(Get(m, Zone), a);
    OtherSlot(Get(m, Zone), a, Get(m, Zone), b);
    Rekeys(b, m, ME, p.oldSecret, p.newSecret, r);
    var first := RotateSecret(b, m, ME, p.oldSecret, p.newSecret, r).reg;
    Rekeys(a, m, ME, p.oldSecret, p.newSecret, first);
    var second := RotateSecret(a, m, ME, p.oldSecret, p.newSecret, first).reg;
    Mismatch(b, m, p.oldSecret, p.newSecret, second);
    var third := Posted(second, second.leases, true, false);
    assert RotateFrom(p.kept, 2, p.before, m, ME, p.oldSecret, p.newSecret, second) == Rotated(false, third);
    assert RotateFrom(p.kept, 1, p.before, m, ME, p.oldSecret, p.newSecret, first) == Rotated(false, third);
    assert RotateFrom(p.kept, 0, p.before, m, ME, p.oldSecret, p.newSecret, r) == Rotated(false, third);
  }

  lemma Mismatch(a: string, m: Annotations, oldSecret: string, newSecret: string, r: Register)
    requires Sendable(m) && IsValidIp(a) && NextReply(r).Done?
    requires SlotOf(Get(m, Zone), a) in r.leases && r.leases[SlotOf(Get(m, Zone), a)].secret != oldSecret
    ensures RotateSecret(a, m, ME, oldSecret, newSecret, r) == Ipam.Answer(None, Posted(r, r.leases, true, false))
  {
    hide Sendable, IsValidIp, Rewrite;
    RewriteValid(ME, m, oldSecret, Some(newSecret), a);
  }

  /** A load balancer becomes another type with a repeated address and another secret, and every call is answered: the
      update is rejected and both leases keep the new secret, although the stored annotations parse. */
  lemma RepeatedAddressRotates(zone: string, a: string, b: string)
    requires IsIPv4(a) && IsIPv6(b)
    ensures var leases := map[SlotOf(zone, b) := Lease("old", {ME}), SlotOf(zone, a) := Lease("old", {ME})];
            var w := World(Answering([Rotating(b + "," + a, zone, "mine", "0")], map[zone := [Prefixed(b), Prefixed(a)]]),
                           Holding(leases, [Done(""), Done(""), Done("")]));
            var op := Downgrading(b + "," + a + "," + b, DUAL_FAMILY, zone, "theirs");
            && Leaks(w, op)
            && Step(w, op).r.leases == map[SlotOf(zone, b) := Lease("new", {ME}), SlotOf(zone, a) := Lease("new", {ME})]
  {
    hide Notes, Step, IsIPv4, IsIPv6, Answering, UpdateLeases, PlanFor, AddressList, Prefixed, SECRETS, Sendable, ParsesInt,
         IpamPart, M.Complete, Without, Within, CountWith;
    var text, text2 := b + "," + a, b + "," + a + "," + b;
    var prev, obj := Rotating(text, zone, "mine", "0"), Balancer(ME, Notes(text2, DUAL_FAMILY, zone, "theirs", "0")).(kind := NodePort);
    var leases := map[SlotOf(zone, b) := Lease("old", {ME}), SlotOf(zone, a) := Lease("old", {ME})];
    var pools := map[zone := [Prefixed(b), Prefixed(a)]];
    var c, r := Answering([prev], pools), Holding(leases, [Done(""), Done(""), Done("")]);
    NotesRead(text, DUAL_FAMILY, zone, "mine", "0");
    NotesRead(text2, DUAL_FAMILY, zone, "theirs", "0");
    ZeroParses();
    ValidText(a);
    ValidText(b);
    OtherSlot(zone, b, zone, a);
    Stores([prev], pools);
    Secrets([prev], pools, ME, prev.annotations);
    Secrets([prev], pools, ME, obj.annotations);
    PlanOfComplete(prev, obj, "", c);
    IpamReads(prev.annotations);
    IpamReads(obj.annotations);
    ListOfTwo(prev.annotations, b, a);
    ListOfThree(obj.annotations, b, a, b);
    RepeatedDiff(b, a);
    var p := PlanFor(prev, obj, "", c);
    ThirdFails(b, a, p, r);
    assert IndexOf(c.services, ME) == 0;
    DowngradeDecided(World(c, r), 0, obj, "", "", p);
    assert leases[SlotOf(zone, b)].secret == "old";
  }

  lemma RepeatedDiff(b: string, a: string)
    ensures Without([b, a, b], [b, a]) == [] && Within([b, a, b], [b, a]) == [b, a, b]
  {
    AllWithin([b, a, b], [b, a]);
    WithoutAll([b, a, b], [b, a]);
  }

  // ---------------------------------------------------------------- committed changes of the type

  /** One new address for the one held: the new one is leased and the old one released. */
  lemma Swaps(p: Plan, a: string, b: string, r: Register)
    requires p.added == [b] && p.kept == [] && p.removed == [a] && Sendable(p.after) && Sendable(p.before)
    requires IsValidIp(a) && IsValidIp(b) && a != b && Get(p.before, Zone) == Get(p.after, Zone)
    requires r.replies == [Done(""), Done("")] && p.oldSecret == p.newSecret
    requires r.leases == map[SlotOf(Get(p.after, Zone), a) := Lease(p.newSecret, {ME})]
    ensures var u := UpdateLeases(ME, p, r);
            u.ok && u.reg.leases == map[SlotOf(Get(p.after, Zone), b) := Lease(p.newSecret, {ME})]
  {
    hide UpdateAddress, RemoveAddress, Sendable, IsValidIp;
    var sa, sb := SlotOf(Get(p.after, Zone), a), SlotOf(Get(p.after, Zone), b);
    OtherSlot(Get(p.after, Zone), a, Get(p.after, Zone), b);
    Validates(b, p.after, ME, p.newSecret, r);
    var first := Posted(r, r.leases[sb := Lease(p.newSecret, {ME})], false, false);
    Releases(a, p.before, ME, p.oldSecret, first);
    assert ValidateEach([b], p.after, ME, p.newSecret, r) == Progress(1, first);
    assert ReleaseEach([a], p.before, ME, p.oldSecret, first) == RemoveAddress(a, p.before, ME, p.oldSecret, first).reg;
    assert Drop(first.leases, sa, ME) == map[sb := Lease(p.newSecret, {ME})];
  }

  lemma OneExact(svc: Svc, zone: string, a: string, w: World)
    requires w.c.services == [svc] && w.c.pools == map[zone := [Prefixed(a)]] && IsIPv4(a)
    requires svc.kind == LoadBalancer && ZoneOf(svc) == zone
    requires AddressList(svc.annotations) == [a] && ValidList([a])
    ensures PoolsExact(w)
  {
    hide IsIPv4, Prefixed, AddressList, CountWith;
    assert a in [a];
    assert Uses(w.c.services[0], zone, Prefixed(a));
  }

  /** A load balancer becomes another type with another address, and the update is committed: the address is leased and
      pooled for a Service that nobody serves. */
  lemma DowngradeLeaves(zone: string, a: string, b: string)
    requires IsIPv4(a) && IsIPv4(b) && a != b
    ensures var w := World(Answering([StoredFour(zone, a)], map[zone := [Prefixed(a)]]),
                           Holding(map[SlotOf(zone, a) := Lease("s", {ME})], [Done(""), Done("")]));
            var after := Step(w, Downgrading(b, IPV4_FAMILY, zone, DEFAULT_SECRET_NAME));
            && PoolsExact(w) && after.c.services == [Dormant(zone, b)] && after.c.faults == w.c.faults
            && after.r.leases == map[SlotOf(zone, b) := Lease("s", {ME})]
            && Prefixed(b) in Pools.PoolOf(after.c, zone) && !Needs(after.c.services, zone, Prefixed(b))
  {
    hide Notes, Step, IsIPv4, SECRETS, PlanFor, UpdateLeases, ParsesInt, CountWith, AddressList, Answering, IpamPart,
         M.Complete, Without, Within, UpdatePools, Prefixed, Pools.PoolOf, Sendable, PoolsExact, IsValidIp;
    var prev, obj := StoredFour(zone, a), Dormant(zone, b);
    var pools, r := map[zone := [Prefixed(a)]], Holding(map[SlotOf(zone, a) := Lease("s", {ME})], [Done(""), Done("")]);
    var c := Answering([prev], pools);
    NotesRead(a, IPV4_FAMILY, zone, DEFAULT_SECRET_NAME, "0");
    NotesRead(b, IPV4_FAMILY, zone, DEFAULT_SECRET_NAME, "0");
    ZeroParses();
    FourValid(a);
    FourValid(b);
    Stores([prev], pools);
    Secrets([prev], pools, ME, prev.annotations);
    Secrets([prev], pools, ME, obj.annotations);
    PlanOfComplete(prev, obj, "", c);
    IpamReads(prev.annotations);
    IpamReads(obj.annotations);
    ListOfOne(prev.annotations, a);
    ListOfOne(obj.annotations, b);
    Apart([b], [a]);
    Apart([a], [b]);
    var p := PlanFor(prev, obj, "", c);
    Swaps(p, a, b, r);
    assert IndexOf(c.services, ME) == 0;
    DowngradeDecided(World(c, r), 0, obj, "", "", p);
    LaterTwice(c, 3, 6);
    EntryStays(p, a, b, [prev], Later(c, 3));
    OneExact(prev, zone, a, World(c, r));
    SamePoolOfs(UpdatePools(p, Later(c, 3)), Step(World(c, r), Downgrading(b, IPV4_FAMILY, zone, DEFAULT_SECRET_NAME)).c);
  }

  lemma EntryStays(p: Plan, a: string, b: string, services: seq<Svc>, c: Pools.Cluster)
    requires IsValidIp(a) && IsValidIp(b) && a != b && p.added == [b] && p.removed == [a] && Up(c, 6)
    requires Get(p.before, Zone) == Get(p.after, Zone) && Get(p.before, Zone) in c.pools
    ensures Prefixed(b) in Pools.PoolOf(UpdatePools(p, c), Get(p.after, Zone)) && UpdatePools(p, c).faults == c.faults
  {
    hide IsValidIp, Prefixed, UpdatePools, Pools.Mentions, Pools.PoolOf, BeforeSlash, RemoveForm, AddForm;
    PoolsUp(p, c);
    BareForms(a);
    BareForms(b);
    assert b in p.added;
    FormsHave(p.added, Prefixed(b));
    if Prefixed(a) == Prefixed(b) {
      PrefixedInjective(a, b);
    }
    UpdatePoolsExact(p, c, Get(p.after, Zone), Prefixed(b));
  }

  // ---------------------------------------------------------------- upgrades

  /** A Service that carries address annotations without being a load balancer. */
  function Dormant(zone: string, a: string): Svc {
    StoredFour(zone, a).(kind := NodePort)
  }

  lemma OneAddress(m: Annotations, a: string)
    requires IsIPv4(a) && M.Complete(m) && Get(m, IpFamily) == IPV4_FAMILY && Get(m, Addresses) == a
    ensures M.Shaped(m) && Reconcilable(m)
  {
    hide CountWith, AddressList;
    ListOfOne(m, a);
  }

  /** Turning a Service that already carries an address into a load balancer with the same address is accepted
      without a single request, and the address is not leased. */
  lemma UpgradeUnleased(zone: string, a: string, r: Register)
    requires IsIPv4(a) && r.leases == map[]
    ensures var after := Step(World(Answering([Dormant(zone, a)], map[]), r), Submission(a, IPV4_FAMILY, zone));
            && after.c.services == [StoredFour(zone, a)] && after.c.pools == map[] && after.r == r
            && !L.Covered(StoredFour(zone, a), after.r.leases)
  {
    hide Notes, Step, IsIPv4, SECRETS, M.Shaped, LeaseMissing, PlanFor, UpdateLeases, ParsesInt, CountWith, AddressList,
         Answering, IpamPart, M.Complete, Without, Within, UpdatePools;
    var prev, obj := Dormant(zone, a), StoredFour(zone, a);
    var c := Answering([prev], map[]);
    NotesRead(a, IPV4_FAMILY, zone, DEFAULT_SECRET_NAME, "0");
    OneAddress(obj.annotations, a);
    M.LeasingFixpoint(obj.annotations, ME, "s", r);
    Stores([prev], map[]);
    Secrets([prev], map[], ME, obj.annotations);
    PlanOfComplete(prev, obj, "", c);
    assert IndexOf(c.services, ME) == 0;
    UpdateDecided(World(c, r), 0, obj, "", "", obj, Leasing(true, obj.annotations, None, None, r), PlanFor(prev, obj, "", c));
    ListOfOne(obj.annotations, a);
    assert a in [a];
    assert !Member(r.leases, SlotOf(zone, a), ME);
  }

  /** A Service of another name with one address. */
  function Neighbour(zone: string, a: string): Svc {
    Balancer(DB, Notes(a, IPV4_FAMILY, zone, DEFAULT_SECRET_NAME, "0"))
  }

  /** The IPAM side of an update that replaces one address by another. */
  lemma Replaces(p: Plan, a: string, b: string, r: Register)
    requires p.added == [b] && p.kept == [] && p.removed == [a] && Sendable(p.after) && IsValidIp(b)
    requires SlotOf(Get(p.after, Zone), b) !in r.leases && r.replies != [] && r.replies[0].Done?
    ensures UpdateLeases(ME, p, r).ok
  {
    hide UpdateAddress, RemoveAddress, Sendable, IsValidIp, Enlist;
    Validates(b, p.after, ME, p.newSecret, r);
  }

  /** The pool side of it when another load balancer alone mentions the replaced address. */
  lemma TakesEntry(p: Plan, a: string, services: seq<Svc>, k: nat, c: Pools.Cluster)
    requires IsIPv4(a) && p.removed == [a] && c.services == services && Up(c, 6)
    requires Get(p.before, Zone) in c.pools && k < |services|
    requires Mentioned(services[k], a) && Distinct(AddressList(services[k].annotations))
    requires forall j | 0 <= j < |services| && j != k :: !Mentioned(services[j], a)
    ensures Prefixed(a) !in Pools.PoolOf(UpdatePools(p, c), Get(p.before, Zone)) && UpdatePools(p, c).faults == c.faults
  {
    hide IsIPv4, Prefixed, UpdatePools, AddressList, Pools.Mentions, Pools.PoolOf, BeforeSlash, RemoveForm, Distinct;
    PoolsUp(p, c);
    BareForms(a);
    MentionsOne(a, services, k);
    assert a in p.removed;
    assert Orphaned(Prefixed(a), p.removed, services);
    UpdatePoolsExact(p, c, Get(p.before, Zone), Prefixed(a));
  }

  /** A Service that carries another one's address in its annotations becomes a load balancer with an address of its
      own: the other Service's entry goes from the pool, since the count does not see the Service being upgraded. */
  lemma UpgradeDropsAnothersAddress(zone: string, a: string, b: string)
    requires IsIPv4(a) && IsIPv4(b) && a != b
    ensures var w := World(Answering([Neighbour(zone, a), Dormant(zone, a)], map[zone := [Prefixed(a)]]),
                           Holding(map[SlotOf(zone, a) := Lease("s", {DB})], [Done(""), Done("")]));
            var after := Step(w, Submission(b, IPV4_FAMILY, zone));
            && after.c.services == [Neighbour(zone, a), StoredFour(zone, b)] && after.c.faults == w.c.faults
            && Needs(after.c.services, zone, Prefixed(a)) && Prefixed(a) !in Pools.PoolOf(after.c, zone)
  {
    hide Notes, Step, IsIPv4, SECRETS, M.Shaped, LeaseMissing, PlanFor, UpdateLeases, ParsesInt, CountWith, AddressList,
         Answering, IpamPart, M.Complete, Without, Within, UpdatePools, Prefixed, Mentioned, Pools.PoolOf, Sendable;
    var other, prev, obj := Neighbour(zone, a), Dormant(zone, a), StoredFour(zone, b);
    var services, r := [other, prev], Holding(map[SlotOf(zone, a) := Lease("s", {DB})], [Done(""), Done("")]);
    var c := Answering(services, map[zone := [Prefixed(a)]]);
    NotesRead(a, IPV4_FAMILY, zone, DEFAULT_SECRET_NAME, "0");
    NotesRead(b, IPV4_FAMILY, zone, DEFAULT_SECRET_NAME, "0");
    ZeroParses();
    OneAddress(obj.annotations, b);
    M.LeasingFixpoint(obj.annotations, ME, "s", r);
    Stores(services, map[zone := [Prefixed(a)]]);
    Secrets(services, map[zone := [Prefixed(a)]], ME, obj.annotations);
    Secrets(services, map[zone := [Prefixed(a)]], ME, prev.annotations);
    PlanOfComplete(prev, obj, "", c);
    IpamReads(prev.annotations);
    IpamReads(obj.annotations);
    ListOfOne(obj.annotations, b);
    ListOfOne(prev.annotations, a);
    Apart([b], [a]);
    Apart([a], [b]);
    var p := PlanFor(prev, obj, "", c);
    OtherSlot(zone, a, zone, b);
    Replaces(p, a, b, r);
    assert IndexOf(c.services, ME) == 1;
    UpdateDecided(World(c, r), 1, obj, "", "", obj, Leasing(true, obj.annotations, None, None, r), p);
    NeighbourUses(zone, a, prev, services, c.pools);
    TakesEntry(p, a, services, 0, Later(c, 5));
    assert Needs([other, obj], zone, Prefixed(a)) by { assert Uses([other, obj][0], zone, Prefixed(a)); }
    assert services[1 := obj] == [other, obj];
    SamePoolOfs(UpdatePools(p, Later(c, 5)), Step(World(c, r), Submission(b, IPV4_FAMILY, zone)).c);
  }

  lemma NeighbourUses(zone: string, a: string, dormant: Svc, services: seq<Svc>, pools: map<string, seq<string>>)
    requires IsIPv4(a) && dormant == Dormant(zone, a) && services == [Neighbour(zone, a), dormant]
    ensures Mentioned(services[0], a) && Uses(services[0], zone, Prefixed(a)) && !Mentioned(services[1], a)
    ensures Distinct(AddressList(services[0].annotations))
    ensures Up(Later(Answering(services, pools), 5), 6)
  {
    hide IsIPv4, Prefixed, AddressList, Notes;
    NotesRead(a, IPV4_FAMILY, zone, DEFAULT_SECRET_NAME, "0");
    ListOfOne(services[0].annotations, a);
    assert a in [a];
    LaterTwice(Answering(services, pools), 5, 6);
  }

  // ---------------------------------------------------------------- a text in two zones

  /** The same text in two zones: the pools are exact, and deleting one of the two Services leaves an entry nobody
      needs in its zone's pool. */
  lemma SharedTextStaysBehind(zone: string, zone2: string, a: string, r: Register)
    requires IsIPv4(a) && zone != zone2
    ensures var w := World(Answering([StoredFour(zone, a), Neighbour(zone2, a)],
                                     map[zone := [Prefixed(a)], zone2 := [Prefixed(a)]]), r);
            var after := Step(w, DeleteOp(ME, false));
            && PoolsExact(w) && after.c.services == [Neighbour(zone2, a)] && after.c.faults == w.c.faults
            && Prefixed(a) in Pools.PoolOf(after.c, zone) && !Needs(after.c.services, zone, Prefixed(a))
  {
    hide Notes, IsIPv4, SECRETS, ParsesInt, CountWith, AddressList, Answering, Prefixed, Mentioned, Pools.PoolOf,
         CheckDelete, Pools.RemoveFromPool, VerifyForm, PoolsExact, Covers, Tight, NoStray, Distinct;
    var here, there := StoredFour(zone, a), Neighbour(zone2, a);
    var services, pools := [here, there], map[zone := [Prefixed(a)], zone2 := [Prefixed(a)]];
    var c := Answering(services, pools);
    NotesRead(a, IPV4_FAMILY, zone, DEFAULT_SECRET_NAME, "0");
    NotesRead(a, IPV4_FAMILY, zone2, DEFAULT_SECRET_NAME, "0");
    ListOfOne(here.annotations, a);
    ListOfOne(there.annotations, a);
    Stores(services, pools);
    Secrets(services, pools, ME, here.annotations);
    BareForms(a);
    TwoExact(services, zone, zone2, a, World(c, r));
    assert a in AddressList(here.annotations) && Prefixed(a) in pools[zone];
    DeleteSmooth(here, c, r);
    Strays(services, zone, zone2, a, Later(c, 3));
    assert services[..0] + services[1..] == [there];
    var v := CheckDelete(here, false, c, r);
    SamePoolOfs(v.cluster, v.cluster.(services := [there]));
  }

  lemma TwoExact(services: seq<Svc>, zone: string, zone2: string, a: string, w: World)
    requires |services| == 2 && w.c.services == services && IsIPv4(a) && zone != zone2
    requires w.c.pools == map[zone := [Prefixed(a)], zone2 := [Prefixed(a)]]
    requires services[0].kind == services[1].kind == LoadBalancer && services[0].id != services[1].id
    requires ZoneOf(services[0]) == zone && ZoneOf(services[1]) == zone2
    requires AddressList(services[0].annotations) == AddressList(services[1].annotations) == [a] && ValidList([a])
    ensures PoolsExact(w)
  {
    hide IsIPv4, Prefixed, AddressList, CountWith;
    assert a in [a];
    assert Uses(services[0], zone, Prefixed(a)) && Uses(services[1], zone2, Prefixed(a));
  }

  lemma Strays(services: seq<Svc>, zone: string, zone2: string, a: string, c: Pools.Cluster)
    requires |services| == 2 && c.services == services && IsIPv4(a) && zone != zone2
    requires c.pools == map[zone := [Prefixed(a)], zone2 := [Prefixed(a)]]
    requires services[0].kind == services[1].kind == LoadBalancer
    requires ZoneOf(services[0]) == zone && ZoneOf(services[1]) == zone2
    requires AddressList(services[0].annotations) == AddressList(services[1].annotations) == [a]
    requires Pools.RemoveFromPool(c, zone, [a]).ok
    ensures Prefixed(a) in Pools.PoolOf(Pools.RemoveFromPool(c, zone, [a]).cluster, zone)
    ensures !Needs([services[1]], zone, Prefixed(a))
  {
    hide IsIPv4, Prefixed, AddressList, Pools.RemoveFromPool, Orphaned, Subsequence, Distinct;
    assert a in [a];
    RemovalSafe([a], services, 0, 1, a);
    RemovalExact(c, zone, [a], Prefixed(a));
  }

  // ---------------------------------------------------------------- a shared lease

  function Sharing(id: Id, zone: string, a: string, secret: string): Svc {
    Balancer(id, Notes(a, IPV4_FAMILY, zone, secret, "0"))
  }

  lemma SharingFacts(id: Id, zone: string, a: string, secret: string, value: string, c: Pools.Cluster)
    requires IsIPv4(a) && c.secrets == SECRETS && id.namespace == "team"
    requires (secret == "mine" && value == "old") || (secret == "theirs" && value == "new")
    ensures var svc := Sharing(id, zone, a, secret);
            && M.Shaped(svc.annotations) && Reconcilable(svc.annotations) && AddressList(svc.annotations) == [a]
            && ZoneOf(svc) == zone && Pools.HasSecret(c, id, svc.annotations)
            && Pools.SecretValue(c, id, svc.annotations) == value && Sendable(svc.annotations)
            && (forall leases :: SecretsAgree(svc, c, leases) <==> Rollback.HeldUnder(leases, SlotOf(zone, a), value))
            && (forall leases :: L.Covered(svc, leases) <==> Member(leases, SlotOf(zone, a), id))
  {
    hide Notes, IsIPv4, AddressList, M.Shaped, Reconcilable, ParsesInt, M.Complete;
    var m := Notes(a, IPV4_FAMILY, zone, secret, "0");
    NotesRead(a, IPV4_FAMILY, zone, secret, "0");
    ZeroParses();
    OneAddress(m, a);
    ListOfOne(m, a);
    assert a in [a];
  }

  /** The IPAM side of an update that only changes the secret's name. */
  lemma OnlyRotates(p: Plan, a: string, r: Register)
    requires p.kept == [a] && p.added == [] && p.removed == [] && Sendable(p.after) && IsValidIp(a)
    requires Get(p.before, Zone) == Get(p.after, Zone) && Get(p.before, SecretName) != Get(p.after, SecretName)
    requires r.replies != [] && r.replies[0].Done?
    requires SlotOf(Get(p.after, Zone), a) in r.leases && r.leases[SlotOf(Get(p.after, Zone), a)].secret == p.oldSecret
    ensures var u, slot := UpdateLeases(ME, p, r), SlotOf(Get(p.after, Zone), a);
            u.ok && u.reg.leases == r.leases[slot := r.leases[slot].(secret := p.newSecret)]
  {
    hide RotateSecret, Sendable, IsValidIp;
    Rekeys(a, p.after, ME, p.oldSecret, p.newSecret, r);
    var first := RotateSecret(a, p.after, ME, p.oldSecret, p.newSecret, r).reg;
    assert RotateFrom(p.kept, 1, p.before, p.after, ME, p.oldSecret, p.newSecret, first) == Rotated(true, first);
    assert RotateFrom(p.kept, 0, p.before, p.after, ME, p.oldSecret, p.newSecret, r) == Rotated(true, first);
  }

  /** Two Services share a lease. One of them changes its secret, which is accepted, and the other's secret annotation
      no longer stands for the value of its lease. */
  lemma SharedLeaseBreaks(zone: string, a: string)
    requires IsIPv4(a)
    ensures var w := World(Answering([Sharing(ME, zone, a, "mine"), Sharing(DB, zone, a, "mine")], map[zone := [Prefixed(a)]]),
                           Holding(map[SlotOf(zone, a) := Lease("old", {ME, DB})], [Done("")]));
            var after := Step(w, Resubmit(Sharing(ME, zone, a, "theirs")));
            && L.LeasesCover(w) && AllAgree(w)
            && after.c.services == [Sharing(ME, zone, a, "theirs"), Sharing(DB, zone, a, "mine")]
            && !AllAgree(after)
  {
    hide Notes, Step, IsIPv4, SECRETS, M.Shaped, LeaseMissing, PlanFor, UpdateLeases, ParsesInt, CountWith, AddressList,
         Answering, IpamPart, M.Complete, Without, Within, UpdatePools, Prefixed, Pools.SecretValue, Pools.HasSecret,
         SecretsAgree, L.Covered, L.LeasesCover, Sendable;
    var mine, other, next := Sharing(ME, zone, a, "mine"), Sharing(DB, zone, a, "mine"), Sharing(ME, zone, a, "theirs");
    var services, pools := [mine, other], map[zone := [Prefixed(a)]];
    var c, r := Answering(services, pools), Holding(map[SlotOf(zone, a) := Lease("old", {ME, DB})], [Done("")]);
    Stores(services, pools);
    Secrets(services, pools, ME, mine.annotations);
    SharedUpdate(zone, a, c, r);
    SharedBefore(zone, a, World(c, r));
    var after := Step(World(c, r), Resubmit(next));
    SharingFacts(DB, zone, a, "mine", "old", after.c);
    assert after.c.services[1] == other && !SecretsAgree(other, after.c, after.r.leases);
  }

  lemma SharedBefore(zone: string, a: string, w: World)
    requires IsIPv4(a) && w.c.secrets == SECRETS && w.c.services == [Sharing(ME, zone, a, "mine"), Sharing(DB, zone, a, "mine")]
    requires w.r.leases == map[SlotOf(zone, a) := Lease("old", {ME, DB})]
    ensures L.LeasesCover(w) && AllAgree(w)
  {
    hide Notes, IsIPv4, SECRETS, M.Shaped, AddressList, Prefixed, Pools.SecretValue, Pools.HasSecret, CountWith,
         SecretsAgree, L.Covered, ParsesInt;
    SharingFacts(ME, zone, a, "mine", "old", w.c);
    SharingFacts(DB, zone, a, "mine", "old", w.c);
    ListOfOne(w.c.services[0].annotations, a) by { NotesRead(a, IPV4_FAMILY, zone, "mine", "0"); }
  }

  lemma SharedUpdate(zone: string, a: string, c: Pools.Cluster, r: Register)
    requires IsIPv4(a) && c.secrets == SECRETS && Up(c, 5)
    requires c.services == [Sharing(ME, zone, a, "mine"), Sharing(DB, zone, a, "mine")]
    requires r.leases == map[SlotOf(zone, a) := Lease("old", {ME, DB})] && r.replies == [Done("")]
    ensures var after := Step(World(c, r), Resubmit(Sharing(ME, zone, a, "theirs")));
            && after.c.services == [Sharing(ME, zone, a, "theirs"), Sharing(DB, zone, a, "mine")]
            && after.c.secrets == SECRETS && after.r.leases == map[SlotOf(zone, a) := Lease("new", {ME, DB})]
  {
    hide Notes, Step, IsIPv4, SECRETS, LeaseMissing, PlanFor, UpdateLeases, ParsesInt, CountWith, AddressList,
         IpamPart, M.Complete, Without, Within, UpdatePools, Prefixed, Pools.SecretValue, Pools.HasSecret, Sendable, M.Shaped;
    var prev, obj := Sharing(ME, zone, a, "mine"), Sharing(ME, zone, a, "theirs");
    NotesRead(a, IPV4_FAMILY, zone, "mine", "0");
    NotesRead(a, IPV4_FAMILY, zone, "theirs", "0");
    SharingFacts(ME, zone, a, "mine", "old", c);
    SharingFacts(ME, zone, a, "theirs", "new", c);
    M.LeasingFixpoint(obj.annotations, ME, "new", r);
    PlanOfComplete(prev, obj, "", c);
    IpamReads(prev.annotations);
    IpamReads(obj.annotations);
    SmoothSteps.SameLists([a]);
    var p := PlanFor(prev, obj, "", c);
    assert IndexOf(c.services, ME) == 0;
    OnlyRotates(p, a, r);
    UpdatePoolsSecrets(p, Later(c, 5));
    UpdateDecided(World(c, r), 0, obj, "", "", obj, Leasing(true, obj.annotations, None, None, r), p);
  }

  // ---------------------------------------------------------------- Kubernetes calls that fail

  /** The cluster answers `n` calls and fails the next. */
  function Failing(services: seq<Svc>, pools: map<string, seq<string>>, n: nat): Pools.Cluster {
    Answering(services, pools).(replies := seq(n, _ => true) + [false])
  }

  lemma FailingUp(services: seq<Svc>, pools: map<string, seq<string>>, n: nat, k: nat)
    requires k <= n
    ensures var c := Failing(services, pools, n);
            && Up(c, n) && c.services == services && c.pools == pools && c.secrets == SECRETS && c.faults == 0
            && Later(c, k).replies == seq(n - k, _ => true) + [false]
  {
    hide SECRETS;
  }

  lemma FailingSecrets(services: seq<Svc>, pools: map<string, seq<string>>, n: nat, m: Annotations)
    requires Get(m, SecretName) == DEFAULT_SECRET_NAME
    ensures var c := Failing(services, pools, n); Pools.HasSecret(c, ME, m) && Pools.SecretValue(c, ME, m) == "s"
  {
    Secrets(services, pools, ME, m);
    SameSecrets(Answering(services, pools), Failing(services, pools, n), ME, m);
  }

  /** The two hooks of a first creation that leases one IPv4 address. */
  lemma CreationHooks(zone: string, a: string, n: nat, replies: seq<Reply>)
    requires IsIPv4(a) && n >= 2 && replies != [] && replies[0] == Done(a)
    ensures var m4 := Notes(a, IPV4_FAMILY, zone, DEFAULT_SECRET_NAME, "0");
            var c, r := Failing([], map[], n), Holding(map[], replies);
            var r1 := Posted(r, map[SlotOf(zone, a) := Lease("s", {ME})], false, false);
            var v := CheckCreate(Balancer(ME, m4), false, Later(c, 2), r1);
            !v.ok ==> Step(World(c, r), Creation(IPV4_FAMILY, zone)) == World(v.cluster, v.reg)
  {
    hide Notes, LeaseMissing, M.Complete, IsIPv4, SECRETS, Mutate, CheckCreate, Failing, AddressList, SlotOf;
    var c, r := Failing([], map[], n), Holding(map[], replies);
    var obj := Balancer(ME, Notes("", IPV4_FAMILY, zone, DEFAULT_SECRET_NAME, "0"));
    NotesRead("", IPV4_FAMILY, zone, DEFAULT_SECRET_NAME, "0");
    NotesRead(a, IPV4_FAMILY, zone, DEFAULT_SECRET_NAME, "0");
    FailingUp([], map[], n, 2);
    FailingSecrets([], map[], n, obj.annotations);
    LeasesFour(zone, DEFAULT_SECRET_NAME, "s", r, a);
    assert Submitted(obj, false) == obj && IndexOf(c.services, ME) == 0;
    MutateSmooth(obj, true, "", c, r);
    assert r.leases[SlotOf(zone, a) := Lease("s", {ME})] == map[SlotOf(zone, a) := Lease("s", {ME})];
  }

  /** A lookup of the validating hook fails: what the mutating hook has leased stays. */
  lemma FailedLookupLeaks(zone: string, a: string)
    requires IsIPv4(a)
    ensures var w := World(Failing([], map[], 2), Holding(map[], [Done(a)]));
            && Leaks(w, Creation(IPV4_FAMILY, zone))
            && Step(w, Creation(IPV4_FAMILY, zone)).r.leases == map[SlotOf(zone, a) := Lease("s", {ME})]
  {
    hide Notes, Step, IsIPv4, SECRETS, Failing, ValidateEach, Creation, SlotOf;
    CreationHooks(zone, a, 2, [Done(a)]);
    FailingUp([], map[], 2, 2);
    OneLease(zone, a);
  }

  /** The pool addition of a creation fails: the creation is rejected and the addresses stay leased. */
  lemma FailedPoolLeaks(zone: string, a: string)
    requires IsIPv4(a)
    ensures var w := World(Failing([], map[], 5), Holding(map[], [Done(a), Done("")]));
            && Leaks(w, Creation(IPV4_FAMILY, zone))
            && Step(w, Creation(IPV4_FAMILY, zone)).r.leases == map[SlotOf(zone, a) := Lease("s", {ME})]
  {
    hide Notes, Step, IsIPv4, SECRETS, Failing, Creation, SlotOf, CheckCreate, Sendable, ParsesInt;
    var m4 := Notes(a, IPV4_FAMILY, zone, DEFAULT_SECRET_NAME, "0");
    var r := Holding(map[], [Done(a), Done("")]);
    var r1 := Posted(r, map[SlotOf(zone, a) := Lease("s", {ME})], false, false);
    CreationHooks(zone, a, 5, [Done(a), Done("")]);
    FailingUp([], map[], 5, 2);
    FailingSecrets([], map[], 5, m4) by { NotesRead(a, IPV4_FAMILY, zone, DEFAULT_SECRET_NAME, "0"); }
    PoolRefused(zone, a, Later(Failing([], map[], 5), 2), r1);
    OneLease(zone, a);
  }

  /** The validating hook on a creation that passes all its lookups and fails to write the pool. */
  lemma PoolRefused(zone: string, a: string, c: Pools.Cluster, r: Register)
    requires IsIPv4(a) && c.replies == [true, true, true, false] && c.secrets == SECRETS && c.pools == map[]
    requires r.leases == map[SlotOf(zone, a) := Lease("s", {ME})] && r.replies == [Done("")]
    ensures var v := CheckCreate(Balancer(ME, Notes(a, IPV4_FAMILY, zone, DEFAULT_SECRET_NAME, "0")), false, c, r);
            && !v.ok && v.reg.leases == r.leases && v.cluster.services == c.services
            && v.reg.tally.lost == r.tally.lost && v.reg.tally.deletesFailed == r.tally.deletesFailed
  {
    hide Notes, IsIPv4, UpdateAddress, Sendable, ParsesInt, AddressList, SlotOf, Pools.AddForms, Without, SECRETS,
         Pools.HasSecret, Pools.SecretValue;
    var m := Notes(a, IPV4_FAMILY, zone, DEFAULT_SECRET_NAME, "0");
    NotesRead(a, IPV4_FAMILY, zone, DEFAULT_SECRET_NAME, "0");
    ZeroParses();
    ListOfOne(m, a) by { FourValid(a); }
    DefaultSecret(c, m);
    assert r.leases[SlotOf(zone, a)].members + {ME} == r.leases[SlotOf(zone, a)].members;
    assert Enlist(r.leases, SlotOf(zone, a), "s", ME) == r.leases;
    Validates(a, m, ME, "s", r) by { FourValid(a); }
    assert [a][1..] == [];
    assert ValidateEach([a], m, ME, "s", r) == Progress(1, Posted(r, r.leases, false, false));
  }

  lemma DefaultSecret(c: Pools.Cluster, m: Annotations)
    requires c.secrets == SECRETS && Get(m, SecretName) == DEFAULT_SECRET_NAME
    ensures forall c2: Pools.Cluster | c2.secrets == SECRETS :: Pools.HasSecret(c2, ME, m) && Pools.SecretValue(c2, ME, m) == "s"
  {
  }

  /** The pool addition of an accepted update fails: the new address is leased and committed and in no pool. */
  lemma FailedAdditionCommits(zone: string, a: string, b: string)
    requires IsIPv4(a) && IsIPv4(b) && a != b
    ensures var w := World(Failing([StoredFour(zone, a)], map[zone := [Prefixed(a)]], 6),
                           Holding(map[SlotOf(zone, a) := Lease("s", {ME})], [Done(""), Done("")]));
            var after := Step(w, Submission(b, IPV4_FAMILY, zone));
            && after.c.services == [StoredFour(zone, b)] && after.r.leases == map[SlotOf(zone, b) := Lease("s", {ME})]
            && Needs(after.c.services, zone, Prefixed(b)) && Prefixed(b) !in Pools.PoolOf(after.c, zone)
  {
    hide Notes, Step, IsIPv4, SECRETS, M.Shaped, LeaseMissing, PlanFor, UpdateLeases, ParsesInt, CountWith, AddressList,
         Failing, IpamPart, M.Complete, Without, Within, UpdatePools, Prefixed, Pools.PoolOf, Sendable, IsValidIp;
    var prev, obj := StoredFour(zone, a), StoredFour(zone, b);
    var pools, r := map[zone := [Prefixed(a)]], Holding(map[SlotOf(zone, a) := Lease("s", {ME})], [Done(""), Done("")]);
    var c := Failing([prev], pools, 6);
    NotesRead(a, IPV4_FAMILY, zone, DEFAULT_SECRET_NAME, "0");
    NotesRead(b, IPV4_FAMILY, zone, DEFAULT_SECRET_NAME, "0");
    ZeroParses();
    FourValid(a);
    FourValid(b);
    OneAddress(obj.annotations, b);
    M.LeasingFixpoint(obj.annotations, ME, "s", r);
    FailingUp([prev], pools, 6, 5);
    FailingSecrets([prev], pools, 6, prev.annotations);
    FailingSecrets([prev], pools, 6, obj.annotations);
    PlanOfComplete(prev, obj, "", c);
    IpamReads(prev.annotations);
    IpamReads(obj.annotations);
    ListOfOne(prev.annotations, a);
    ListOfOne(obj.annotations, b);
    Apart([b], [a]);
    Apart([a], [b]);
    var p := PlanFor(prev, obj, "", c);
    Swaps(p, a, b, r);
    assert IndexOf(c.services, ME) == 0;
    UpdateDecided(World(c, r), 0, obj, "", "", obj, Leasing(true, obj.annotations, None, None, r), p);
    NoneAdded(p, a, b, Later(c, 5));
    SamePoolOfs(UpdatePools(p, Later(c, 5)), Step(World(c, r), Submission(b, IPV4_FAMILY, zone)).c);
    assert b in [b];
    assert Uses([obj][0], zone, Prefixed(b));
  }

  lemma NoneAdded(p: Plan, a: string, b: string, c: Pools.Cluster)
    requires p.added == [b] && p.removed == [a] && a != b && c.replies == [true, false]
    requires Get(p.before, Zone) == Get(p.after, Zone) && c.pools == map[Get(p.before, Zone) := [Prefixed(a)]]
    ensures Prefixed(b) !in Pools.PoolOf(UpdatePools(p, c), Get(p.after, Zone))
  {
    hide Prefixed, Pools.AddForms, Without, Pools.Reduced, Pools.Unused;
    if Prefixed(a) == Prefixed(b) {
      PrefixedInjective(a, b);
    }
  }

  /** The pool removal of a deletion fails and the re-registration is refused: the deletion is rejected and the Service
      that stays has lost its lease. */
  lemma FailedReregistration(zone: string, a: string)
    requires IsIPv4(a)
    ensures var w := World(Failing([StoredFour(zone, a)], map[zone := [Prefixed(a)]], 5),
                           Holding(map[SlotOf(zone, a) := Lease("s", {ME})], [Done(""), Refused]));
            var after := Step(w, DeleteOp(ME, false));
            && L.LeasesCover(w) && after.c.services == w.c.services && after.r.leases == map[] && !L.LeasesCover(after)
            && after.r.tally.lost == w.r.tally.lost && after.r.tally.deletesFailed == w.r.tally.deletesFailed
  {
    hide Notes, IsIPv4, SECRETS, ParsesInt, CountWith, AddressList, Failing, Prefixed, Sendable, CheckDelete;
    var svc, pools := StoredFour(zone, a), map[zone := [Prefixed(a)]];
    var c, r := Failing([svc], pools, 5), Holding(map[SlotOf(zone, a) := Lease("s", {ME})], [Done(""), Refused]);
    NotesRead(a, IPV4_FAMILY, zone, DEFAULT_SECRET_NAME, "0");
    FourValid(a);
    ListOfOne(svc.annotations, a);
    assert a in AddressList(svc.annotations);
    FailingUp([svc], pools, 5, 0);
    assert Later(c, 0) == c;
    RemovalRefused(zone, a, c, r);
    assert IndexOf(c.services, ME) == 0;
  }

  /** The deletion hook whose last call fails. */
  lemma RemovalRefused(zone: string, a: string, c: Pools.Cluster, r: Register)
    requires IsIPv4(a) && c.replies == [true, true, true, true, true, false] && c.secrets == SECRETS
    requires c.pools == map[zone := [Prefixed(a)]]
    requires r.leases == map[SlotOf(zone, a) := Lease("s", {ME})] && r.replies == [Done(""), Refused]
    ensures var v := CheckDelete(StoredFour(zone, a), false, c, r);
            && !v.ok && v.reg.leases == map[] && v.cluster.services == c.services
            && v.reg.tally.lost == r.tally.lost && v.reg.tally.deletesFailed == r.tally.deletesFailed
  {
    hide Notes, IsIPv4, UpdateAddress, RemoveAddress, Sendable, ParsesInt, AddressList, SlotOf, SECRETS, Pools.HasSecret,
         Pools.SecretValue, Prefixed, VerifyForm, Pools.Reduced, Pools.Unused, IsValidIp;
    var m := Notes(a, IPV4_FAMILY, zone, DEFAULT_SECRET_NAME, "0");
    NotesRead(a, IPV4_FAMILY, zone, DEFAULT_SECRET_NAME, "0");
    ZeroParses();
    FourValid(a);
    ListOfOne(m, a);
    BareForms(a);
    DefaultSecret(c, m);
    Releases(a, m, ME, "s", r);
    var released := Deleted(r, Drop(r.leases, SlotOf(zone, a), ME), false, false);
    assert Drop(r.leases, SlotOf(zone, a), ME) == map[];
    Refuses(a, IPV4_FAMILY, m, ME, "s", "", released);
    assert [a][1..] == [];
    assert ReleaseEach([a], m, ME, "s", r) == released;
    assert ValidateEach([a], m, ME, "s", released) == Progress(0, Posted(released, released.leases, true, false));
    assert a in AddressList(m) && VerifyForm(a) in c.pools[zone];
  }
}
