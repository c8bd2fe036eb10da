/** Service objects, their annotations, and the functions of internal/utils/annotations.go. */
module Services {
  import opened Text

  datatype Option<+T> = None | Some(value: T)

  /** Annotation keys. `Other` stands for every further key; `ipam` says whether it starts with the IPAM prefix. */
  datatype Key =
    | Addresses | DenyExternalCleanup | AllowLocalSharedIp | IpFamily | RetentionDays | SecretName | Zone
    | MetallbPool | MetallbIPs | MetallbSharedIp
    | Other(ipam: bool, name: string)

  predicate IsIpam(k: Key) {
    match k
    case MetallbPool | MetallbIPs | MetallbSharedIp => false
    case Other(ipam, _) => ipam
    case _ => true
  }

  type Annotations = map<Key, string>

  /** A Go map read: a missing key reads as the empty text. */
  function Get(m: Annotations, k: Key): string {
    if k in m then m[k] else ""
  }

  const DUAL_FAMILY := "dual"
  const IPV4_FAMILY := "ipv4"
  const IPV6_FAMILY := "ipv6"
  const DEFAULT_SECRET_NAME := "default"
  const DEFAULT_ZONE := "hnet-private"

  datatype ServiceType = ClusterIPType | NodePort | ExternalName | LoadBalancer

  datatype IPFamilyPolicy = SingleStack | PreferDualStack | RequireDualStack

  datatype Id = Id(namespace: string, name: string)

  /** A Service as it is committed or submitted; `ingress` says whether its load balancer status lists an ingress. */
  datatype Svc = Svc(id: Id, kind: ServiceType, ingress: bool, annotations: Annotations,
                     policy: Option<IPFamilyPolicy>, clusterIP: string)

  function ZoneOf(svc: Svc): string { Get(svc.annotations, Zone) }

  /** strings.Split(annotations["ipam.vitistack.io/addresses"], ",") */
  function AddressList(m: Annotations): (list: seq<string>)
    ensures |list| >= 1
  {
    Split(Get(m, Addresses), ',')
  }

  // ---------------------------------------------------------------- annotation updates

  function Defaults(rand: string): Annotations {
    map[Addresses := "", DenyExternalCleanup := "false", AllowLocalSharedIp := "pre-shared-key-" + rand,
        IpFamily := IPV4_FAMILY, RetentionDays := "0", SecretName := DEFAULT_SECRET_NAME, Zone := DEFAULT_ZONE]
  }

  /** The MetalLB annotations copied from the IPAM ones. */
  function Mirrored(m: Annotations): Annotations {
    m[MetallbPool := Get(m, Zone)][MetallbIPs := Get(m, Addresses)][MetallbSharedIp := Get(m, AllowLocalSharedIp)]
  }

  /** `if _, exists := m[k]; !exists { m[k] = v }` */
  function SetMissing(m: Annotations, k: Key, v: string): Annotations {
    if k in m then m else m[k := v]
  }

  function SetAllMissing(m: Annotations, rand: string): Annotations {
    var m1 := SetMissing(m, Addresses, "");
    var m2 := SetMissing(m1, DenyExternalCleanup, "false");
    var m3 := SetMissing(m2, AllowLocalSharedIp, "pre-shared-key-" + rand);
    var m4 := SetMissing(m3, IpFamily, IPV4_FAMILY);
    var m5 := SetMissing(m4, RetentionDays, "0");
    var m6 := SetMissing(m5, SecretName, DEFAULT_SECRET_NAME);
    var m7 := SetMissing(m6, Zone, DEFAULT_ZONE);
    m7
  }

  /** What SetDefaultIpamAnnotations makes of an annotation map. */
  function WithDefaults(m: Annotations, rand: string): Annotations {
    Mirrored(Defaults(rand) + m)
  }

  /** What UpdateAddressAnnotation makes of an annotation map. */
  function WithAddress(m: Annotations, prefix: string): Annotations {
    var text := if Get(m, Addresses) == "" then BeforeSlash(prefix)
                else BeforeSlash(prefix) + "," + Get(m, Addresses);
    m[Addresses := text][MetallbIPs := text]
  }

  /** The final assignment of the mutating hook. */
  function WithoutSpaces(m: Annotations): Annotations {
    m[Addresses := DropSpaces(Get(m, Addresses))]
  }

  /** What FilterMapByPrefix keeps for the IPAM prefix. */
  function IpamPart(m: Annotations): Annotations {
    map k | k in m && IsIpam(k) :: m[k]
  }

  /** Filling in one more missing key extends the defaults that `m` overrides. */
  lemma MissingFilled(d: Annotations, m: Annotations, k: Key, v: string)
    requires k !in d
    ensures SetMissing(d + m, k, v) == d[k := v] + m
  {
  }

  /** Filling in all the missing keys: the given annotations override the defaults. */
  lemma AllFilled(m: Annotations, rand: string)
    ensures SetAllMissing(m, rand) == Defaults(rand) + m
  {
    var d0: Annotations := map[];
    assert d0 + m == m;
    MissingFilled(d0, m, Addresses, "");
    var d1 := d0[Addresses := ""];
    MissingFilled(d1, m, DenyExternalCleanup, "false");
    var d2 := d1[DenyExternalCleanup := "false"];
    MissingFilled(d2, m, AllowLocalSharedIp, "pre-shared-key-" + rand);
    var d3 := d2[AllowLocalSharedIp := "pre-shared-key-" + rand];
    MissingFilled(d3, m, IpFamily, IPV4_FAMILY);
    var d4 := d3[IpFamily := IPV4_FAMILY];
    MissingFilled(d4, m, RetentionDays, "0");
    var d5 := d4[RetentionDays := "0"];
    MissingFilled(d5, m, SecretName, DEFAULT_SECRET_NAME);
    var d6 := d5[SecretName := DEFAULT_SECRET_NAME];
    MissingFilled(d6, m, Zone, DEFAULT_ZONE);
    var d7 := d6[Zone := DEFAULT_ZONE];
  }

  /** Defaulting an already defaulted and mirrored map changes nothing. */
  lemma DefaultsFixpoint(m: Annotations, rand: string)
    requires Defaults(rand).Keys <= m.Keys
    requires MetallbPool in m && m[MetallbPool] == Get(m, Zone)
    requires MetallbIPs in m && m[MetallbIPs] == Get(m, Addresses)
    requires MetallbSharedIp in m && m[MetallbSharedIp] == Get(m, AllowLocalSharedIp)
    ensures WithDefaults(m, rand) == m
  {
    assert Defaults(rand) + m == m;
  }

  /** Prepending a fresh address to the text prepends one element to the list, or replaces the empty text. */
  lemma AddressPrepended(m: Annotations, a: string, prefix: string)
    requires IsValidIp(a) && BeforeSlash(prefix) == a
    ensures AddressList(WithAddress(m, prefix))
         == [a] + if Get(m, Addresses) == "" then [] else AddressList(m)
    ensures Get(WithAddress(m, prefix), Addresses) != ""
    ensures forall k | k != Addresses && k != MetallbIPs :: Get(WithAddress(m, prefix), k) == Get(m, k)
    ensures Get(WithAddress(m, prefix), MetallbIPs) == Get(WithAddress(m, prefix), Addresses)
  {
    ValidText(a);
    if Get(m, Addresses) == "" {
      SplitNone(a, ',');
    } else {
      SplitPrepend(a, Get(m, Addresses), ',');
    }
  }

  // ---------------------------------------------------------------- request fields parsed from annotations

  function DigitValue(c: char): nat
    requires Digit(c)
  {
    c as int - '0' as int
  }

  function DecimalValue(s: string): nat
    requires forall c | c in s :: Digit(c)
  {
    if s == "" then 0
    else
      assert s[|s| - 1] in s;
      DecimalValue(s[..|s| - 1]) * 10 + DigitValue(s[|s| - 1])
  }

  /** strconv.Atoi accepts the text: an optional sign and decimal digits within 64 bits. */
  predicate ParsesInt(s: string) {
    var digits := if s != "" && (s[0] == '+' || s[0] == '-') then s[1..] else s;
    digits != "" && (forall c | c in digits :: Digit(c))
    && DecimalValue(digits) <= if s[0] == '-' then 0x8000_0000_0000_0000 else 0x7fff_ffff_ffff_ffff
  }

  /** strconv.ParseBool accepts the text. */
  predicate ParsesBool(s: string) {
    s in ["1", "t", "T", "TRUE", "true", "True", "0", "f", "F", "FALSE", "false", "False"]
  }

  /** Every IPAM call parses these two annotations first and gives up when one does not parse. */
  predicate Sendable(m: Annotations) {
    ParsesInt(Get(m, RetentionDays)) && ParsesBool(Get(m, DenyExternalCleanup))
  }

  // ---------------------------------------------------------------- the object the hooks mutate

  class Service {
    const id: Id
    var kind: ServiceType
    var ingress: bool
    var annotations: Annotations
    var policy: Option<IPFamilyPolicy>
    var clusterIP: string

    constructor (svc: Svc)
      ensures Value() == svc
    {
      id, kind, ingress := svc.id, svc.kind, svc.ingress;
      annotations, policy, clusterIP := svc.annotations, svc.policy, svc.clusterIP;
    }

    function Value(): Svc
      reads this
    {
      Svc(id, kind, ingress, annotations, policy, clusterIP)
    }

    method SetDefaultIpamAnnotations(rand: string)
      modifies this`annotations
      ensures annotations == WithDefaults(old(annotations), rand)
    {
      annotations := SetMissing(annotations, Addresses, "");
      annotations := SetMissing(annotations, DenyExternalCleanup, "false");
      annotations := SetMissing(annotations, AllowLocalSharedIp, "pre-shared-key-" + rand);
      annotations := SetMissing(annotations, IpFamily, IPV4_FAMILY);
      annotations := SetMissing(annotations, RetentionDays, "0");
      annotations := SetMissing(annotations, SecretName, DEFAULT_SECRET_NAME);
      annotations := SetMissing(annotations, Zone, DEFAULT_ZONE);
      AllFilled(old(annotations), rand);
      annotations := annotations[MetallbPool := Get(annotations, Zone)];
      annotations := annotations[MetallbIPs := Get(annotations, Addresses)];
      annotations := annotations[MetallbSharedIp := Get(annotations, AllowLocalSharedIp)];
    }

    method UpdateAddressAnnotation(prefix: string)
      modifies this`annotations
      ensures annotations == WithAddress(old(annotations), prefix)
    {
      if Get(annotations, Addresses) == "" {
        annotations := annotations[Addresses := BeforeSlash(prefix)];
      } else {
        annotations := annotations[Addresses := BeforeSlash(prefix) + "," + Get(annotations, Addresses)];
      }
      annotations := annotations[MetallbIPs := Get(annotations, Addresses)];
    }
  }

  method FilterMapByPrefix(input: Annotations) returns (result: Annotations)
    ensures result == IpamPart(input)
  {
    result := map[];
    var pending := input.Keys;
    while pending != {}
      invariant pending <= input.Keys
      invariant result == map k | k in input && k !in pending && IsIpam(k) :: input[k]
    {
      var key :| key in pending;
      if IsIpam(key) {
        result := result[key := input[key]];
      }
      pending := pending - {key};
    }
  }
}
