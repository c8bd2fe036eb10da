/** The mutating hook (service_webhook_mutation.go, reconile_annotation_addresses.go). */
module Mutation {
  import opened Text
  import opened Services
  import opened Ipam
  import Pools

  // ---------------------------------------------------------------- reconciling the annotations

  /** How many elements of a list contain a character. */
  function CountWith(ch: char, list: seq<string>): nat {
    if list == [] then 0 else (if ch in list[0] then 1 else 0) + CountWith(ch, list[1..])
  }

  /** Valid addresses, at most one per family. */
  predicate ValidList(list: seq<string>) {
    (forall a | a in list :: IsValidIp(a)) && CountWith('.', list) <= 1 && CountWith(':', list) <= 1
  }

  predicate KnownFamily(family: string) {
    family in [IPV4_FAMILY, IPV6_FAMILY, DUAL_FAMILY]
  }

  /** reconcileAnnotationAddresses reports no error. */
  predicate Reconcilable(m: Annotations) {
    (Get(m, Addresses) == "" || ValidList(AddressList(m))) && KnownFamily(Get(m, IpFamily))
  }

  function PolicyFor(family: string): IPFamilyPolicy {
    if family == DUAL_FAMILY then RequireDualStack else SingleStack
  }

  function Reconciled(svc: Svc): Svc {
    svc.(policy := Some(PolicyFor(Get(svc.annotations, IpFamily))), clusterIP := "")
  }

  // ---------------------------------------------------------------- leasing the missing families

  predicate Wants(family: string, m: Annotations) {
    Get(m, IpFamily) == family || Get(m, IpFamily) == DUAL_FAMILY
  }

  /** `fresh4` and `fresh6` are the texts of the replies when an address has been leased. */
  datatype Leasing = Leasing(ok: bool, annotations: Annotations, fresh4: Option<string>, fresh6: Option<string>,
                             reg: Register)

  function LeaseFour(m: Annotations, id: Id, secret: string, r: Register): Leasing {
    if '.' in Get(m, Addresses) || !Wants(IPV4_FAMILY, m) then Leasing(true, m, None, None, r)
    else
      var answer := GetAddress(IPV4_FAMILY, m, id, secret, r);
      if answer.address.None? then Leasing(false, m, None, None, answer.reg)
      else Leasing(true, WithAddress(m, answer.address.value), answer.address, None, answer.reg)
  }

  /** When the IPv6 lease fails, a fresh IPv4 lease is given back. */
  function LeaseSix(four: Leasing, id: Id, secret: string): Leasing {
    var m := four.annotations;
    if ':' in Get(m, Addresses) || !Wants(IPV6_FAMILY, m) then four
    else
      var answer := GetAddress(IPV6_FAMILY, m, id, secret, four.reg);
      if answer.address.Some? then
        Leasing(true, WithAddress(m, answer.address.value), four.fresh4, answer.address, answer.reg)
      else
        Leasing(false, m, four.fresh4, None,
                if four.fresh4.Some? && four.fresh4.value != ""
                then RemoveAddress(four.fresh4.value, m, id, secret, answer.reg).reg else answer.reg)
  }

  function LeaseMissing(m: Annotations, id: Id, secret: string, r: Register): Leasing {
    var four := LeaseFour(m, id, secret, r);
    if !four.ok then four
    else
      var six := LeaseSix(four, id, secret);
      if six.ok then six.(annotations := WithoutSpaces(six.annotations)) else six
  }

  // ---------------------------------------------------------------- the hook

  datatype Mutated = Mutated(ok: bool, svc: Svc, cluster: Pools.Cluster, reg: Register)

  predicate Exists(services: seq<Svc>, id: Id) {
    exists s :: s in services && s.id == id
  }

  /** The dry run of the object and the lookups behind it; a dry-run creation of an existing Service fails. */
  function SpecChecks(c: Pools.Cluster, id: Id, create: bool): Pools.Answer {
    var call := Pools.Call(c);
    Pools.Answer(call.ok && !(create && Exists(c.services, id)), call.cluster)
  }

  /** Default. The hook skips a Service that neither is a load balancer nor has an ingress. */
  function Mutate(svc: Svc, create: bool, dry: bool, rand: string, c: Pools.Cluster, r: Register): Mutated {
    if dry || (svc.kind != LoadBalancer && !svc.ingress) then Mutated(true, svc, c, r)
    else
      var typed := svc.(kind := LoadBalancer);
      var checks := SpecChecks(c, svc.id, create);
      if !checks.ok then Mutated(false, typed, checks.cluster, r)
      else
        var full := typed.(annotations := WithDefaults(svc.annotations, rand));
        if !Reconcilable(full.annotations) then Mutated(false, full, checks.cluster, r)
        else
          var ready := Reconciled(full);
          var secret := Pools.FetchSecret(checks.cluster, svc.id, ready.annotations);
          if !secret.ok then Mutated(false, ready, secret.cluster, r)
          else
            var leasing := LeaseMissing(ready.annotations, svc.id, Pools.SecretValue(c, svc.id, ready.annotations), r);
            Mutated(leasing.ok, ready.(annotations := leasing.annotations), secret.cluster, leasing.reg)
  }

  // ---------------------------------------------------------------- the hook as methods

  method ReconcileAnnotationAddresses(service: Service) returns (ok: bool)
    modifies service`policy, service`clusterIP
    ensures ok == Reconcilable(service.annotations)
    ensures service.Value() == if ok then Reconciled(old(service.Value())) else old(service.Value())
    ensures ok && Get(service.annotations, IpFamily) == "dual" ==> service.policy == Some(RequireDualStack)
    ensures ok && Get(service.annotations, IpFamily) != "dual" ==> service.policy == Some(SingleStack)
  {
    var text := Get(service.annotations, Addresses);
    if text != "" {
      var ips := Split(text, ',');
      for i := 0 to |ips|
        modifies {}
        invariant forall k :: 0 <= k < i ==> IsValidIp(ips[k])
      {
        if !IsValidIp(ips[i]) {
          assert ips[i] in AddressList(service.annotations);
          return false;
        }
      }
      var sliceIPv4Ips, sliceIPv6Ips := [], [];
      for i := 0 to |ips|
        modifies {}
        invariant |sliceIPv4Ips| + CountWith('.', ips[i..]) == CountWith('.', ips)
        invariant |sliceIPv6Ips| + CountWith(':', ips[i..]) == CountWith(':', ips)
      {
        assert ips[i..][1..] == ips[i + 1..];
        if '.' in ips[i] {
          sliceIPv4Ips := sliceIPv4Ips + [ips[i]];
        }
        if ':' in ips[i] {
          sliceIPv6Ips := sliceIPv6Ips + [ips[i]];
        }
      }
      if |sliceIPv4Ips| > 1 || |sliceIPv6Ips| > 1 {
        return false;
      }
    }
    var family := Get(service.annotations, IpFamily);
    if family !in [IPV4_FAMILY, IPV6_FAMILY, DUAL_FAMILY] {
      return false;
    }
    if family == DUAL_FAMILY {
      service.policy := Some(RequireDualStack);
    } else {
      service.policy := Some(SingleStack);
    }
    service.clusterIP := "";
    return true;
  }

  method SpecChecksCall(kube: Pools.Kube, id: Id, create: bool) returns (ok: bool)
    modifies kube`replies, kube`faults
    ensures Pools.Answer(ok, kube.State()) == SpecChecks(old(kube.State()), id, create)
  {
    ok := kube.ApiCall();
    ok := ok && !(create && Exists(kube.services, id));
  }

  method Default(service: Service, create: bool, dry: bool, rand: string, kube: Pools.Kube, ipam: IpamApi)
    returns (ok: bool)
    modifies service, kube, ipam
    ensures Mutated(ok, service.Value(), kube.State(), ipam.State())
         == Mutate(old(service.Value()), create, dry, rand, old(kube.State()), old(ipam.State()))
  {
    if dry {
      return true;
    }
    if service.kind != LoadBalancer && !service.ingress {
      return true;
    }
    service.kind := LoadBalancer;
    var checked := SpecChecksCall(kube, service.id, create);
    if !checked {
      return false;
    }
    service.SetDefaultIpamAnnotations(rand);
    var reconciled := ReconcileAnnotationAddresses(service);
    if !reconciled {
      return false;
    }
    var found, secret := kube.GetSecret(service.id, service.annotations);
    if !found {
      return false;
    }
    ok := RequestMissing(service, secret, ipam);
  }

  /** The leasing half of Default. */
  method RequestMissing(service: Service, secret: string, ipam: IpamApi) returns (ok: bool)
    modifies service`annotations, ipam
    ensures var leasing := LeaseMissing(old(service.annotations), service.id, secret, old(ipam.State()));
            && ok == leasing.ok
            && service.annotations == leasing.annotations
            && ipam.State() == leasing.reg
  {
    var ipFamily := Get(service.annotations, IpFamily);
    var retrievedIPv4Address: Option<string> := None;
    if '.' !in Get(service.annotations, Addresses) && (ipFamily == IPV4_FAMILY || ipFamily == DUAL_FAMILY) {
      retrievedIPv4Address := ipam.GetAddressIpamAPI(IPV4_FAMILY, service.annotations, service.id, secret);
      if retrievedIPv4Address.None? {
        return false;
      }
      service.UpdateAddressAnnotation(retrievedIPv4Address.value);
    }
    ghost var four := LeaseFour(old(service.annotations), service.id, secret, old(ipam.State()));
    assert four == Leasing(true, service.annotations, retrievedIPv4Address, None, ipam.State());
    assert Get(service.annotations, IpFamily) == ipFamily;
    if ':' !in Get(service.annotations, Addresses) && (ipFamily == IPV6_FAMILY || ipFamily == DUAL_FAMILY) {
      var retrievedIPv6Address := ipam.GetAddressIpamAPI(IPV6_FAMILY, service.annotations, service.id, secret);
      if retrievedIPv6Address.None? {
        if retrievedIPv4Address.Some? && retrievedIPv4Address.value != "" {
          var _ := ipam.RemoveAddressIpamAPI(retrievedIPv4Address.value, service.annotations, service.id, secret);
        }
        return false;
      }
      service.UpdateAddressAnnotation(retrievedIPv6Address.value);
    }
    service.annotations := service.annotations[Addresses := DropSpaces(Get(service.annotations, Addresses))];
    ok := true;
  }
}
