/** The validating hook (service_webhook_validate_create.go, _update.go, _delete.go and update_secret.go). */
module Validation {
  import opened Text
  import opened Lists
  import opened Services
  import opened Ipam
  import Pools

  datatype Verdict = Verdict(ok: bool, cluster: Pools.Cluster, reg: Register)

  // ---------------------------------------------------------------- loops over addresses

  /** `count` addresses were validated before the loop ended. */
  datatype Progress = Progress(count: nat, reg: Register)

  /** Validate from left to right and stop at the first address that fails. */
  function ValidateEach(addrs: seq<string>, m: Annotations, id: Id, secret: string, r: Register): (p: Progress)
    ensures p.count <= |addrs|
  {
    if addrs == [] then Progress(0, r)
    else
      var first := UpdateAddress(addrs[0], m, id, secret, r);
      if first.address.None? then Progress(0, first.reg)
      else
        var rest := ValidateEach(addrs[1..], m, id, secret, first.reg);
        Progress(rest.count + 1, rest.reg)
  }

  /** Release every address, whatever the single calls report. */
  function ReleaseEach(addrs: seq<string>, m: Annotations, id: Id, secret: string, r: Register): Register {
    if addrs == [] then r
    else ReleaseEach(addrs[1..], m, id, secret, RemoveAddress(addrs[0], m, id, secret, r).reg)
  }

  // ---------------------------------------------------------------- create

  function CheckCreate(svc: Svc, dry: bool, c: Pools.Cluster, r: Register): Verdict {
    if svc.kind != LoadBalancer || dry then Verdict(true, c, r)
    else
      var ids := Pools.Call(c);
      if !ids.ok then Verdict(false, ids.cluster, r)
      else
        var found := Pools.FetchSecret(ids.cluster, svc.id, svc.annotations);
        if !found.ok then Verdict(false, found.cluster, r)
        else
          var m, secret := svc.annotations, Pools.SecretValue(c, svc.id, svc.annotations);
          var addrs := AddressList(m);
          var checked := ValidateEach(addrs, m, svc.id, secret, r);
          if checked.count < |addrs| then
            Verdict(false, found.cluster, ReleaseEach(addrs[..checked.count], m, svc.id, secret, checked.reg))
          else
            var added := Pools.AddToPool(found.cluster, ZoneOf(svc), addrs);
            Verdict(added.ok, added.cluster, checked.reg)
  }

  // ---------------------------------------------------------------- update

  datatype Rotated = Rotated(ok: bool, reg: Register)

  /** The loop of updateSecret; only a failure at the second address reverts the first. */
  function RotateFrom(keep: seq<string>, index: nat, before: Annotations, m: Annotations, id: Id,
                      oldSecret: string, newSecret: string, r: Register): Rotated
    requires index <= |keep|
    decreases |keep| - index
  {
    if index == |keep| then Rotated(true, r)
    else
      var call := RotateSecret(keep[index], m, id, oldSecret, newSecret, r);
      if call.address.Some? then RotateFrom(keep, index + 1, before, m, id, oldSecret, newSecret, call.reg)
      else if index == 1 then Rotated(false, RotateSecret(keep[0], before, id, newSecret, oldSecret, call.reg).reg)
      else Rotated(false, call.reg)
  }

  /** updateSecret: nothing happens unless the secret's name changes and addresses are kept. */
  function RotateKept(keep: seq<string>, before: Annotations, m: Annotations, id: Id,
                      oldSecret: string, newSecret: string, r: Register): Rotated {
    if Get(before, SecretName) != Get(m, SecretName) && keep != []
    then RotateFrom(keep, 0, before, m, id, oldSecret, newSecret, r)
    else Rotated(true, r)
  }

  /** What an update works with: the IPAM annotations before and after, the diff of the address lists, the secrets. */
  datatype Plan = Plan(before: Annotations, after: Annotations, added: seq<string>, kept: seq<string>,
                       removed: seq<string>, oldSecret: string, newSecret: string)

  function OldAnnotations(prev: Svc, rand: string): Annotations {
    if prev.kind != LoadBalancer then WithDefaults(prev.annotations, rand) else prev.annotations
  }

  function PlanFor(prev: Svc, next: Svc, rand: string, c: Pools.Cluster): Plan {
    var om, nm := IpamPart(OldAnnotations(prev, rand)), IpamPart(next.annotations);
    var ol, nl := AddressList(om), AddressList(nm);
    Plan(om, nm, Without(nl, ol), Within(nl, ol), Without(ol, nl),
         Pools.SecretValue(c, next.id, om), Pools.SecretValue(c, next.id, nm))
  }

  /** The IPAM side of an update. */
  function UpdateLeases(id: Id, p: Plan, r: Register): Rotated {
    if Get(p.before, Zone) != Get(p.after, Zone) && p.kept != [] then
      Rotated(false, if p.added != [] then RemoveAddress(p.added[0], p.after, id, p.newSecret, r).reg else r)
    else
      var checked := ValidateEach(p.added, p.after, id, p.newSecret, r);
      if checked.count < |p.added| then
        Rotated(false, RemoveAddress(p.added[0], p.after, id, p.newSecret, checked.reg).reg)
      else
        var rotated := RotateKept(p.kept, p.before, p.after, id, p.oldSecret, p.newSecret, checked.reg);
        if !rotated.ok then
          Rotated(false, ReleaseEach(p.added, p.after, id, p.newSecret, rotated.reg))
        else
          Rotated(true, ReleaseEach(p.removed, p.before, id, p.oldSecret, rotated.reg))
  }

  /** The pool side of an accepted update; errors are only logged. */
  function UpdatePools(p: Plan, c: Pools.Cluster): Pools.Cluster {
    var grown := if p.added != [] then Pools.AddToPool(c, Get(p.after, Zone), p.added).cluster else c;
    if p.removed == [] then grown
    else
      var found := Pools.VerifyPool(grown, Get(p.before, Zone));
      if found.ok then Pools.RemoveFromPool(found.cluster, Get(p.before, Zone), p.removed).cluster else found.cluster
  }

  function CheckUpdate(prev: Svc, next: Svc, dry: bool, rand: string, c: Pools.Cluster, r: Register): Verdict {
    if (prev.kind != LoadBalancer && next.kind != LoadBalancer) || dry then Verdict(true, c, r)
    else
      var ids := Pools.Call(c);
      var p := PlanFor(prev, next, rand, c);
      if !ids.ok then Verdict(false, ids.cluster, r)
      else if p.before == p.after then Verdict(true, ids.cluster, r)
      else
        var found := Pools.FetchSecret(ids.cluster, next.id, p.before);
        if !found.ok then Verdict(false, found.cluster, r)
        else
          var found2 := Pools.FetchSecret(found.cluster, next.id, p.after);
          if !found2.ok then Verdict(false, found2.cluster, r)
          else
            var leased := UpdateLeases(next.id, p, r);
            if !leased.ok then Verdict(false, found2.cluster, leased.reg)
            else Verdict(true, UpdatePools(p, found2.cluster), leased.reg)
  }

  // ---------------------------------------------------------------- delete

  function CheckDelete(svc: Svc, dry: bool, c: Pools.Cluster, r: Register): Verdict {
    if dry || svc.kind != LoadBalancer then Verdict(true, c, r)
    else
      var ids := Pools.Call(c);
      if !ids.ok then Verdict(false, ids.cluster, r)
      else
        var found := Pools.FetchSecret(ids.cluster, svc.id, svc.annotations);
        if !found.ok then Verdict(false, found.cluster, r)
        else
          var m, secret := svc.annotations, Pools.SecretValue(c, svc.id, svc.annotations);
          var addrs := AddressList(m);
          var released := ReleaseEach(addrs, m, svc.id, secret, r);
          var pooled := Pools.VerifyAddresses(found.cluster, m);
          if !pooled.ok then Verdict(true, pooled.cluster, released)
          else
            var removed := Pools.RemoveFromPool(pooled.cluster, ZoneOf(svc), addrs);
            if removed.ok then Verdict(true, removed.cluster, released)
            else Verdict(false, removed.cluster, ValidateEach(addrs, m, svc.id, secret, released).reg)
  }

  // ---------------------------------------------------------------- the hook as methods

  method ValidateAddresses(addrs: seq<string>, m: Annotations, id: Id, secret: string, ipam: IpamApi)
    returns (count: nat)
    modifies ipam
    ensures Progress(count, ipam.State()) == ValidateEach(addrs, m, id, secret, old(ipam.State()))
  {
    count := 0;
    while count < |addrs|
      invariant count <= |addrs|
      invariant var rest := ValidateEach(addrs[count..], m, id, secret, ipam.State());
                ValidateEach(addrs, m, id, secret, old(ipam.State())) == rest.(count := rest.count + count)
    {
      assert addrs[count..][1..] == addrs[count + 1..];
      var ok := ipam.UpdateAddressIpamAPI(addrs[count], m, id, secret);
      if !ok {
        return;
      }
      count := count + 1;
    }
  }

  method ReleaseAddresses(addrs: seq<string>, m: Annotations, id: Id, secret: string, ipam: IpamApi)
    modifies ipam
    ensures ipam.State() == ReleaseEach(addrs, m, id, secret, old(ipam.State()))
  {
    for i := 0 to |addrs|
      invariant ReleaseEach(addrs[i..], m, id, secret, ipam.State())
             == ReleaseEach(addrs, m, id, secret, old(ipam.State()))
    {
      assert addrs[i..][1..] == addrs[i + 1..];
      var _ := ipam.RemoveAddressIpamAPI(addrs[i], m, id, secret);
    }
  }

  method ValidateCreate(service: Service, dry: bool, kube: Pools.Kube, ipam: IpamApi) returns (ok: bool)
    modifies kube, ipam
    ensures Verdict(ok, kube.State(), ipam.State())
         == CheckCreate(service.Value(), dry, old(kube.State()), old(ipam.State()))
  {
    if service.kind != LoadBalancer {
      return true;
    }
    if dry {
      return true;
    }
    var ids := kube.ApiCall();
    if !ids {
      return false;
    }
    var annotations := service.annotations;
    var found, secret := kube.GetSecret(service.id, annotations);
    if !found {
      return false;
    }
    var addrSlice := Split(Get(annotations, Addresses), ',');
    var validated := ValidateAddresses(addrSlice, annotations, service.id, secret, ipam);
    if validated < |addrSlice| {
      ReleaseAddresses(addrSlice[..validated], annotations, service.id, secret, ipam);
      return false;
    }
    var slice := new string[|addrSlice|](i requires 0 <= i < |addrSlice| => addrSlice[i]);
    assert slice[..] == addrSlice;
    ok := kube.AddIpAddressesToPool(Get(annotations, Zone), slice);
  }

  method UpdateSecret(keepPrefixes: seq<string>, oldAnnotations: Annotations, annotations: Annotations, id: Id,
                      oldSecret: string, newSecret: string, ipam: IpamApi) returns (ok: bool)
    modifies ipam
    ensures Rotated(ok, ipam.State())
         == RotateKept(keepPrefixes, oldAnnotations, annotations, id, oldSecret, newSecret, old(ipam.State()))
  {
    if Get(oldAnnotations, SecretName) != Get(annotations, SecretName) && |keepPrefixes| > 0 {
      for index := 0 to |keepPrefixes|
        invariant RotateFrom(keepPrefixes, index, oldAnnotations, annotations, id, oldSecret, newSecret, ipam.State())
               == RotateFrom(keepPrefixes, 0, oldAnnotations, annotations, id, oldSecret, newSecret, old(ipam.State()))
      {
        var done := ipam.UpdateSecretIpamAPI(keepPrefixes[index], annotations, id, oldSecret, newSecret);
        if !done {
          if index == 1 {
            var _ := ipam.UpdateSecretIpamAPI(keepPrefixes[0], oldAnnotations, id, newSecret, oldSecret);
          }
          return false;
        }
      }
    }
    return true;
  }

  method ValidateUpdate(oldService: Service, newService: Service, dry: bool, rand: string,
                        kube: Pools.Kube, ipam: IpamApi) returns (ok: bool)
    requires oldService != newService && oldService.id == newService.id
    modifies oldService`annotations, kube, ipam
    ensures Verdict(ok, kube.State(), ipam.State())
         == CheckUpdate(old(oldService.Value()), newService.Value(), dry, rand, old(kube.State()), old(ipam.State()))
  {
    if oldService.kind != LoadBalancer && newService.kind != LoadBalancer {
      return true;
    }
    if dry {
      return true;
    }
    if oldService.kind != LoadBalancer {
      oldService.SetDefaultIpamAnnotations(rand);
    }
    var ids := kube.ApiCall();
    if !ids {
      return false;
    }
    var oldAnnotations := FilterMapByPrefix(oldService.annotations);
    var newAnnotations := FilterMapByPrefix(newService.annotations);
    if oldAnnotations == newAnnotations {
      return true;
    }
    var newServicePrefixes := Split(Get(newAnnotations, Addresses), ',');
    var oldServicePrefixes := Split(Get(oldAnnotations, Addresses), ',');
    var newPrefixes, keepPrefixes, removePrefixes := PrefixSlicesDiff(oldServicePrefixes, newServicePrefixes);
    var foundOld, oldSecret := kube.GetSecret(newService.id, oldAnnotations);
    if !foundOld {
      return false;
    }
    var foundNew, newSecret := kube.GetSecret(newService.id, newAnnotations);
    if !foundNew {
      return false;
    }
    var p := Plan(oldAnnotations, newAnnotations, newPrefixes, keepPrefixes, removePrefixes, oldSecret, newSecret);
    assert p == PlanFor(old(oldService.Value()), newService.Value(), rand, old(kube.State()));
    ok := ChangeLeases(newService.id, p, ipam);
    if ok {
      ChangePools(p, kube);
    }
  }

  /** The IPAM half of ValidateUpdate. */
  method ChangeLeases(id: Id, p: Plan, ipam: IpamApi) returns (ok: bool)
    modifies ipam
    ensures Rotated(ok, ipam.State()) == UpdateLeases(id, p, old(ipam.State()))
  {
    if Get(p.before, Zone) != Get(p.after, Zone) && |p.kept| > 0 {
      if |p.added| > 0 {
        var _ := ipam.RemoveAddressIpamAPI(p.added[0], p.after, id, p.newSecret);
      }
      return false;
    }
    var validated := ValidateAddresses(p.added, p.after, id, p.newSecret, ipam);
    if validated < |p.added| {
      var _ := ipam.RemoveAddressIpamAPI(p.added[0], p.after, id, p.newSecret);
      return false;
    }
    var updated := UpdateSecret(p.kept, p.before, p.after, id, p.oldSecret, p.newSecret, ipam);
    if !updated {
      ReleaseAddresses(p.added, p.after, id, p.newSecret, ipam);
      return false;
    }
    ReleaseAddresses(p.removed, p.before, id, p.oldSecret, ipam);
    return true;
  }

  /** The MetalLB half of ValidateUpdate. */
  method ChangePools(p: Plan, kube: Pools.Kube)
    modifies kube
    ensures kube.State() == UpdatePools(p, old(kube.State()))
  {
    if |p.added| > 0 {
      var slice := new string[|p.added|](i requires 0 <= i < |p.added| => p.added[i]);
      assert slice[..] == p.added;
      var _ := kube.AddIpAddressesToPool(Get(p.after, Zone), slice);
    }
    if |p.removed| > 0 {
      var found := kube.VerifyIpAddressPool(Get(p.before, Zone));
      if found {
        var _ := kube.RemoveIPAddressesFromPool(Get(p.before, Zone), p.removed);
      }
    }
  }

  method ValidateDelete(service: Service, dry: bool, kube: Pools.Kube, ipam: IpamApi) returns (ok: bool)
    modifies kube, ipam
    ensures Verdict(ok, kube.State(), ipam.State())
         == CheckDelete(service.Value(), dry, old(kube.State()), old(ipam.State()))
  {
    if dry {
      return true;
    }
    if service.kind != LoadBalancer {
      return true;
    }
    var ids := kube.ApiCall();
    if !ids {
      return false;
    }
    var annotations := service.annotations;
    var found, secret := kube.GetSecret(service.id, annotations);
    if !found {
      return false;
    }
    var addresses := Split(Get(annotations, Addresses), ',');
    ReleaseAddresses(addresses, annotations, service.id, secret, ipam);
    var pooled := kube.VerifyIpAddressesInPool(annotations);
    if pooled {
      var removed := kube.RemoveIPAddressesFromPool(Get(annotations, Zone), addresses);
      if !removed {
        var _ := ValidateAddresses(addresses, annotations, service.id, secret, ipam);
        return false;
      }
    }
    return true;
  }
}
