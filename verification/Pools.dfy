/** The cluster as the hooks see it: committed Services, MetalLB address pools, secrets (internal/utils/ip-pool.go). */
module Pools {
  import opened Text
  import opened Lists
  import opened Services

  /** `replies` says of each Kubernetes API call whether it succeeds; a failed call has no effect.
      `faults` counts the failed calls, `addsFailed` the pool additions that reported an error. */
  datatype Cluster = Cluster(services: seq<Svc>, pools: map<string, seq<string>>, secrets: map<Id, string>,
                             replies: seq<bool>, faults: nat, addsFailed: nat)

  datatype Answer = Answer(ok: bool, cluster: Cluster)

  /** One Kubernetes API call. */
  function Call(c: Cluster): (r: Answer) {
    var ok := c.replies != [] && c.replies[0];
    Answer(ok, c.(replies := if c.replies == [] then [] else c.replies[1..],
                  faults := c.faults + if ok then 0 else 1))
  }

  function PoolOf(c: Cluster, zone: string): seq<string> {
    if zone in c.pools then c.pools[zone] else []
  }

  /** Where getSecret finds the secret of a Service: the default one is shared, the others are per namespace. */
  function SecretRef(id: Id, m: Annotations): Id {
    if Get(m, SecretName) == DEFAULT_SECRET_NAME then Id("ipam-system", DEFAULT_SECRET_NAME)
    else Id(id.namespace, Get(m, SecretName))
  }

  predicate HasSecret(c: Cluster, id: Id, m: Annotations) { SecretRef(id, m) in c.secrets }

  function SecretValue(c: Cluster, id: Id, m: Annotations): string {
    if HasSecret(c, id, m) then c.secrets[SecretRef(id, m)] else ""
  }

  /** getSecret; also the other lookups that can refuse an admission before anything is leased. */
  function FetchSecret(c: Cluster, id: Id, m: Annotations): Answer {
    var call := Call(c);
    Answer(call.ok && HasSecret(c, id, m), call.cluster)
  }

  // ---------------------------------------------------------------- adding

  /** The first loop of AddIpAddressesToPool. */
  function AddForms(addresses: seq<string>): seq<string> {
    seq(|addresses|, i requires 0 <= i < |addresses| => AddForm(addresses[i]))
  }

  function AddToPool(c: Cluster, zone: string, addresses: seq<string>): Answer {
    var get := Call(c);
    var write := Call(get.cluster);
    var found := get.ok && zone in c.pools;
    if write.ok && (found || zone !in c.pools) then
      var pool := if found then c.pools[zone] + Without(AddForms(addresses), c.pools[zone]) else AddForms(addresses);
      Answer(true, write.cluster.(pools := c.pools[zone := pool]))
    else
      Answer(false, write.cluster.(addsFailed := c.addsFailed + 1))
  }

  // ---------------------------------------------------------------- removing

  /** How often a text occurs in a list. */
  function Occurrences(t: string, list: seq<string>): nat {
    if list == [] then 0 else (if list[0] == t then 1 else 0) + Occurrences(t, list[1..])
  }

  /** How often the LoadBalancer Services of a list mention an address text. */
  function Mentions(t: string, services: seq<Svc>): nat {
    if services == [] then 0
    else (if services[0].kind.LoadBalancer? then Occurrences(t, AddressList(services[0].annotations)) else 0)
         + Mentions(t, services[1..])
  }

  /** The pool entries to take out: the forms of the requested addresses that are mentioned exactly once. */
  function Unused(addresses: seq<string>, services: seq<Svc>): seq<string> {
    if addresses == [] then []
    else (if Mentions(BeforeSlash(addresses[0]), services) == 1 then [RemoveForm(addresses[0])] else [])
         + Unused(addresses[1..], services)
  }

  function RemoveFromPool(c: Cluster, zone: string, addresses: seq<string>): Answer {
    var get := Call(c);
    if !get.ok || zone !in c.pools then Answer(false, get.cluster)
    else
      var list := Call(get.cluster);
      if !list.ok then Answer(false, list.cluster)
      else
        var write := Call(list.cluster);
        if !write.ok then Answer(false, write.cluster)
        else Answer(true, write.cluster.(pools := Reduced(c.pools, zone, Unused(addresses, c.services))))
  }

  /** Taking entries out of a zone's pool; a pool left empty is deleted. */
  function Reduced(pools: map<string, seq<string>>, zone: string, gone: seq<string>): map<string, seq<string>>
    requires zone in pools
  {
    var rest := Without(pools[zone], gone);
    if rest == [] then pools - {zone} else pools[zone := rest]
  }

  // ---------------------------------------------------------------- looking up

  /** VerifyIpAddressPool */
  function VerifyPool(c: Cluster, zone: string): Answer {
    var get := Call(c);
    Answer(get.ok && zone in c.pools, get.cluster)
  }

  /** VerifyIpAddressesInPool: one pooled address is enough. */
  function VerifyAddresses(c: Cluster, m: Annotations): Answer {
    var get := Call(c);
    Answer(get.ok && Get(m, Zone) in c.pools
           && exists a :: a in AddressList(m) && VerifyForm(a) in c.pools[Get(m, Zone)], get.cluster)
  }

  // ---------------------------------------------------------------- the cluster as an object

  class Kube {
    var services: seq<Svc>
    var pools: map<string, seq<string>>
    var secrets: map<Id, string>
    var replies: seq<bool>
    var faults: nat
    var addsFailed: nat

    ghost function State(): Cluster
      reads this
    {
      Cluster(services, pools, secrets, replies, faults, addsFailed)
    }

    method ApiCall() returns (ok: bool)
      modifies this`replies, this`faults
      ensures Answer(ok, State()) == Call(old(State()))
    {
      ok := replies != [] && replies[0];
      replies := if replies == [] then [] else replies[1..];
      faults := faults + if ok then 0 else 1;
    }

    method GetSecret(id: Id, annotations: Annotations) returns (ok: bool, value: string)
      modifies this`replies, this`faults
      ensures Answer(ok, State()) == FetchSecret(old(State()), id, annotations)
      ensures ok ==> value == SecretValue(old(State()), id, annotations)
    {
      ok := ApiCall();
      value := "";
      if ok && SecretRef(id, annotations) in secrets {
        value := secrets[SecretRef(id, annotations)];
      } else {
        ok := false;
      }
    }

    /** The caller's slice is overwritten with the prefixed forms before the pool is read. */
    method AddIpAddressesToPool(zone: string, addresses: array<string>) returns (ok: bool)
      modifies this, addresses
      ensures Answer(ok, State()) == AddToPool(old(State()), zone, old(addresses[..]))
      ensures addresses[..] == AddForms(old(addresses[..]))
    {
      AppendPrefixes(addresses);
      var got := ApiCall();
      if !(got && zone in pools) {
        var created := ApiCall();
        ok := created && zone !in pools;
        if ok {
          pools := pools[zone := addresses[..]];
        }
      } else {
        var unassignedAddresses := Unassigned(addresses, pools[zone]);
        ok := ApiCall();
        if ok {
          pools := pools[zone := pools[zone] + unassignedAddresses];
        }
      }
      if !ok {
        addsFailed := addsFailed + 1;
      }
    }

    /** The prefixing loop of AddIpAddressesToPool. */
    static method AppendPrefixes(addresses: array<string>)
      modifies addresses
      ensures addresses[..] == AddForms(old(addresses[..]))
    {
      for index := 0 to addresses.Length
        invariant forall k :: index <= k < addresses.Length ==> addresses[k] == old(addresses[k])
        invariant forall k :: 0 <= k < index ==> addresses[k] == AddForm(old(addresses[k]))
      {
        var addr := addresses[index];
        if '.' in addr && !Contains(addr, "/32") {
          addresses[index] := addr + "/32";
        }
        if ':' in addr && !Contains(addr, "/128") {
          addresses[index] := addr + "/128";
        }
      }
    }

    /** The skipping loop of AddIpAddressesToPool. */
    static method Unassigned(addresses: array<string>, pool: seq<string>) returns (unassigned: seq<string>)
      ensures unassigned == Without(addresses[..], pool)
    {
      unassigned := [];
      for i := 0 to addresses.Length
        invariant unassigned + Without(addresses[..][i..], pool) == Without(addresses[..], pool)
      {
        WithoutRound(unassigned, addresses[..], pool, i);
        if addresses[i] !in pool {
          unassigned := unassigned + [addresses[i]];
        }
      }
    }

    method RemoveIPAddressesFromPool(zone: string, addresses: seq<string>) returns (ok: bool)
      modifies this
      ensures Answer(ok, State()) == RemoveFromPool(old(State()), zone, addresses)
    {
      var found := ApiCall();
      if !found || zone !in pools {
        return false;
      }
      var listed := ApiCall();
      if !listed {
        return false;
      }
      var notInUseAddresses := NotInUse(addresses);
      var newIpAddressPool := RemoveAddressesHelper(pools[zone], notInUseAddresses);
      ok := ApiCall();
      if ok {
        if |newIpAddressPool| == 0 {
          pools := pools - {zone};
        } else {
          pools := pools[zone := newIpAddressPool];
        }
      }
    }

    /** The reference-counting loops of RemoveIPAddressesFromPool. */
    method NotInUse(addresses: seq<string>) returns (notInUseAddresses: seq<string>)
      ensures notInUseAddresses == Unused(addresses, services)
    {
      notInUseAddresses := [];
      for i := 0 to |addresses|
        invariant notInUseAddresses + Unused(addresses[i..], services) == Unused(addresses, services)
      {
        var addr := addresses[i];
        assert addresses[i..][1..] == addresses[i + 1..];
        var count := CountMentions(BeforeSlash(addr));
        if count == 1 {
          if '.' in addr {
            addr := BeforeSlash(addr) + "/32";
          }
          if ':' in addr {
            addr := BeforeSlash(addr) + "/128";
          }
          assert addr == RemoveForm(addresses[i]);
          notInUseAddresses := notInUseAddresses + [addr];
        }
      }
    }

    method CountMentions(t: string) returns (count: nat)
      ensures count == Mentions(t, services)
    {
      count := 0;
      for j := 0 to |services|
        invariant count + Mentions(t, services[j..]) == Mentions(t, services)
      {
        assert services[j..][1..] == services[j + 1..];
        if services[j].kind.LoadBalancer? {
          var list := Split(Get(services[j].annotations, Addresses), ',');
          ghost var before := count;
          for k := 0 to |list|
            invariant count + Occurrences(t, list[k..]) == before + Occurrences(t, list)
          {
            assert list[k..][1..] == list[k + 1..];
            if list[k] == t {
              count := count + 1;
            }
          }
        }
      }
    }

    method VerifyIpAddressPool(zone: string) returns (ok: bool)
      modifies this`replies, this`faults
      ensures Answer(ok, State()) == VerifyPool(old(State()), zone)
    {
      ok := ApiCall();
      ok := ok && zone in pools;
    }

    method VerifyIpAddressesInPool(annotations: Annotations) returns (ok: bool)
      modifies this`replies, this`faults
      ensures Answer(ok, State()) == VerifyAddresses(old(State()), annotations)
    {
      var found := ApiCall();
      if !found || Get(annotations, Zone) !in pools {
        return false;
      }
      var pool := pools[Get(annotations, Zone)];
      var list := Split(Get(annotations, Addresses), ',');
      for i := 0 to |list|
        modifies {}
        invariant forall k :: 0 <= k < i ==> VerifyForm(list[k]) !in pool
      {
        var addr := Trim(list[i]);
        if IsValidIp(addr) {
          if IsIPv4(addr) {
            addr := addr + "/32";
          } else {
            addr := addr + "/128";
          }
        }
        if addr in pool {
          assert list[i] in list && VerifyForm(list[i]) in pool;
          return true;
        }
      }
      return false;
    }
  }
}
