/** The remote IPAM lease register and the calls the hooks make to it. */
module Ipam {
  import opened Text
  import opened Services

  // ---------------------------------------------------------------- the register

  /** A lease is keyed by its zone and its prefixed address. */
  datatype Slot = Slot(zone: string, prefix: string)

  type Members = s: set<Id> | s != {} witness {Id("", "")}

  datatype Lease = Lease(secret: string, members: Members)

  type Leases = map<Slot, Lease>

  /** How one remote call goes: not acted on, acted on but the answer never arrives, or acted on and answered.
      `pick` is the address the API would hand out if the call asks for one. */
  datatype Reply = Refused | Lost(pick: string) | Done(pick: string)

  /** Counts of the calls sent and of the ways they failed; they only grow. */
  datatype Tally = Tally(sent: nat, postsFailed: nat, deletesFailed: nat, lost: nat)

  datatype Register = Register(leases: Leases, replies: seq<Reply>, tally: Tally)

  datatype Request = Request(id: Id, secret: string, newSecret: Option<string>, zone: string,
                             family: string, address: string)

  datatype Answer = Answer(address: Option<string>, reg: Register)

  predicate Member(leases: Leases, slot: Slot, id: Id) {
    slot in leases && id in leases[slot].members
  }

  /** The slot of a bare address. */
  function SlotOf(zone: string, a: string): Slot { Slot(zone, Prefixed(a)) }

  /** Address and family rewriting at the head of RequestIP and DeleteIP. */
  function Rewrite(q: Request): Request {
    var four := if '.' in q.address && !Contains(q.address, "/32")
                then q.(address := q.address + "/32", family := IPV4_FAMILY) else q;
    if ':' in four.address && !Contains(four.address, "/128")
    then four.(address := four.address + "/128", family := IPV6_FAMILY) else four
  }

  /** A text the API may hand out: an address of the asked family, bare or with its prefix length. */
  predicate Offers(pick: string, family: string) {
    var a := BeforeSlash(pick);
    (pick == a || pick == Prefixed(a))
    && ((family == IPV4_FAMILY && IsIPv4(a)) || (family == IPV6_FAMILY && IsIPv6(a)))
  }

  function Enlist(leases: Leases, slot: Slot, secret: string, id: Id): Leases {
    if slot in leases then leases[slot := leases[slot].(members := leases[slot].members + {id})]
    else leases[slot := Lease(secret, {id})]
  }

  /** Dropping the last member frees the address. */
  function Drop(leases: Leases, slot: Slot, id: Id): Leases {
    if !Member(leases, slot, id) then leases
    else if leases[slot].members == {id} then leases - {slot}
    else leases[slot := leases[slot].(members := leases[slot].members - {id})]
  }

  /** What the API does when it acts on POST /address: None when it refuses. */
  function PostEffect(leases: Leases, q: Request, pick: string): Option<(Leases, string)> {
    var slot := Slot(q.zone, q.address);
    if q.address == "" then
      var leased := Slot(q.zone, RequestForm(pick));
      if Offers(pick, q.family) && leased !in leases then Some((Enlist(leases, leased, q.secret, q.id), pick)) else None
    else if q.newSecret.Some? then
      if slot in leases && leases[slot].secret == q.secret
      then Some((leases[slot := leases[slot].(secret := q.newSecret.value)], q.address))
      else None
    else
      if slot !in leases || leases[slot].secret == q.secret
      then Some((Enlist(leases, slot, q.secret, q.id), q.address))
      else None
  }

  /** What the API does when it acts on DELETE /service: None when no lease matches secret, zone and address. */
  function DeleteEffect(leases: Leases, q: Request): Option<Leases> {
    var slot := Slot(q.zone, q.address);
    if Member(leases, slot, q.id) && leases[slot].secret == q.secret then Some(Drop(leases, slot, q.id)) else None
  }

  function NextReply(r: Register): Reply {
    if r.replies == [] then Refused else r.replies[0]
  }

  function OtherReplies(r: Register): seq<Reply> {
    if r.replies == [] then [] else r.replies[1..]
  }

  function Posted(r: Register, leases: Leases, failed: bool, lost: bool): Register {
    Register(leases, OtherReplies(r),
             r.tally.(sent := r.tally.sent + 1,
                      postsFailed := r.tally.postsFailed + if failed then 1 else 0,
                      lost := r.tally.lost + if lost then 1 else 0))
  }

  /** A DELETE that the API answers counts as delivered, also when it finds nothing to delete. */
  function Deleted(r: Register, leases: Leases, failed: bool, lost: bool): Register {
    Register(leases, OtherReplies(r),
             r.tally.(sent := r.tally.sent + 1,
                      deletesFailed := r.tally.deletesFailed + if failed then 1 else 0,
                      lost := r.tally.lost + if lost then 1 else 0))
  }

  /** RequestIP against the register. */
  function Post(q: Request, r: Register): Answer {
    match NextReply(r)
    case Refused => Answer(None, Posted(r, r.leases, true, false))
    case Lost(pick) =>
      var effect := PostEffect(r.leases, Rewrite(q), pick);
      Answer(None, Posted(r, if effect.Some? then effect.value.0 else r.leases, true, true))
    case Done(pick) =>
      var effect := PostEffect(r.leases, Rewrite(q), pick);
      if effect.Some? then Answer(Some(effect.value.1), Posted(r, effect.value.0, false, false))
      else Answer(None, Posted(r, r.leases, true, false))
  }

  /** DeleteIP against the register. */
  function Delete(q: Request, r: Register): Answer {
    match NextReply(r)
    case Refused => Answer(None, Deleted(r, r.leases, true, false))
    case Lost(_) =>
      var effect := DeleteEffect(r.leases, Rewrite(q));
      Answer(None, Deleted(r, if effect.Some? then effect.value else r.leases, true, true))
    case Done(_) =>
      var effect := DeleteEffect(r.leases, Rewrite(q));
      if effect.Some? then Answer(Some(""), Deleted(r, effect.value, false, false))
      else Answer(None, Deleted(r, r.leases, false, false))
  }

  // ---------------------------------------------------------------- the hooks' calls

  function FamilyOf(ipAddress: string): string {
    if IsIPv4(ipAddress) then IPV4_FAMILY else IPV6_FAMILY
  }

  function RequestFor(id: Id, m: Annotations, secret: string, newSecret: Option<string>, a: string): Request {
    Request(id, secret, newSecret, Get(m, Zone), FamilyOf(a), a)
  }

  /** getAddressIpamAPI */
  function GetAddress(family: string, m: Annotations, id: Id, secret: string, r: Register): Answer {
    if Sendable(m) then Post(Request(id, secret, None, Get(m, Zone), family, ""), r) else Answer(None, r)
  }

  /** updateAddressIpamAPI */
  function UpdateAddress(a: string, m: Annotations, id: Id, secret: string, r: Register): Answer {
    if Sendable(m) && IsValidIp(a) then Post(RequestFor(id, m, secret, None, a), r) else Answer(None, r)
  }

  /** removeAddressIpamAPI */
  function RemoveAddress(a: string, m: Annotations, id: Id, secret: string, r: Register): Answer {
    if Sendable(m) && IsValidIp(a) then Delete(RequestFor(id, m, secret, None, a), r) else Answer(None, r)
  }

  /** updateSecretIpamAPI */
  function RotateSecret(a: string, m: Annotations, id: Id, oldSecret: string, newSecret: string, r: Register): Answer {
    if Sendable(m) && IsValidIp(a) then Post(RequestFor(id, m, oldSecret, Some(newSecret), a), r) else Answer(None, r)
  }

  /** The slot a call for a valid address works on, and the family it states. */
  lemma RewriteValid(id: Id, m: Annotations, secret: string, newSecret: Option<string>, a: string)
    requires IsValidIp(a)
    ensures var q := Rewrite(RequestFor(id, m, secret, newSecret, a));
            && Slot(q.zone, q.address) == SlotOf(Get(m, Zone), a)
            && q.family == RequestFor(id, m, secret, newSecret, a).family
            && q.address != ""
            && q == RequestFor(id, m, secret, newSecret, a).(address := Prefixed(a))
  {
    NormalisersAgree(a);
    ValidText(a);
  }

  // ---------------------------------------------------------------- the remote service as an object

  class IpamApi {
    var leases: Leases
    var replies: seq<Reply>
    var tally: Tally

    ghost function State(): Register
      reads this
    {
      Register(leases, replies, tally)
    }

    method RequestIP(request: Request) returns (address: Option<string>)
      modifies this
      ensures Answer(address, State()) == Post(request, old(State()))
    {
      var q := request;
      if '.' in q.address && !Contains(q.address, "/32") {
        q := q.(address := q.address + "/32", family := IPV4_FAMILY);
      }
      if ':' in q.address && !Contains(q.address, "/128") {
        q := q.(address := q.address + "/128", family := IPV6_FAMILY);
      }
      assert q == Rewrite(request);
      var reply := if replies == [] then Refused else replies[0];
      replies := if replies == [] then [] else replies[1..];
      address := None;
      var failed := true;
      if !reply.Refused? {
        var effect := PostEffect(leases, q, reply.pick);
        if effect.Some? {
          leases := effect.value.0;
          if reply.Done? {
            address, failed := Some(effect.value.1), false;
          }
        }
      }
      tally := tally.(sent := tally.sent + 1,
                      postsFailed := tally.postsFailed + if failed then 1 else 0,
                      lost := tally.lost + if reply.Lost? then 1 else 0);
    }

    method DeleteIP(request: Request) returns (address: Option<string>)
      modifies this
      ensures Answer(address, State()) == Delete(request, old(State()))
    {
      var q := request;
      if '.' in q.address && !Contains(q.address, "/32") {
        q := q.(address := q.address + "/32", family := IPV4_FAMILY);
      }
      if ':' in q.address && !Contains(q.address, "/128") {
        q := q.(address := q.address + "/128", family := IPV6_FAMILY);
      }
      assert q == Rewrite(request);
      var reply := if replies == [] then Refused else replies[0];
      replies := if replies == [] then [] else replies[1..];
      address := None;
      if !reply.Refused? {
        var effect := DeleteEffect(leases, q);
        if effect.Some? {
          leases := effect.value;
          address := if reply.Done? then Some("") else None;
        }
      }
      tally := tally.(sent := tally.sent + 1,
                      deletesFailed := tally.deletesFailed + if reply.Done? then 0 else 1,
                      lost := tally.lost + if reply.Lost? then 1 else 0);
    }

    method GetAddressIpamAPI(ipFamily: string, annotations: Annotations, id: Id, secret: string)
      returns (address: Option<string>)
      modifies this
      ensures Answer(address, State()) == GetAddress(ipFamily, annotations, id, secret, old(State()))
    {
      if !ParsesInt(Get(annotations, RetentionDays)) {
        return None;
      }
      if !ParsesBool(Get(annotations, DenyExternalCleanup)) {
        return None;
      }
      address := RequestIP(Request(id, secret, None, Get(annotations, Zone), ipFamily, ""));
    }

    method UpdateAddressIpamAPI(ipAddress: string, annotations: Annotations, id: Id, secret: string)
      returns (ok: bool)
      modifies this
      ensures State() == UpdateAddress(ipAddress, annotations, id, secret, old(State())).reg
      ensures ok == UpdateAddress(ipAddress, annotations, id, secret, old(State())).address.Some?
    {
      if !ParsesInt(Get(annotations, RetentionDays)) {
        return false;
      }
      if !ParsesBool(Get(annotations, DenyExternalCleanup)) {
        return false;
      }
      var ipFamily;
      if IsIPv4(ipAddress) {
        ipFamily := IPV4_FAMILY;
      } else if IsIPv6(ipAddress) {
        ipFamily := IPV6_FAMILY;
      } else {
        return false;
      }
      var answer := RequestIP(Request(id, secret, None, Get(annotations, Zone), ipFamily, ipAddress));
      ok := answer.Some?;
    }

    method RemoveAddressIpamAPI(ipAddress: string, annotations: Annotations, id: Id, secret: string)
      returns (ok: bool)
      modifies this
      ensures State() == RemoveAddress(ipAddress, annotations, id, secret, old(State())).reg
      ensures ok == RemoveAddress(ipAddress, annotations, id, secret, old(State())).address.Some?
    {
      if !ParsesInt(Get(annotations, RetentionDays)) {
        return false;
      }
      if !ParsesBool(Get(annotations, DenyExternalCleanup)) {
        return false;
      }
      var ipFamily;
      if IsIPv4(ipAddress) {
        ipFamily := IPV4_FAMILY;
      } else if IsIPv6(ipAddress) {
        ipFamily := IPV6_FAMILY;
      } else {
        return false;
      }
      var answer := DeleteIP(Request(id, secret, None, Get(annotations, Zone), ipFamily, ipAddress));
      ok := answer.Some?;
    }

    method UpdateSecretIpamAPI(ipAddress: string, annotations: Annotations, id: Id, oldSecret: string, newSecret: string)
      returns (ok: bool)
      modifies this
      ensures State() == RotateSecret(ipAddress, annotations, id, oldSecret, newSecret, old(State())).reg
      ensures ok == RotateSecret(ipAddress, annotations, id, oldSecret, newSecret, old(State())).address.Some?
    {
      if !ParsesInt(Get(annotations, RetentionDays)) {
        return false;
      }
      if !ParsesBool(Get(annotations, DenyExternalCleanup)) {
        return false;
      }
      var ipFamily;
      if IsIPv4(ipAddress) {
        ipFamily := IPV4_FAMILY;
      } else if IsIPv6(ipAddress) {
        ipFamily := IPV6_FAMILY;
      } else {
        return false;
      }
      var answer := RequestIP(Request(id, oldSecret, Some(newSecret), Get(annotations, Zone), ipFamily, ipAddress));
      ok := answer.Some?;
    }
  }
}
