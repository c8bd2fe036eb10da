/** What the small functions under the hooks mean, in the texts of the annotations themselves. */
module Meanings {
  import opened Text
  import opened Lists
  import opened Services
  import opened Ipam
  import opened Mutation
  import opened Validation
  import M = MutationFacts
  import L = LeaseCoverage
  import Pools

  // ---------------------------------------------------------------- annotations

  /** What a text reads as in a completed map: the given one, or the default. */
  predicate Filled(m: Annotations, full: Annotations, k: Key, byDefault: string) {
    k in full && full[k] == if k in m then m[k] else byDefault
  }

  /** Completing an annotation map: every missing IPAM key has its default, every given one keeps its text, the MetalLB
      keys mirror three of them, and no other key changes. */
  lemma DefaultsRead(m: Annotations, rand: string)
    ensures var full := WithDefaults(m, rand);
            && Filled(m, full, Addresses, "") && Filled(m, full, DenyExternalCleanup, "false")
            && Filled(m, full, AllowLocalSharedIp, "pre-shared-key-" + rand) && Filled(m, full, IpFamily, "ipv4")
            && Filled(m, full, RetentionDays, "0") && Filled(m, full, SecretName, "default")
            && Filled(m, full, Zone, "hnet-private")
            && Get(full, MetallbPool) == Get(full, Zone) && Get(full, MetallbIPs) == Get(full, Addresses)
            && Get(full, MetallbSharedIp) == Get(full, AllowLocalSharedIp)
    ensures forall k: Key | k.Other? :: (k in WithDefaults(m, rand) <==> k in m) && (k in m ==> WithDefaults(m, rand)[k] == m[k])
  {
    var full := WithDefaults(m, rand);
    assert forall k: Key | k !in {MetallbPool, MetallbIPs, MetallbSharedIp} ::
        (k in full <==> k in m || k in Defaults(rand)) && (k in full ==> full[k] == if k in m then m[k] else Defaults(rand)[k]);
  }

  /** The text of a key. */
  function KeyText(k: Key): string {
    match k
    case Addresses => "ipam.vitistack.io/addresses"
    case DenyExternalCleanup => "ipam.vitistack.io/deny-external-cleanup"
    case AllowLocalSharedIp => "ipam.vitistack.io/allow-local-shared-ip"
    case IpFamily => "ipam.vitistack.io/ip-family"
    case RetentionDays => "ipam.vitistack.io/retention-period-days"
    case SecretName => "ipam.vitistack.io/secret"
    case Zone => "ipam.vitistack.io/zone"
    case MetallbPool => "metallb.io/address-pool"
    case MetallbIPs => "metallb.io/loadBalancerIPs"
    case MetallbSharedIp => "metallb.io/allow-shared-ip"
    case Other(ipam, name) => if ipam then "ipam.vitistack.io/" + name else name
  }

  /** A named key is one of the IPAM annotations iff its text starts with their prefix. */
  lemma IpamKeys(k: Key)
    requires !k.Other?
    ensures IsIpam(k) <==> "ipam.vitistack.io/" <= KeyText(k)
  {
    var prefix := "ipam.vitistack.io/";
    if prefix <= KeyText(k) {
      assert prefix[0] == KeyText(k)[0];
    }
  }

  /** The stored annotations an update compares with: of a Service that is no load balancer yet, the completed ones. */
  lemma StoredRead(prev: Svc, next: Svc, rand: string, c: Pools.Cluster)
    requires prev.kind != LoadBalancer
    ensures var before := PlanFor(prev, next, rand, c).before;
            && Filled(prev.annotations, before, Addresses, "") && Filled(prev.annotations, before, DenyExternalCleanup, "false")
            && Filled(prev.annotations, before, AllowLocalSharedIp, "pre-shared-key-" + rand)
            && Filled(prev.annotations, before, IpFamily, "ipv4") && Filled(prev.annotations, before, RetentionDays, "0")
            && Filled(prev.annotations, before, SecretName, "default") && Filled(prev.annotations, before, Zone, "hnet-private")
  {
    hide WithDefaults, AddressList, Without, Within, Pools.SecretValue;
    DefaultsRead(prev.annotations, rand);
  }

  // ---------------------------------------------------------------- reconciling

  lemma {:induction false} CountNone(ch: char, list: seq<string>)
    ensures CountWith(ch, list) == 0 <==> forall a | a in list :: ch !in a
  {
    if list != [] {
      CountNone(ch, list[1..]);
      assert forall a :: a in list <==> a == list[0] || a in list[1..];
    }
  }

  /** At most one element of the list contains the character. */
  predicate AtMostOneWith(ch: char, list: seq<string>) {
    forall i, j | 0 <= i < j < |list| :: !(ch in list[i] && ch in list[j])
  }

  lemma {:induction false} CountOne(ch: char, list: seq<string>)
    ensures CountWith(ch, list) <= 1 <==> AtMostOneWith(ch, list)
  {
    if list != [] {
      CountOne(ch, list[1..]);
      CountNone(ch, list[1..]);
      if AtMostOneWith(ch, list) {
        assert forall i, j | 0 <= i < j < |list[1..]| :: list[1..][i] == list[i + 1] && list[1..][j] == list[j + 1];
        forall a | a in list[1..] && ch in list[0] ensures ch !in a {
          var k :| 0 <= k < |list[1..]| && list[1..][k] == a;
          assert list[k + 1] == a;
        }
      } else {
        var i, j :| 0 <= i < j < |list| && ch in list[i] && ch in list[j];
        assert list[j] == list[1..][j - 1];
        if i > 0 {
          assert list[i] == list[1..][i - 1];
        }
      }
    }
  }

  /** The annotations reconcile iff the text is empty or lists valid addresses, at most one of each kind, and the family
      is one of the three. */
  lemma ReconcilableRead(m: Annotations)
    ensures Reconcilable(m)
       <==> (Get(m, Addresses) == ""
             || ((forall a | a in AddressList(m) :: IsValidIp(a))
                 && AtMostOneWith('.', AddressList(m)) && AtMostOneWith(':', AddressList(m))))
            && (Get(m, IpFamily) == "ipv4" || Get(m, IpFamily) == "ipv6" || Get(m, IpFamily) == "dual")
  {
    hide AddressList, IsValidIp, CountWith;
    CountOne('.', AddressList(m));
    CountOne(':', AddressList(m));
  }

  // ---------------------------------------------------------------- parsed annotations

  function Pow10(n: nat): nat { if n == 0 then 1 else 10 * Pow10(n - 1) }

  /** Decimal texts are read by position. */
  lemma {:induction false} DecimalAppend(s: string, t: string)
    requires forall c | c in s + t :: Digit(c)
    ensures (forall c | c in s :: Digit(c)) && (forall c | c in t :: Digit(c))
    ensures DecimalValue(s + t) == DecimalValue(s) * Pow10(|t|) + DecimalValue(t)
  {
    assert forall c :: c in s + t <==> c in s || c in t;
    if t == "" {
      assert s + t == s;
    } else {
      var front, last := t[..|t| - 1], t[|t| - 1];
      assert (s + t)[..|s + t| - 1] == s + front && (s + t)[|s + t| - 1] == last;
      assert forall c :: c in s + front ==> c in s + t;
      DecimalAppend(s, front);
      Expand(DecimalValue(s), Pow10(|front|), DecimalValue(front), DigitValue(last));
    }
  }

  lemma Expand(a: nat, p: nat, b: nat, d: nat)
    ensures (a * p + b) * 10 + d == a * (10 * p) + (b * 10 + d)
  {
  }

  lemma {:induction false} DecimalBound(s: string)
    requires forall c | c in s :: Digit(c)
    ensures DecimalValue(s) < Pow10(|s|)
  {
    if s != "" {
      assert s[|s| - 1] in s;
      DecimalBound(s[..|s| - 1]);
    }
  }

  lemma {:induction false} PowGrows(n: nat, k: nat)
    requires n <= k
    ensures 1 <= Pow10(n) <= Pow10(k)
    decreases k
  {
    if n < k {
      PowGrows(n, k - 1);
    } else if n > 0 {
      PowGrows(n - 1, k - 1);
    }
  }

  lemma PowSizes()
    ensures Pow10(18) == 1_000_000_000_000_000_000
  {
    assert Pow10(6) == 1_000_000;
    assert Pow10(12) == 1_000_000_000_000;
  }

  /** Every text of one to eighteen digits parses as an integer, with or without a sign, and every text that parses has
      digits only behind its first character. */
  lemma IntegersParse(s: string)
    ensures 1 <= |s| <= 18 && (forall c | c in s :: Digit(c)) ==> ParsesInt(s) && ParsesInt("+" + s) && ParsesInt("-" + s)
    ensures ParsesInt(s) ==> s != "" && (forall c | c in s[1..] :: Digit(c)) && (Digit(s[0]) || (s[0] in "+-" && |s| > 1))
  {
    if 1 <= |s| <= 18 && forall c | c in s :: Digit(c) {
      hide DecimalValue, Pow10;
      DecimalBound(s);
      PowGrows(|s|, 18);
      PowSizes();
      assert s[0] in s && ("+" + s)[1..] == s && ("-" + s)[1..] == s;
    }
  }

  /** A text of digits parses iff its value fits 64 bits. */
  lemma IntegerRange(s: string)
    requires s != "" && forall c | c in s :: Digit(c)
    ensures ParsesInt(s) <==> DecimalValue(s) <= 9_223_372_036_854_775_807
    ensures ParsesInt("-" + s) <==> DecimalValue(s) <= 9_223_372_036_854_775_808
  {
    hide DecimalValue;
    assert s[0] in s && ("-" + s)[1..] == s;
  }

  /** The texts that parse as a truth value, and no other. */
  lemma TruthValuesParse(s: string)
    ensures ParsesBool("true") && ParsesBool("false") && ParsesBool("True") && ParsesBool("False")
    ensures ParsesBool("TRUE") && ParsesBool("FALSE") && ParsesBool("1") && ParsesBool("0")
    ensures ParsesBool("t") && ParsesBool("f") && ParsesBool("T") && ParsesBool("F")
    ensures ParsesBool(s) ==> 1 <= |s| <= 5 && s[0] in "tTfF01"
  {
  }

  // ---------------------------------------------------------------- requests

  /** A request for an address states its own family, on both sides of the rewriting, and carries what the annotations
      and the caller say. */
  lemma RequestStates(id: Id, m: Annotations, secret: string, newSecret: Option<string>, a: string)
    requires IsValidIp(a)
    ensures var q := RequestFor(id, m, secret, newSecret, a);
            && ('.' in a ==> q.family == "ipv4" && Rewrite(q).family == "ipv4" && Rewrite(q).address == a + "/32")
            && (':' in a ==> q.family == "ipv6" && Rewrite(q).family == "ipv6" && Rewrite(q).address == a + "/128")
            && Rewrite(q).id == id && Rewrite(q).secret == secret && Rewrite(q).newSecret == newSecret
            && Rewrite(q).zone == Get(m, Zone)
  {
    ValidText(a);
    RewriteValid(id, m, secret, newSecret, a);
  }

  /** The shared secret is the operator's, every other one is the namespace's own. */
  lemma SecretPlace(id: Id, m: Annotations)
    ensures Get(m, SecretName) == "default" ==> Pools.SecretRef(id, m) == Id("ipam-system", "default")
    ensures Get(m, SecretName) != "default" ==> Pools.SecretRef(id, m) == Id(id.namespace, Get(m, SecretName))
  {
  }

  /** A secret is found iff the call succeeds and it is there. */
  lemma SecretFound(c: Pools.Cluster, id: Id, m: Annotations)
    ensures Pools.FetchSecret(c, id, m).ok <==> Pools.Call(c).ok && Pools.SecretRef(id, m) in c.secrets
    ensures Pools.SecretRef(id, m) in c.secrets ==> Pools.SecretValue(c, id, m) == c.secrets[Pools.SecretRef(id, m)]
  {
  }

  /** A pool is found iff the call succeeds and it is there. */
  lemma PoolFound(c: Pools.Cluster, zone: string)
    ensures Pools.VerifyPool(c, zone).ok <==> Pools.Call(c).ok && zone in c.pools
  {
  }

  // ---------------------------------------------------------------- pool contents

  /** The reference count of a text is the number of its occurrences in the lists of the LoadBalancer Services. */
  lemma {:induction false} OccurrencesRead(t: string, list: seq<string>)
    ensures Pools.Occurrences(t, list) == multiset(list)[t]
  {
    if list != [] {
      OccurrencesRead(t, list[1..]);
      assert list == [list[0]] + list[1..];
    }
  }

  lemma {:induction false} MentionsAppend(t: string, services: seq<Svc>, svc: Svc)
    ensures Pools.Mentions(t, services + [svc])
         == Pools.Mentions(t, services) + if svc.kind == LoadBalancer then multiset(AddressList(svc.annotations))[t] else 0
  {
    hide AddressList, Pools.Occurrences;
    OccurrencesRead(t, AddressList(svc.annotations));
    if services == [] {
      assert services + [svc] == [svc] && [svc][1..] == [];
    } else {
      assert (services + [svc])[1..] == services[1..] + [svc];
      MentionsAppend(t, services[1..], svc);
    }
  }

  /** A successful addition puts the missing forms behind the pool, in the order of the addresses. */
  lemma AdditionOrder(c: Pools.Cluster, zone: string, addrs: seq<string>)
    requires Pools.AddToPool(c, zone, addrs).ok
    ensures zone in c.pools ==>
              Pools.PoolOf(Pools.AddToPool(c, zone, addrs).cluster, zone)
              == c.pools[zone] + Without(Pools.AddForms(addrs), c.pools[zone])
    ensures zone !in c.pools ==> Pools.PoolOf(Pools.AddToPool(c, zone, addrs).cluster, zone) == Pools.AddForms(addrs)
    ensures |Pools.AddForms(addrs)| == |addrs| && forall i | 0 <= i < |addrs| :: Pools.AddForms(addrs)[i] == AddForm(addrs[i])
  {
    hide Without;
  }

  // ---------------------------------------------------------------- text

  /** The text occurs in the other one from some position on. */
  ghost predicate OccursAt(s: string, sub: string, i: nat) {
    i + |sub| <= |s| && s[i..i + |sub|] == sub
  }

  lemma {:induction false} ContainsRead(s: string, sub: string)
    ensures Contains(s, sub) <==> exists i :: OccursAt(s, sub, i)
  {
    if |sub| <= |s| {
      assert s[0..|sub|] == s[..|sub|];
      assert s[..|sub|] == sub <==> OccursAt(s, sub, 0);
      if s != "" {
        ContainsRead(s[1..], sub);
        forall i: nat ensures OccursAt(s[1..], sub, i) <==> OccursAt(s, sub, i + 1) {
          if i + |sub| + 1 <= |s| {
            assert s[1..][i..i + |sub|] == s[i + 1..i + 1 + |sub|];
          }
        }
        if i: nat :| i > 0 && OccursAt(s, sub, i) {
          assert OccursAt(s[1..], sub, i - 1);
        }
      }
    }
  }

  /** Dropping spaces filters them out. */
  lemma {:induction false} DropSpacesRead(s: string)
    ensures DropSpaces(s) == Without(s, " ")
  {
    if s != "" {
      DropSpacesRead(s[1..]);
    }
  }

  /** Trimming takes spaces off both ends and nothing else. */
  lemma {:induction false} TrimRead(s: string) returns (i: nat, j: nat)
    ensures i <= j <= |s| && Trim(s) == s[i..j]
    ensures (forall k | 0 <= k < i || j <= k < |s| :: s[k] == ' ')
    ensures Trim(s) != "" ==> Trim(s)[0] != ' ' && Trim(s)[|Trim(s)| - 1] != ' '
    decreases |s|
  {
    if s != "" && s[0] == ' ' {
      var i', j' := TrimRead(s[1..]);
      i, j := i' + 1, j' + 1;
      assert s[1..][i'..j'] == s[i..j];
      forall k | 0 <= k < i || j <= k < |s| ensures s[k] == ' ' {
        assert k > 0 ==> s[k] == s[1..][k - 1];
      }
    } else if s != "" && s[|s| - 1] == ' ' {
      var front := s[..|s| - 1];
      i, j := TrimRead(front);
      assert front[i..j] == s[i..j];
      forall k | 0 <= k < i || j <= k < |s| ensures s[k] == ' ' {
        assert k < |front| ==> s[k] == front[k];
      }
    } else {
      i, j := 0, |s|;
    }
  }

  lemma DigitChars(c: char)
    ensures Digit(c) <==> c in "0123456789"
  {
    var s := "0123456789";
    assert Digit(c) ==> s[c as int - '0' as int] == c;
  }

  lemma HexDigitChars(c: char)
    ensures HexDigit(c) <==> c in "0123456789" || c in "abcdef" || c in "ABCDEF"
  {
    DigitChars(c);
    var low, high := "abcdef", "ABCDEF";
    assert 'a' <= c <= 'f' ==> low[c as int - 'a' as int] == c;
    assert 'A' <= c <= 'F' ==> high[c as int - 'A' as int] == c;
  }

  /** The characters that addresses are made of. */
  lemma AddressChars(s: string)
    ensures IsIPv4(s) <==> '.' in s && forall c | c in s :: c in "0123456789" || c == '.'
    ensures IsIPv6(s) <==> ':' in s && forall c | c in s :: c in "0123456789" || c in "abcdef" || c in "ABCDEF" || c == ':'
  {
    hide Digit, HexDigit;
    forall c ensures Digit(c) <==> c in "0123456789"
             ensures HexDigit(c) <==> c in "0123456789" || c in "abcdef" || c in "ABCDEF" {
      DigitChars(c);
      HexDigitChars(c);
    }
  }

  /** The lookup form of a text that is no valid address is the trimmed text. */
  lemma LookupForm(t: string)
    ensures !IsValidIp(Trim(t)) ==> VerifyForm(t) == Trim(t)
    ensures IsValidIp(Trim(t)) ==> VerifyForm(t) == Prefixed(Trim(t))
  {
  }
}
