/** What the pool functions do to pool contents: union on add, reference-counted difference on remove. */
module PoolFacts {
  import opened Text
  import opened Lists
  import opened Services
  import opened Pools

  // ---------------------------------------------------------------- counting mentions

  predicate Mentioned(svc: Svc, t: string) {
    svc.kind == LoadBalancer && t in AddressList(svc.annotations)
  }

  lemma {:induction false} OccursOnce(t: string, list: seq<string>)
    ensures Occurrences(t, list) >= 1 <==> t in list
    ensures Distinct(list) ==> Occurrences(t, list) <= 1
  {
    if list != [] {
      OccursOnce(t, list[1..]);
    }
  }

  lemma {:induction false} MentionsNone(t: string, services: seq<Svc>)
    requires forall k | 0 <= k < |services| :: !Mentioned(services[k], t)
    ensures Mentions(t, services) == 0
  {
    hide AddressList, Occurrences;
    if services != [] {
      OccursOnce(t, AddressList(services[0].annotations));
      assert !Mentioned(services[0], t);
      MentionsNone(t, services[1..]);
    }
  }

  lemma {:induction false} MentionsSome(t: string, services: seq<Svc>, i: nat)
    requires i < |services| && Mentioned(services[i], t)
    ensures Mentions(t, services) >= 1
  {
    hide AddressList, Occurrences;
    OccursOnce(t, AddressList(services[0].annotations));
    if i > 0 {
      MentionsSome(t, services[1..], i - 1);
    }
  }

  /** Two LoadBalancer Services that list an address text make its count at least two. */
  lemma {:induction false} MentionsTwo(t: string, services: seq<Svc>, i: nat, j: nat)
    requires i < j < |services| && Mentioned(services[i], t) && Mentioned(services[j], t)
    ensures Mentions(t, services) >= 2
  {
    hide AddressList, Occurrences;
    OccursOnce(t, AddressList(services[0].annotations));
    if i > 0 {
      MentionsTwo(t, services[1..], i - 1, j - 1);
    } else {
      MentionsSome(t, services[1..], j - 1);
    }
  }

  /** A text listed once by exactly one LoadBalancer Service has count one. */
  lemma {:induction false} MentionsOne(t: string, services: seq<Svc>, i: nat)
    requires i < |services| && Mentioned(services[i], t) && Distinct(AddressList(services[i].annotations))
    requires forall k | 0 <= k < |services| && k != i :: !Mentioned(services[k], t)
    ensures Mentions(t, services) == 1
  {
    hide AddressList, Occurrences;
    OccursOnce(t, AddressList(services[0].annotations));
    if i > 0 {
      assert !Mentioned(services[0], t);
      MentionsOne(t, services[1..], i - 1);
    } else {
      MentionsNone(t, services[1..]);
    }
  }

  // ---------------------------------------------------------------- removing

  /** `t` is the form of a requested address with exactly one LoadBalancer mention. */
  ghost predicate Orphaned(t: string, addrs: seq<string>, services: seq<Svc>) {
    exists a :: a in addrs && Mentions(BeforeSlash(a), services) == 1 && RemoveForm(a) == t
  }

  lemma {:induction false} UnusedHas(addrs: seq<string>, services: seq<Svc>, t: string)
    ensures t in Unused(addrs, services) <==> Orphaned(t, addrs, services)
  {
    hide Mentions, BeforeSlash, RemoveForm;
    if addrs != [] {
      UnusedHas(addrs[1..], services, t);
      assert forall a :: a in addrs <==> a == addrs[0] || a in addrs[1..];
    }
  }

  lemma {:induction false} WithoutSubsequence(xs: seq<string>, ys: seq<string>)
    ensures Subsequence(Without(xs, ys), xs)
  {
    DiffKeepsOrder(xs, ys);
  }

  /** Removal, for any pool, Service list and address list: in the original order it keeps every entry but the
      orphaned ones, and the pool is deleted iff nothing is left. */
  lemma RemovalExact(c: Cluster, zone: string, addrs: seq<string>, t: string)
    requires RemoveFromPool(c, zone, addrs).ok
    ensures var after := RemoveFromPool(c, zone, addrs).cluster;
            && zone in c.pools
            && (t in PoolOf(after, zone) <==> t in PoolOf(c, zone) && !Orphaned(t, addrs, c.services))
            && Subsequence(PoolOf(after, zone), PoolOf(c, zone))
            && (Distinct(PoolOf(c, zone)) ==> Distinct(PoolOf(after, zone)))
            && (zone !in after.pools <==> forall u | u in PoolOf(c, zone) :: Orphaned(u, addrs, c.services))
            && (zone in after.pools ==> after.pools[zone] != [])
            && (forall z | z != zone :: (z in c.pools <==> z in after.pools) && PoolOf(after, z) == PoolOf(c, z))
  {
    hide Unused, Orphaned, Without, Subsequence, Distinct;
    var pool, gone := c.pools[zone], Unused(addrs, c.services);
    var rest := Without(pool, gone);
    WithoutSubsequence(pool, gone);
    if Distinct(pool) {
      WithoutDistinct(pool, gone);
    }
    forall u ensures u in rest <==> u in pool && !Orphaned(u, addrs, c.services) {
      WithoutHas(pool, gone, u);
      UnusedHas(addrs, c.services, u);
    }
    if rest != [] {
      assert rest[0] in rest;
    }
    assert PoolOf(RemoveFromPool(c, zone, addrs).cluster, zone) == rest;
  }

  lemma RemovalFails(c: Cluster, zone: string, addrs: seq<string>)
    requires !RemoveFromPool(c, zone, addrs).ok
    ensures RemoveFromPool(c, zone, addrs).cluster.pools == c.pools
  {
    hide Reduced, Unused;
  }

  /** Removing addresses that one LoadBalancer Service lists never drops one that another of them lists. */
  lemma RemovalSafe(addrs: seq<string>, services: seq<Svc>, i: nat, j: nat, b: string)
    requires i < |services| && j < |services| && i != j
    requires forall a | a in addrs :: IsValidIp(a) && Mentioned(services[i], a)
    requires IsValidIp(b) && Mentioned(services[j], b)
    ensures !Orphaned(Prefixed(b), addrs, services)
  {
    hide Mentions, AddressList, BeforeSlash, RemoveForm, Prefixed;
    forall a | a in addrs && Mentions(BeforeSlash(a), services) == 1 && RemoveForm(a) == Prefixed(b) ensures false {
      BareForms(a);
      PrefixedInjective(a, b);
      MentionsTwo(a, services, if i < j then i else j, if i < j then j else i);
    }
  }

  lemma BareForms(a: string)
    requires IsValidIp(a)
    ensures BeforeSlash(a) == a && RemoveForm(a) == Prefixed(a) && AddForm(a) == Prefixed(a) && VerifyForm(a) == Prefixed(a)
  {
    hide RemoveForm, AddForm, VerifyForm, BeforeSlash, Prefixed;
    NormalisersAgree(a);
    ValidText(a);
    BeforeSlashPrefix(a, "");
  }

  // ---------------------------------------------------------------- adding

  lemma FormsHave(addrs: seq<string>, t: string)
    ensures t in AddForms(addrs) <==> exists a :: a in addrs && AddForm(a) == t
  {
    hide AddForm;
    if t in AddForms(addrs) {
      var k :| 0 <= k < |addrs| && AddForms(addrs)[k] == t;
      assert addrs[k] in addrs;
    }
    if a :| a in addrs && AddForm(a) == t {
      var k :| 0 <= k < |addrs| && addrs[k] == a;
      assert AddForms(addrs)[k] == t;
    }
  }

  lemma FormsDistinct(addrs: seq<string>)
    requires Distinct(addrs) && forall a | a in addrs :: IsValidIp(a)
    ensures Distinct(AddForms(addrs))
  {
    hide AddForm, Prefixed, IsValidIp;
    forall i, j | 0 <= i < j < |addrs| ensures AddForms(addrs)[i] != AddForms(addrs)[j] {
      BareForms(addrs[i]);
      BareForms(addrs[j]);
      if AddForms(addrs)[i] == AddForms(addrs)[j] {
        PrefixedInjective(addrs[i], addrs[j]);
      }
    }
  }

  /** A successful addition yields the set union, appends at the end and keeps other zones and distinctness. */
  lemma AdditionExact(c: Cluster, zone: string, addrs: seq<string>, t: string)
    requires AddToPool(c, zone, addrs).ok
    ensures var after := AddToPool(c, zone, addrs).cluster;
            && zone in after.pools
            && (t in PoolOf(after, zone) <==> t in PoolOf(c, zone) || t in AddForms(addrs))
            && PoolOf(c, zone) <= PoolOf(after, zone)
            && (Distinct(PoolOf(c, zone)) && Distinct(AddForms(addrs)) ==> Distinct(PoolOf(after, zone)))
            && (forall z | z != zone :: (z in c.pools <==> z in after.pools) && PoolOf(after, z) == PoolOf(c, z))
            && after.addsFailed == c.addsFailed
  {
    hide AddForms, Without;
    var forms, old_ := AddForms(addrs), PoolOf(c, zone);
    var added := Without(forms, old_);
    WithoutHas(forms, old_, t);
    if zone !in c.pools {
      WithoutNone(forms, old_);
      assert [] + forms == forms;
    }
    assert PoolOf(AddToPool(c, zone, addrs).cluster, zone) == old_ + added;
    if Distinct(old_) && Distinct(forms) {
      WithoutDistinct(forms, old_);
      forall k | 0 <= k < |added| ensures added[k] !in old_ {
        WithoutHas(forms, old_, added[k]);
      }
    }
  }

  lemma AdditionFails(c: Cluster, zone: string, addrs: seq<string>)
    requires !AddToPool(c, zone, addrs).ok
    ensures AddToPool(c, zone, addrs).cluster.pools == c.pools
    ensures AddToPool(c, zone, addrs).cluster.addsFailed == c.addsFailed + 1
    ensures AddToPool(c, zone, addrs).cluster.faults > c.faults
  {
    hide AddForms, Without;
  }

  lemma AppendThenDrop(pool: seq<string>, addrs: seq<string>)
    requires forall a | a in addrs :: IsValidIp(a) && Prefixed(a) !in pool
    ensures Without(pool + Without(AddForms(addrs), pool), AddForms(addrs)) == pool
  {
    hide AddForm, Prefixed, IsValidIp;
    var forms := AddForms(addrs);
    forall t | t in forms ensures t !in pool {
      FormsHave(addrs, t);
      var a :| a in addrs && AddForm(a) == t;
      BareForms(a);
    }
    WithoutNone(forms, pool);
    WithoutAppend(pool, forms, forms);
    WithoutNone(pool, forms);
    WithoutAll(forms, forms);
    assert pool + [] == pool;
  }

  /** Addresses that one LoadBalancer Service alone mentions, once, are taken out under the forms they were added with. */
  lemma {:induction false} UnusedForms(addrs: seq<string>, services: seq<Svc>)
    requires forall a | a in addrs :: IsValidIp(a) && Mentions(a, services) == 1
    ensures Unused(addrs, services) == AddForms(addrs)
  {
    hide Mentions, AddForm, RemoveForm, BeforeSlash, IsValidIp, Prefixed;
    if addrs != [] {
      assert addrs[0] in addrs;
      BareForms(addrs[0]);
      UnusedForms(addrs[1..], services);
      assert AddForms(addrs) == [AddForm(addrs[0])] + AddForms(addrs[1..]);
    }
  }

  /** Adding addresses that are not pooled and removing them again, while one LoadBalancer Service mentions each of
      them, gives every pool back entry for entry, and deletes a pool that the addition had created. */
  lemma AddThenRemove(c: Cluster, zone: string, addrs: seq<string>, c2: Cluster)
    requires AddToPool(c, zone, addrs).ok && c2.pools == AddToPool(c, zone, addrs).cluster.pools
    requires RemoveFromPool(c2, zone, addrs).ok
    requires forall a | a in addrs :: IsValidIp(a) && Prefixed(a) !in PoolOf(c, zone) && Mentions(a, c2.services) == 1
    ensures forall z :: PoolOf(RemoveFromPool(c2, zone, addrs).cluster, z) == PoolOf(c, z)
    ensures zone !in c.pools || c.pools[zone] != [] ==> RemoveFromPool(c2, zone, addrs).cluster.pools == c.pools
  {
    hide Mentions, AddForms, Unused, Prefixed, IsValidIp, Without;
    var pool, forms := PoolOf(c, zone), AddForms(addrs);
    UnusedForms(addrs, c2.services);
    AppendThenDrop(pool, addrs);
    if zone !in c.pools {
      WithoutNone(forms, []);
      assert [] + forms == forms;
    }
    assert Without(c2.pools[zone], forms) == pool;
  }
}
