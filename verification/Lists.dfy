/** Order-preserving list differences (internal/utils/prefixSlicesDiff.go, removeAddressesHelper). */
module Lists {

  /** The elements of `xs` that do not occur in `ys`, in their order in `xs`. */
  function Without<T(==)>(xs: seq<T>, ys: seq<T>): seq<T> {
    if xs == [] then [] else (if xs[0] in ys then [] else [xs[0]]) + Without(xs[1..], ys)
  }

  /** The elements of `xs` that occur in `ys`, in their order in `xs`. */
  function Within<T(==)>(xs: seq<T>, ys: seq<T>): seq<T> {
    if xs == [] then [] else (if xs[0] in ys then [xs[0]] else []) + Within(xs[1..], ys)
  }

  predicate Distinct<T(==)>(xs: seq<T>) {
    forall i, j :: 0 <= i < j < |xs| ==> xs[i] != xs[j]
  }

  /** `sub` can be read off `xs` from left to right. */
  ghost predicate Subsequence<T>(sub: seq<T>, xs: seq<T>) {
    if sub == [] then true
    else if xs == [] then false
    else (sub[0] == xs[0] && Subsequence(sub[1..], xs[1..])) || Subsequence(sub, xs[1..])
  }

  lemma {:induction false} WithoutHas<T>(xs: seq<T>, ys: seq<T>, x: T)
    ensures x in Without(xs, ys) <==> x in xs && x !in ys
    ensures |Without(xs, ys)| <= |xs|
  {
    if xs != [] {
      WithoutHas(xs[1..], ys, x);
    }
  }

  lemma {:induction false} WithinHas<T>(xs: seq<T>, ys: seq<T>, x: T)
    ensures x in Within(xs, ys) <==> x in xs && x in ys
    ensures |Within(xs, ys)| <= |xs|
  {
    if xs != [] {
      WithinHas(xs[1..], ys, x);
    }
  }

  lemma {:induction false} WithoutDistinct<T>(xs: seq<T>, ys: seq<T>)
    requires Distinct(xs)
    ensures Distinct(Without(xs, ys))
  {
    if xs != [] {
      WithoutDistinct(xs[1..], ys);
      WithoutHas(xs[1..], ys, xs[0]);
    }
  }

  lemma {:induction false} WithinDistinct<T>(xs: seq<T>, ys: seq<T>)
    requires Distinct(xs)
    ensures Distinct(Within(xs, ys))
  {
    if xs != [] {
      WithinDistinct(xs[1..], ys);
      WithinHas(xs[1..], ys, xs[0]);
    }
  }

  lemma {:induction false} WithoutNone<T>(xs: seq<T>, ys: seq<T>)
    requires forall x | x in xs :: x !in ys
    ensures Without(xs, ys) == xs
  {
    if xs != [] {
      WithoutNone(xs[1..], ys);
      assert xs == [xs[0]] + xs[1..];
    }
  }

  lemma {:induction false} WithinNone<T>(xs: seq<T>, ys: seq<T>)
    requires forall x | x in xs :: x !in ys
    ensures Within(xs, ys) == []
  {
    if xs != [] {
      WithinNone(xs[1..], ys);
    }
  }

  lemma {:induction false} WithoutAppend<T>(a: seq<T>, b: seq<T>, ys: seq<T>)
    ensures Without(a + b, ys) == Without(a, ys) + Without(b, ys)
  {
    if a == [] {
      assert a + b == b;
    } else {
      WithoutAppend(a[1..], b, ys);
      assert (a + b)[1..] == a[1..] + b;
      var head := if a[0] in ys then [] else [a[0]];
      assert (head + Without(a[1..], ys)) + Without(b, ys) == head + (Without(a[1..], ys) + Without(b, ys));
    }
  }

  lemma {:induction false} WithoutAll<T>(xs: seq<T>, ys: seq<T>)
    requires forall x | x in xs :: x in ys
    ensures Without(xs, ys) == []
  {
    if xs != [] {
      WithoutAll(xs[1..], ys);
    }
  }

  /** New and kept addresses split the new list as multisets. */
  lemma {:induction false} DiffPartitions<T>(news: seq<T>, olds: seq<T>)
    ensures multiset(Without(news, olds)) + multiset(Within(news, olds)) == multiset(news)
  {
    if news != [] {
      DiffPartitions(news[1..], olds);
      assert news == [news[0]] + news[1..];
    }
  }

  /** New and kept addresses come in the order of the new list. */
  lemma {:induction false} DiffKeepsOrder<T>(news: seq<T>, olds: seq<T>)
    ensures Subsequence(Without(news, olds), news)
    ensures Subsequence(Within(news, olds), news)
  {
    if news != [] {
      DiffKeepsOrder(news[1..], olds);
      var new1, keep1 := Without(news[1..], olds), Within(news[1..], olds);
      SubsequenceCons(new1, news);
      SubsequenceCons(keep1, news);
      assert [] + new1 == new1 && [] + keep1 == keep1;
    }
  }

  lemma SubsequenceCons<T>(sub: seq<T>, xs: seq<T>)
    requires xs != [] && Subsequence(sub, xs[1..])
    ensures Subsequence(sub, xs)
    ensures Subsequence([xs[0]] + sub, xs)
  {
    assert ([xs[0]] + sub)[1..] == sub;
  }

  /** Taking the removed addresses out of the old list and adding the new ones gives the elements of the new list. */
  lemma DiffReconstructs<T>(news: seq<T>, olds: seq<T>, x: T)
    ensures x in Without(olds, news) ==> x !in news
    ensures x in Without(olds, Without(olds, news)) + Without(news, olds) <==> x in news
  {
    WithoutHas(olds, news, x);
    WithoutHas(olds, Without(olds, news), x);
    WithoutHas(news, olds, x);
  }

  /** One round of an appending loop. */
  lemma WithoutRound<T>(acc: seq<T>, xs: seq<T>, ys: seq<T>, i: nat)
    requires i < |xs|
    ensures acc + Without(xs[i..], ys)
         == (if xs[i] in ys then acc else acc + [xs[i]]) + Without(xs[i + 1..], ys)
  {
    assert xs[i..][1..] == xs[i + 1..];
  }

  lemma WithinRound<T>(acc: seq<T>, xs: seq<T>, ys: seq<T>, i: nat)
    requires i < |xs|
    ensures acc + Within(xs[i..], ys)
         == (if xs[i] in ys then acc + [xs[i]] else acc) + Within(xs[i + 1..], ys)
  {
    assert xs[i..][1..] == xs[i + 1..];
  }

  method PrefixSlicesDiff(oldServicePrefixes: seq<string>, newServicePrefixes: seq<string>)
    returns (newPrefixes: seq<string>, keepPrefixes: seq<string>, removePrefixes: seq<string>)
    ensures newPrefixes == Without(newServicePrefixes, oldServicePrefixes)
    ensures keepPrefixes == Within(newServicePrefixes, oldServicePrefixes)
    ensures removePrefixes == Without(oldServicePrefixes, newServicePrefixes)
  {
    newPrefixes := [];
    for i := 0 to |newServicePrefixes|
      invariant newPrefixes + Without(newServicePrefixes[i..], oldServicePrefixes)
             == Without(newServicePrefixes, oldServicePrefixes)
    {
      WithoutRound(newPrefixes, newServicePrefixes, oldServicePrefixes, i);
      if newServicePrefixes[i] !in oldServicePrefixes {
        newPrefixes := newPrefixes + [newServicePrefixes[i]];
      }
    }
    keepPrefixes := [];
    for i := 0 to |newServicePrefixes|
      invariant keepPrefixes + Within(newServicePrefixes[i..], oldServicePrefixes)
             == Within(newServicePrefixes, oldServicePrefixes)
    {
      WithinRound(keepPrefixes, newServicePrefixes, oldServicePrefixes, i);
      if newServicePrefixes[i] in oldServicePrefixes {
        keepPrefixes := keepPrefixes + [newServicePrefixes[i]];
      }
    }
    removePrefixes := [];
    for i := 0 to |oldServicePrefixes|
      invariant removePrefixes + Without(oldServicePrefixes[i..], newServicePrefixes)
             == Without(oldServicePrefixes, newServicePrefixes)
    {
      WithoutRound(removePrefixes, oldServicePrefixes, newServicePrefixes, i);
      if oldServicePrefixes[i] !in newServicePrefixes {
        removePrefixes := removePrefixes + [oldServicePrefixes[i]];
      }
    }
  }

  /** removeAddressesHelper: the removal list goes through a map, every occurrence in `src` is dropped. */
  method RemoveAddressesHelper(src: seq<string>, toRemove: seq<string>) returns (result: seq<string>)
    ensures result == Without(src, toRemove)
  {
    var removeMap: map<string, ()> := map[];
    for i := 0 to |toRemove|
      invariant forall t :: t in removeMap <==> t in toRemove[..i]
    {
      assert toRemove[..i + 1] == toRemove[..i] + [toRemove[i]];
      removeMap := removeMap[toRemove[i] := ()];
    }
    assert toRemove[..|toRemove|] == toRemove;
    result := [];
    for i := 0 to |src|
      invariant result + Without(src[i..], toRemove) == Without(src, toRemove)
    {
      WithoutRound(result, src, toRemove, i);
      if src[i] !in removeMap {
        result := result + [src[i]];
      }
    }
  }
}
