/** Text handling the handlers rely on: splitting, substring tests, IP text and the four address normalisers. */
module Text {

  // ---------------------------------------------------------------- splitting

  /** Go's strings.Split for a one-character separator. */
  function Split(s: string, sep: char): (parts: seq<string>)
    ensures |parts| >= 1
    ensures forall p | p in parts :: sep !in p
  {
    if s == "" then [""]
    else
      var rest := Split(s[1..], sep);
      if s[0] == sep then [""] + rest else [[s[0]] + rest[0]] + rest[1..]
  }

  /** The text that Split takes apart. */
  function Join(parts: seq<string>, sep: char): string
    requires |parts| >= 1
  {
    if |parts| == 1 then parts[0] else parts[0] + [sep] + Join(parts[1..], sep)
  }

  lemma {:induction false} JoinSplit(s: string, sep: char)
    ensures Join(Split(s, sep), sep) == s
  {
    if s != "" {
      JoinSplit(s[1..], sep);
      var rest := Split(s[1..], sep);
      assert s == [s[0]] + s[1..];
      if s[0] == sep {
        assert ([""] + rest)[1..] == rest;
      } else {
        assert ([[s[0]] + rest[0]] + rest[1..])[1..] == rest[1..];
      }
    }
  }

  /** Writing `head` and a separator in front of a text puts exactly one element in front of its split list. */
  lemma {:induction false} SplitPrepend(head: string, tail: string, sep: char)
    requires sep !in head
    ensures Split(head + [sep] + tail, sep) == [head] + Split(tail, sep)
  {
    var s := head + [sep] + tail;
    if head == "" {
      assert s[1..] == tail;
    } else {
      assert s[1..] == head[1..] + [sep] + tail;
      SplitPrepend(head[1..], tail, sep);
      assert s[0] == head[0];
      assert [head[0]] + head[1..] == head;
    }
  }

  lemma {:induction false} SplitNone(s: string, sep: char)
    requires sep !in s
    ensures Split(s, sep) == [s]
  {
    if s != "" {
      SplitNone(s[1..], sep);
      assert [s[0]] + s[1..] == s;
    }
  }

  lemma {:induction false} SplitJoin(parts: seq<string>, sep: char)
    requires |parts| >= 1
    requires forall p | p in parts :: sep !in p
    ensures Split(Join(parts, sep), sep) == parts
  {
    if |parts| == 1 {
      SplitNone(parts[0], sep);
    } else {
      SplitJoin(parts[1..], sep);
      SplitPrepend(parts[0], Join(parts[1..], sep), sep);
    }
  }

  /** A character other than the separator occurs in a text iff it occurs in one of its parts. */
  lemma {:induction false} SplitChars(s: string, sep: char, ch: char)
    requires ch != sep
    ensures ch in s <==> exists p :: p in Split(s, sep) && ch in p
  {
    var parts := Split(s, sep);
    if s != "" {
      SplitChars(s[1..], sep, ch);
      var rest := Split(s[1..], sep);
      assert ch in s <==> ch == s[0] || ch in s[1..];
      if s[0] == sep {
        assert forall p :: p in parts <==> p == "" || p in rest;
      } else {
        assert parts[0] == [s[0]] + rest[0];
        forall p | p in rest && ch in p ensures exists q :: q in parts && ch in q {
          var k :| 0 <= k < |rest| && rest[k] == p;
          assert parts[k] in parts && ch in parts[k];
        }
        forall q | q in parts && ch in q ensures ch in s {
          var k :| 0 <= k < |parts| && parts[k] == q;
          assert rest[k] in rest;
        }
        if ch == s[0] {
          assert parts[0] in parts;
        }
      }
    }
  }

  // ---------------------------------------------------------------- substrings

  /** Go's strings.Contains. */
  predicate Contains(s: string, sub: string) {
    |sub| <= |s| && (s[..|sub|] == sub || (s != "" && Contains(s[1..], sub)))
  }

  lemma {:induction false} ContainsNeedsHead(s: string, sub: string)
    requires sub != "" && sub[0] !in s
    ensures !Contains(s, sub)
  {
    if |sub| <= |s| {
      assert s[..|sub|][0] == s[0];
      ContainsNeedsHead(s[1..], sub);
    }
  }

  lemma {:induction false} ContainsSuffix(s: string, sub: string)
    ensures Contains(s + sub, sub)
  {
    if s == "" {
      assert s + sub == sub;
    } else {
      assert (s + sub)[1..] == s[1..] + sub;
      ContainsSuffix(s[1..], sub);
    }
  }

  /** The part before the first '/': strings.Split(s, "/")[0]. */
  function BeforeSlash(s: string): string {
    Split(s, '/')[0]
  }

  lemma BeforeSlashPrefix(a: string, bits: string)
    requires '/' !in a
    ensures BeforeSlash(a) == a
    ensures BeforeSlash(a + "/" + bits) == a
  {
    SplitNone(a, '/');
    SplitPrepend(a, bits, '/');
  }

  /** strings.ReplaceAll(s, " ", ""). */
  function DropSpaces(s: string): string {
    if s == "" then "" else (if s[0] == ' ' then "" else [s[0]]) + DropSpaces(s[1..])
  }

  lemma {:induction false} DropSpacesNoOp(s: string)
    requires ' ' !in s
    ensures DropSpaces(s) == s
  {
    if s != "" {
      DropSpacesNoOp(s[1..]);
      assert [s[0]] + s[1..] == s;
    }
  }

  /** strings.Trim(s, " "). */
  function Trim(s: string): string {
    if s != "" && s[0] == ' ' then Trim(s[1..])
    else if s != "" && s[|s| - 1] == ' ' then Trim(s[..|s| - 1])
    else s
  }

  // ---------------------------------------------------------------- IP text

  predicate Digit(c: char) { '0' <= c <= '9' }

  predicate HexDigit(c: char) { Digit(c) || 'a' <= c <= 'f' || 'A' <= c <= 'F' }

  /** Text of a dotted quad, by its characters. */
  predicate IsIPv4(s: string) {
    '.' in s && forall c | c in s :: Digit(c) || c == '.'
  }

  /** Text of an IPv6 address without an embedded dotted quad, by its characters. */
  predicate IsIPv6(s: string) {
    ':' in s && forall c | c in s :: HexDigit(c) || c == ':'
  }

  predicate IsValidIp(s: string) { IsIPv4(s) || IsIPv6(s) }

  lemma ValidText(a: string)
    requires IsValidIp(a)
    ensures a != "" && '/' !in a && ',' !in a && ' ' !in a
    ensures IsIPv4(a) <==> '.' in a
    ensures IsIPv6(a) <==> ':' in a
    ensures '.' in a <==> ':' !in a
  {
  }

  // ---------------------------------------------------------------- normalisers

  /** The host prefix a bare address stands for. */
  function Prefixed(a: string): string {
    if '.' in a then a + "/32" else a + "/128"
  }

  /** One element of the first loop of AddIpAddressesToPool. Both tests look at the original text. */
  function AddForm(a: string): string {
    var four := if '.' in a && !Contains(a, "/32") then a + "/32" else a;
    if ':' in a && !Contains(a, "/128") then a + "/128" else four
  }

  /** The rewriting at the head of RequestIP and DeleteIP. The second test looks at the rewritten text. */
  function RequestForm(a: string): string {
    var four := if '.' in a && !Contains(a, "/32") then a + "/32" else a;
    if ':' in four && !Contains(four, "/128") then four + "/128" else four
  }

  /** The form RemoveIPAddressesFromPool takes out of the pool. */
  function RemoveForm(a: string): string {
    var four := if '.' in a then BeforeSlash(a) + "/32" else a;
    if ':' in four then BeforeSlash(four) + "/128" else four
  }

  /** The form VerifyIpAddressesInPool looks up. */
  function VerifyForm(a: string): string {
    var t := Trim(a);
    if IsValidIp(t) then if IsIPv4(t) then t + "/32" else t + "/128" else t
  }

  /** On bare addresses all four places compute the same text. */
  lemma NormalisersAgree(a: string)
    requires IsValidIp(a)
    ensures AddForm(a) == RequestForm(a) == RemoveForm(a) == VerifyForm(a) == Prefixed(a)
  {
    ValidText(a);
    ContainsNeedsHead(a, "/32");
    ContainsNeedsHead(a, "/128");
    BeforeSlashPrefix(a, "32");
    assert a[0] in a && a[|a| - 1] in a;
    assert Trim(a) == a;
  }

  /** The form taken out for a text in front of whose first '/' stands a valid address is that address's. */
  lemma RemoveFormOf(b: string)
    requires IsValidIp(BeforeSlash(b))
    ensures RemoveForm(b) == Prefixed(BeforeSlash(b))
  {
    var x, parts := BeforeSlash(b), Split(b, '/');
    JoinSplit(b, '/');
    ValidText(x);
    assert forall c | c in x :: c in b by {
      if |parts| == 1 {
        assert x == b;
      } else {
        assert b == x + ['/'] + Join(parts[1..], '/');
      }
    }
    BeforeSlashPrefix(x, "32");
    assert x + "/32" == x + "/" + "32";
  }

  lemma PrefixedInjective(a: string, b: string)
    requires Prefixed(a) == Prefixed(b)
    ensures a == b
  {
    var p, q := Prefixed(a), Prefixed(b);
    assert p[|p| - 1] == (if '.' in a then '2' else '8') && q[|q| - 1] == (if '.' in b then '2' else '8');
    assert p[..|a|] == a && q[..|b|] == b;
  }

  /** The substring-guarded forms leave alone what they have produced, for every text that is not of both families. */
  lemma GuardedFormsIdempotent(a: string)
    requires !('.' in a && ':' in a)
    ensures AddForm(AddForm(a)) == AddForm(a)
    ensures RequestForm(RequestForm(a)) == RequestForm(a)
  {
    ContainsSuffix(a, "/32");
    ContainsSuffix(a, "/128");
  }

  /** A reply already carrying its prefix length names the same lease as the bare address cut from it. */
  lemma RequestFormOfPrefixed(a: string)
    requires IsValidIp(a)
    ensures RequestForm(Prefixed(a)) == Prefixed(a)
    ensures BeforeSlash(Prefixed(a)) == a
  {
    NormalisersAgree(a);
    GuardedFormsIdempotent(a);
    ValidText(a);
    BeforeSlashPrefix(a, "32");
    BeforeSlashPrefix(a, "128");
    assert a + "/32" == a + "/" + "32" && a + "/128" == a + "/" + "128";
  }
}
