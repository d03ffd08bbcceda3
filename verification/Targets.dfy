/** Long-link target selection: internal/protocol/newdns.go, orderLonglinkTargets. */
module Targets {

  datatype Target = Target(ip: string, port: int)

  // ---- String order ----------------------------------------------------------------------

  /** Go's < on strings. */
  predicate Less(a: string, b: string) {
    |b| > 0 && (|a| == 0 || a[0] < b[0] || (a[0] == b[0] && Less(a[1..], b[1..])))
  }

  /** Less is the lexicographic order: at the first difference the smaller character, or the end, comes
      first. */
  lemma {:induction false} LessIsLexicographic(a: string, b: string, i: nat)
    requires i <= |a| && i <= |b| && a[..i] == b[..i]
    requires (i == |a| && i < |b|) || (i < |a| && i < |b| && a[i] < b[i])
    ensures Less(a, b) && !Less(b, a)
    decreases i
  {
    if i > 0 {
      assert a[0] == a[..i][0] && b[0] == b[..i][0];
      assert a[1..][..i - 1] == a[..i][1..] && b[1..][..i - 1] == b[..i][1..];
      LessIsLexicographic(a[1..], b[1..], i - 1);
    }
  }

  lemma {:induction false} LessTransitive(a: string, b: string, c: string)
    requires Less(a, b) && Less(b, c)
    ensures Less(a, c)
    decreases |a|
  {
    if |a| > 0 && a[0] == b[0] && b[0] == c[0] { LessTransitive(a[1..], b[1..], c[1..]); }
  }

  lemma {:induction false} LessTotal(a: string, b: string)
    ensures a == b || Less(a, b) || Less(b, a)
    ensures !(Less(a, b) && Less(b, a)) && !Less(a, a)
    decreases |a|
  {
    if |a| > 0 && |b| > 0 {
      LessTotal(a[1..], b[1..]);
      assert a == [a[0]] + a[1..] && b == [b[0]] + b[1..];
    } else if |a| > 0 {
      LessTotal(a[1..], a[1..]);
    }
  }

  lemma NotLessTransitive(a: string, b: string, c: string)
    requires !Less(b, a) && !Less(c, b)
    ensures !Less(c, a)
  {
    LessTotal(a, b);
    LessTotal(b, c);
    LessTotal(a, c);
    if Less(c, a) {
      if Less(a, b) { LessTransitive(c, a, b); }
      if Less(b, c) { LessTransitive(b, c, a); }
    }
  }

  // ---- Stable sort by IP -----------------------------------------------------------------

  predicate SortedByIp(s: seq<Target>) {
    forall i, j :: 0 <= i < j < |s| ==> !Less(s[j].ip, s[i].ip)
  }

  predicate StrictByIp(s: seq<Target>) {
    forall i, j :: 0 <= i < j < |s| ==> Less(s[i].ip, s[j].ip)
  }

  /** The entries of one IP, in order. */
  function OfIp(s: seq<Target>, ip: string): seq<Target> {
    if |s| == 0 then []
    else OfIp(s[..|s| - 1], ip) + (if s[|s| - 1].ip == ip then [s[|s| - 1]] else [])
  }

  /** x after every entry that is not greater. */
  function InsertAfter(s: seq<Target>, x: Target): (r: seq<Target>)
    ensures |r| == |s| + 1
  {
    if |s| == 0 || !Less(x.ip, s[|s| - 1].ip) then s + [x]
    else InsertAfter(s[..|s| - 1], x) + [s[|s| - 1]]
  }

  function StableSort(s: seq<Target>): (r: seq<Target>)
    ensures |r| == |s|
  {
    if |s| == 0 then [] else InsertAfter(StableSort(s[..|s| - 1]), s[|s| - 1])
  }

  lemma {:induction false} InsertMembers(s: seq<Target>, x: Target)
    ensures forall t :: t in InsertAfter(s, x) <==> t in s || t == x
    decreases |s|
  {
    hide Less;
    if !(|s| == 0 || !Less(x.ip, s[|s| - 1].ip)) {
      InsertMembers(s[..|s| - 1], x);
      assert s == s[..|s| - 1] + [s[|s| - 1]];
    }
  }

  lemma {:induction false} InsertOfIp(s: seq<Target>, x: Target, ip: string)
    requires SortedByIp(s)
    ensures OfIp(InsertAfter(s, x), ip) == OfIp(s, ip) + (if x.ip == ip then [x] else [])
    decreases |s|
  {
    hide Less;
    var r := InsertAfter(s, x);
    if |s| == 0 || !Less(x.ip, s[|s| - 1].ip) {
      assert r[..|r| - 1] == s;
    } else {
      var last := s[|s| - 1];
      InsertOfIp(s[..|s| - 1], x, ip);
      assert r[..|r| - 1] == InsertAfter(s[..|s| - 1], x);
      LessTotal(x.ip, last.ip);
    }
  }

  lemma {:induction false} InsertSorted(s: seq<Target>, x: Target)
    requires SortedByIp(s)
    ensures SortedByIp(InsertAfter(s, x))
    decreases |s|
  {
    hide Less;
    var r := InsertAfter(s, x);
    if |s| == 0 || !Less(x.ip, s[|s| - 1].ip) {
      forall i, j | 0 <= i < j < |r| ensures !Less(r[j].ip, r[i].ip) {
        if j == |s| && i < |s| - 1 { NotLessTransitive(s[i].ip, s[|s| - 1].ip, x.ip); }
      }
    } else {
      var last, init := s[|s| - 1], s[..|s| - 1];
      InsertSorted(init, x);
      InsertMembers(init, x);
      LessTotal(x.ip, last.ip);
      forall i, j | 0 <= i < j < |r| ensures !Less(r[j].ip, r[i].ip) {
        if j == |r| - 1 {
          assert r[i] in InsertAfter(init, x);
          if r[i] != x {
            var k :| 0 <= k < |init| && init[k] == r[i];
            assert !Less(s[|s| - 1].ip, s[k].ip);
          }
        }
      }
    }
  }

  /** The sort is sorted, and keeps each IP's entries in their order: with the sortedness that
      determines it. */
  lemma {:induction false} StableSortSorts(s: seq<Target>)
    ensures SortedByIp(StableSort(s))
    ensures forall t :: t in StableSort(s) <==> t in s
    ensures forall ip :: OfIp(StableSort(s), ip) == OfIp(s, ip)
    decreases |s|
  {
    hide Less;
    if |s| > 0 {
      var init, last := s[..|s| - 1], s[|s| - 1];
      StableSortSorts(init);
      InsertSorted(StableSort(init), last);
      InsertMembers(StableSort(init), last);
      assert s == init + [last];
      forall ip ensures OfIp(StableSort(s), ip) == OfIp(s, ip) { InsertOfIp(StableSort(init), last, ip); }
    }
  }

  predicate DistinctIps(s: seq<Target>) {
    forall i, j :: 0 <= i < j < |s| ==> s[i].ip != s[j].ip
  }

  lemma {:induction false} OfIpShort(s: seq<Target>, ip: string)
    requires DistinctIps(s)
    ensures |OfIp(s, ip)| <= 1
    ensures |OfIp(s, ip)| == 1 ==> exists i :: 0 <= i < |s| && s[i].ip == ip
    decreases |s|
  {
    if |s| > 0 { OfIpShort(s[..|s| - 1], ip); }
  }

  lemma {:induction false} OfIpCounts(s: seq<Target>, i: nat, j: nat)
    requires i < j < |s| && s[i].ip == s[j].ip
    ensures |OfIp(s, s[i].ip)| >= 2
    decreases |s|
  {
    var init := s[..|s| - 1];
    if j < |s| - 1 { OfIpCounts(init, i, j); } else { OfIpHas(init, i); }
  }

  lemma {:induction false} OfIpHas(s: seq<Target>, i: nat)
    requires i < |s|
    ensures |OfIp(s, s[i].ip)| >= 1
    decreases |s|
  {
    if i < |s| - 1 { OfIpHas(s[..|s| - 1], i); }
  }

  /** With one entry an IP the sort is strict. */
  lemma StableSortStrict(s: seq<Target>)
    requires DistinctIps(s)
    ensures StrictByIp(StableSort(s))
  {
    hide Less, StableSort;
    StableSortSorts(s);
    var r := StableSort(s);
    forall i, j | 0 <= i < j < |r| ensures Less(r[i].ip, r[j].ip) {
      LessTotal(r[i].ip, r[j].ip);
      if r[i].ip == r[j].ip {
        OfIpCounts(r, i, j);
        OfIpShort(s, r[i].ip);
      }
    }
  }

  /** sort.SliceStable, as insertion. */
  method SortStable(s: seq<Target>) returns (r: seq<Target>)
    ensures r == StableSort(s)
  {
    r := [];
    for i := 0 to |s|
      invariant r == StableSort(s[..i])
    {
      assert s[..i + 1][..i] == s[..i];
      r := InsertAfter(r, s[i]);
    }
    assert s[..|s|] == s;
  }

  // ---- Preferred ports -------------------------------------------------------------------

  const PREFERRED: seq<int> := [8080, 80, 443, 5000]

  /** Place in the order of preference; 4 for the rest. */
  function Rank(port: int): nat {
    if port == 8080 then 0 else if port == 80 then 1 else if port == 443 then 2 else if port == 5000 then 3 else 4
  }

  predicate Eligible(t: Target) {
    t.port == 8080 || t.port == 80 || t.port == 443 || t.port == 5000
  }

  predicate Offers(targets: seq<Target>, ip: string, port: int) {
    exists t :: t in targets && t.ip == ip && t.port == port
  }

  /** t is offered, on 8080 if its IP offers that, or else on 80, 443 or 5000, in this order. */
  predicate BestPort(t: Target, targets: seq<Target>) {
    && t in targets && Eligible(t)
    && (t.port != 8080 ==> !Offers(targets, t.ip, 8080))
    && (t.port == 443 || t.port == 5000 ==> !Offers(targets, t.ip, 80))
    && (t.port == 5000 ==> !Offers(targets, t.ip, 443))
  }

  lemma BestIsBestPort(t: Target, targets: seq<Target>)
    requires Best(t, targets)
    ensures BestPort(t, targets)
  {
  }

  /** t is offered, on the best-ranked preferred port its IP offers. */
  predicate Best(t: Target, targets: seq<Target>) {
    t in targets && Eligible(t) && forall u :: u in targets && u.ip == t.ip ==> Rank(t.port) <= Rank(u.port)
  }

  predicate HasIp(s: seq<Target>, ip: string) {
    exists t :: t in s && t.ip == ip
  }

  /** One entry for each IP that has a preferred port. */
  method PickPreferred(targets: seq<Target>) returns (out: seq<Target>)
    ensures DistinctIps(out) && forall t :: t in out ==> Best(t, targets)
    ensures forall u :: u in targets && Eligible(u) ==> HasIp(out, u.ip)
  {
    var seen: set<string> := {};
    out := [];
    for k := 0 to |PREFERRED|
      invariant DistinctIps(out) && forall t :: t in out ==> Best(t, targets)
      invariant forall ip :: ip in seen <==> HasIp(out, ip)
      invariant forall u :: u in targets && Rank(u.port) < k ==> u.ip in seen
    {
      var p := PREFERRED[k];
      assert forall port :: port == p <==> Rank(port) == k;
      for i := 0 to |targets|
        invariant DistinctIps(out) && forall t :: t in out ==> Best(t, targets)
        invariant forall ip :: ip in seen <==> HasIp(out, ip)
        invariant forall u :: u in targets && Rank(u.port) < k ==> u.ip in seen
        invariant forall j :: 0 <= j < i && targets[j].port == p ==> targets[j].ip in seen
      {
        var t := targets[i];
        if t.port == p && t.ip !in seen {
          assert Best(t, targets);
          OneMore(out, t);
          seen := seen + {t.ip};
          out := out + [t];
        }
      }
    }
    forall u | u in targets && Eligible(u) ensures HasIp(out, u.ip) {
      assert u.ip in seen;
    }
  }

  lemma OneMore(out: seq<Target>, t: Target)
    requires DistinctIps(out) && !HasIp(out, t.ip)
    ensures DistinctIps(out + [t])
    ensures forall ip :: HasIp(out + [t], ip) <==> HasIp(out, ip) || ip == t.ip
  {
    var r := out + [t];
    forall i, j | 0 <= i < j < |r| ensures r[i].ip != r[j].ip {
      if j == |out| { assert out[i] in out; }
    }
    forall ip ensures HasIp(r, ip) <==> HasIp(out, ip) || ip == t.ip {
      assert t in r;
      if HasIp(out, ip) {
        var u :| u in out && u.ip == ip;
        assert u in r;
      }
    }
  }

  // ---- The whole selection ---------------------------------------------------------------

  function Truncate(s: seq<Target>, max: int): seq<Target> {
    if max > 0 && |s| > max then s[..max] else s
  }

  /** u is missing from r only because r is full of smaller IPs. */
  predicate CrowdedOut(u: Target, r: seq<Target>, max: int) {
    max > 0 && |r| == max && forall t :: t in r ==> Less(t.ip, u.ip)
  }

  lemma TruncateKeepsSmallest(s: seq<Target>, max: int, u: Target)
    requires StrictByIp(s) && HasIp(s, u.ip) && !HasIp(Truncate(s, max), u.ip)
    ensures CrowdedOut(u, Truncate(s, max), max)
  {
    hide Less;
    var v :| v in s && v.ip == u.ip;
    var i :| 0 <= i < |s| && s[i] == v;
    var r := Truncate(s, max);
    assert forall k :: 0 <= k < |r| ==> s[k] == r[k] && s[k] in r;
    forall t | t in r ensures Less(t.ip, u.ip) {
      var j :| 0 <= j < |r| && r[j] == t;
      assert s[j] == t;
    }
  }

  /** If any target has a preferred port, the result is strictly increasing by IP, every entry is a
      target on its IP's best preferred port, and an eligible IP is missing only if max smaller ones
      are there. Otherwise it is the truncated stable sort of the input. */
  method OrderLonglinkTargets(targets: seq<Target>, max: int) returns (r: seq<Target>)
    ensures max > 0 ==> |r| <= max
    ensures (exists t :: t in targets && Eligible(t)) ==>
              && StrictByIp(r) && |r| > 0
              && (forall t :: t in r ==> BestPort(t, targets))
              && (forall u :: u in targets && Eligible(u) ==> HasIp(r, u.ip) || CrowdedOut(u, r, max))
    ensures !(exists t :: t in targets && Eligible(t)) ==> r == Truncate(StableSort(targets), max)
  {
    hide Less, StableSort;
    var out := PickPreferred(targets);
    ghost var picked := out;
    if |out| == 0 {
      out := out + targets;
      assert out == targets;
    }
    out := SortStable(out);
    if |picked| > 0 {
      assert picked[0] in picked;
      StableSortSorts(picked);
      StableSortStrict(picked);
      forall u | u in targets && Eligible(u)
        ensures HasIp(Truncate(out, max), u.ip) || CrowdedOut(u, Truncate(out, max), max)
      {
        var v :| v in picked && v.ip == u.ip;
        assert v in out;
        if !HasIp(Truncate(out, max), u.ip) { TruncateKeepsSmallest(out, max, u); }
      }
      forall t | t in Truncate(out, max) ensures BestPort(t, targets) {
        assert t in out;
        BestIsBestPort(t, targets);
      }
    } else {
      forall t | t in targets ensures !Eligible(t) {
        assert Eligible(t) ==> HasIp(picked, t.ip);
      }
    }
    if max > 0 && |out| > max {
      return out[..max];
    }
    return out;
  }
}
