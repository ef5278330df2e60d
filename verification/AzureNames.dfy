/** Azure Route Server peering names. A BGP connection carries no tags, so its
    name alone says which cluster made it. */
module AzureNames {
  import opened Text

  const MAX_PEERING_NAME_LENGTH := 80

  function PeeringPrefix(clusterID: string): string {
    clusterID + "-bgp"
  }

  function Dashed(address: string): string {
    seq(|address|, i requires 0 <= i < |address| => if address[i] == '.' then '-' else address[i])
  }

  /** The source slices the prefix, which only works for a suffix within the
      limit; every IP address is. */
  function PeeringName(clusterID: string, address: string): string
    requires |address| < MAX_PEERING_NAME_LENGTH
  {
    var suffix := "-" + Dashed(address);
    var prefix := PeeringPrefix(clusterID);
    if |prefix| + |suffix| > MAX_PEERING_NAME_LENGTH then prefix[..MAX_PEERING_NAME_LENGTH - |suffix|] + suffix
    else prefix + suffix
  }

  function OwnerMark(clusterID: string): string {
    PeeringPrefix(clusterID) + "-"
  }

  predicate IsOurPeering(name: string, clusterID: string) {
    OwnerMark(clusterID) <= name
  }

  lemma PeeringNameFits(clusterID: string, address: string)
    requires |address| < MAX_PEERING_NAME_LENGTH
    ensures |PeeringName(clusterID, address)| <= MAX_PEERING_NAME_LENGTH
  {}

  /** A name ends in a dash and the address, its dots become dashes; before that stands
      the cluster ID with `-bgp` after it, or as much of the two as there is room for. */
  lemma PeeringNameReads(clusterID: string, address: string)
    requires |address| < MAX_PEERING_NAME_LENGTH
    ensures var name, whole := PeeringName(clusterID, address), |clusterID| + 5 + |address|;
            && |name| == (if whole <= 80 then whole else 80)
            && var at := |name| - |address|;
               && at >= 1 && name[at - 1] == '-' && name[..at - 1] <= clusterID + "-bgp"
               && forall i :: 0 <= i < |address| ==> name[at + i] == if address[i] == '.' then '-' else address[i]
  {}

  /** A cluster recognises the peering it names for an address exactly when the
      two together leave the prefix whole: any trimming takes away the letter
      the mark ends in, and no address brings it back. */
  lemma OwnPeeringRecognised(clusterID: string, address: string)
    requires |address| < MAX_PEERING_NAME_LENGTH && 'p' !in address
    ensures IsOurPeering(PeeringName(clusterID, address), clusterID) <==> |clusterID| + |address| <= 75
  {
    var mark, name, prefix := OwnerMark(clusterID), PeeringName(clusterID, address), PeeringPrefix(clusterID);
    var suffix := "-" + Dashed(address);
    assert |prefix| == |clusterID| + 4 && |suffix| == |address| + 1;
    if |clusterID| + |address| <= 75 {
      assert name == mark + Dashed(address);
    } else {
      var last := |prefix| - 1;
      var kept := MAX_PEERING_NAME_LENGTH - |suffix|;
      assert mark[last] == 'p';
      assert forall i :: 0 <= i < |suffix| ==> suffix[i] != 'p';
      assert forall i :: kept <= i < |name| ==> name[i] == suffix[i - kept];
    }
  }

  function Dashes(s: string): nat {
    if s == "" then 0 else Dashes(s[1..]) + if s[0] == '-' then 1 else 0
  }

  lemma {:induction false} DashesConcat(a: string, b: string)
    ensures Dashes(a + b) == Dashes(a) + Dashes(b)
  {
    if a == "" {
      assert a + b == b;
    } else {
      assert (a + b)[1..] == a[1..] + b;
      DashesConcat(a[1..], b);
    }
  }

  predicate IsIPv4(address: string) {
    && |address| < MAX_PEERING_NAME_LENGTH
    && (forall i :: 0 <= i < |address| ==> IsDigit(address[i]) || address[i] == '.')
    && Dashes(Dashed(address)) == 3
  }

  /** An IPv6 address as Kubernetes writes it: its separators are kept. */
  predicate IsIPv6(address: string) {
    && |address| < MAX_PEERING_NAME_LENGTH && ':' in address
    && (forall i :: 0 <= i < |address| ==> IsHex(address[i]) || address[i] == ':')
  }

  predicate IsHex(c: char) {
    IsDigit(c) || 'a' <= c <= 'f' || 'A' <= c <= 'F'
  }

  predicate IsAddress(address: string) {
    IsIPv4(address) || IsIPv6(address)
  }

  lemma AddressFacts(address: string)
    requires IsAddress(address)
    ensures |address| < MAX_PEERING_NAME_LENGTH && 'p' !in address
  {}

  lemma WithoutDash(address: string)
    requires IsIPv6(address)
    ensures Dashed(address) == address && NoDash(address)
  {}

  /** What is kept of the prefix. */
  function Kept(clusterID: string, address: string): (prefix: string)
    requires |address| < MAX_PEERING_NAME_LENGTH
    ensures PeeringName(clusterID, address) == prefix + "-" + Dashed(address)
  {
    var prefix := PeeringPrefix(clusterID);
    if |prefix| + 1 + |address| > MAX_PEERING_NAME_LENGTH then prefix[..MAX_PEERING_NAME_LENGTH - 1 - |address|]
    else prefix
  }

  /** An IPv6 address has a colon behind the name's last dash, */
  lemma ColonLast(clusterID: string, six: string) returns (k: nat, i: nat)
    requires IsIPv6(six)
    ensures var name := PeeringName(clusterID, six);
            k < i < |name| && name[i] == ':' && forall j :: k < j < |name| ==> name[j] != '-'
  {
    WithoutDash(six);
    var name := PeeringName(clusterID, six);
    k := |Kept(clusterID, six)|;
    var at :| 0 <= at < |six| && six[at] == ':';
    i := k + 1 + at;
    hide PeeringName, Kept;
    assert forall j :: k < j < |name| ==> name[j] == six[j - k - 1];
  }

  /** an IPv4 one nothing but digits and dashes behind the dash it begins with. */
  lemma NoColonLast(clusterID: string, four: string) returns (from: nat)
    requires IsIPv4(four)
    ensures var name := PeeringName(clusterID, four);
            from < |name| && name[from] == '-' && forall j :: from < j < |name| ==> name[j] != ':'
  {
    var name := PeeringName(clusterID, four);
    from := |Kept(clusterID, four)|;
    assert name == Kept(clusterID, four) + "-" + Dashed(four);
    hide PeeringName, Kept;
    assert forall j :: from < j < |name| ==> name[j] == Dashed(four)[j - from - 1];
  }

  lemma FamiliesDiffer(c: string, four: string, d: string, six: string)
    requires IsIPv4(four) && IsIPv6(six)
    ensures PeeringName(c, four) != PeeringName(d, six)
  {
    var k, i := ColonLast(d, six);
    var from := NoColonLast(c, four);
    hide PeeringName;
    assert PeeringName(c, four) == PeeringName(d, six) ==> from <= k;
  }

  /** Of IPv4 addresses the last four dashes say where they begin. */
  lemma IPv4Last(c: string, a: string, d: string, b: string)
    requires IsIPv4(a) && IsIPv4(b) && PeeringName(c, a) == PeeringName(d, b)
    ensures a == b
  {
    var s, t := "-" + Dashed(a), "-" + Dashed(b);
    var name := PeeringName(c, a);
    assert name[|name| - |s|..] == s && name[|name| - |t|..] == t;
    SameLastDashes(name, s, t);
    assert Dashed(a) == s[1..] == t[1..] == Dashed(b);
    forall i | 0 <= i < |a| ensures a[i] == b[i] {
      assert Dashed(a)[i] == Dashed(b)[i];
    }
  }

  /** Two endings of one string that start with a dash and hold four are one. */
  lemma SameLastDashes(name: string, s: string, t: string)
    requires |s| <= |name| && |t| <= |name| && name[|name| - |s|..] == s && name[|name| - |t|..] == t
    requires |s| > 0 && |t| > 0 && s[0] == '-' && t[0] == '-'
    requires Dashes(s[1..]) == Dashes(t[1..]) == 3
    ensures s == t
  {
    if |s| < |t| { assert t[|t| - |s|..] == s; LongerHasMore(t, |t| - |s|); }
    if |t| < |s| { assert s[|s| - |t|..] == t; LongerHasMore(s, |s| - |t|); }
  }

  lemma LongerHasMore(s: string, k: nat)
    requires 0 < k <= |s| && s[0] == '-'
    ensures Dashes(s) > Dashes(s[k..])
  {
    assert s == s[..k] + s[k..];
    DashesConcat(s[..k], s[k..]);
    assert s[..k][0] == '-';
  }

  lemma SameAddress(c: string, a: string, d: string, b: string)
    requires IsAddress(a) && IsAddress(b) && PeeringName(c, a) == PeeringName(d, b)
    ensures a == b
  {
    if IsIPv4(a) && IsIPv4(b) {
      IPv4Last(c, a, d, b);
    } else if IsIPv6(a) && IsIPv6(b) {
      WithoutDash(a);
      WithoutDash(b);
      LastDashSplits(Kept(c, a), a, Kept(d, b), b);
    } else if IsIPv4(a) {
      FamiliesDiffer(c, a, d, b);
    } else {
      FamiliesDiffer(d, b, c, a);
    }
  }

  /** Names of distinct addresses of either family never collide, trimmed or not. */
  lemma PeeringNamesDistinct(clusterID: string, a: string, b: string)
    requires IsAddress(a) && IsAddress(b)
    ensures PeeringName(clusterID, a) == PeeringName(clusterID, b) <==> a == b
  {
    if PeeringName(clusterID, a) == PeeringName(clusterID, b) { SameAddress(clusterID, a, clusterID, b); }
  }

  // ------------------------------------------------------- several clusters

  /** Exactly when two clusters give peerings one name: for the same address, when
      the same is kept of their prefixes. Without trimming that is one cluster. */
  lemma NamesMeetExactly(c: string, a: string, d: string, b: string)
    requires IsAddress(a) && IsAddress(b)
    ensures PeeringName(c, a) == PeeringName(d, b) <==> a == b && Kept(c, a) == Kept(d, b)
    ensures Kept(c, a) == Kept(d, a) && |c| + |a| <= 75 && |d| + |a| <= 75 ==> c == d
  {
    if PeeringName(c, a) == PeeringName(d, b) {
      SameAddress(c, a, d, b);
      var name, k := PeeringName(c, a), |Kept(c, a)|;
      assert k == |Kept(d, a)|;
      assert name == (Kept(c, a) + "-") + Dashed(a) && name == (Kept(d, a) + "-") + Dashed(a);
      assert Kept(c, a) == name[..k] == Kept(d, a);
    }
    if Kept(c, a) == Kept(d, a) && |c| + |a| <= 75 && |d| + |a| <= 75 {
      assert c == Kept(c, a)[..|c|] && d == Kept(d, a)[..|d|];
    }
  }

  /** Whether a cluster claims what another has named, trimmed or not: exactly when
      its mark begins what was kept of the other's prefix and the dash after it. */
  lemma ClaimedByKept(c: string, address: string, d: string)
    requires IsAddress(address)
    ensures IsOurPeering(PeeringName(c, address), d) <==> OwnerMark(d) <= Kept(c, address) + "-"
  {
    var name, mark, kept := PeeringName(c, address), OwnerMark(d), Kept(c, address);
    assert name == (kept + "-") + Dashed(address);
    if mark <= name {
      assert mark[|d| + 3] == 'p' && mark[|d| + 4] == '-';
      assert name[|d| + 3] == 'p';
      assert forall i :: |kept| < i < |name| ==> name[i] == Dashed(address)[i - |kept| - 1];
      assert |d| + 3 < |kept|;
      assert name[..|mark|] == (kept + "-")[..|mark|];
    }
    if mark <= kept + "-" {
      assert name[..|mark|] == mark;
    }
  }

  /** Untrimmed, that is the rule of the names alone. */
  lemma ClaimedExactly(c: string, address: string, d: string)
    requires IsAddress(address) && |c| + |address| <= 75
    ensures IsOurPeering(PeeringName(c, address), d) <==> c == d || c == d + "-bgp" || d + "-bgp-" <= c
  {
    ClaimedByKept(c, address, d);
    assert Kept(c, address) + "-" == c + "-bgp-" && OwnerMark(d) == d + "-bgp-";
    MarkBegins(c, d);
  }

  predicate Separate(c: string, d: string) {
    !(OwnerMark(c) <= OwnerMark(d)) && !(OwnerMark(d) <= OwnerMark(c))
  }

  lemma SeparateMeansNoSharedName(c: string, d: string)
    ensures Separate(c, d) <==> forall name: string :: !(IsOurPeering(name, c) && IsOurPeering(name, d))
  {
    var m, n := OwnerMark(c), OwnerMark(d);
    if m <= n || n <= m {
      var longer := if m <= n then n else m;
      assert IsOurPeering(longer, c) && IsOurPeering(longer, d);
    }
    forall name: string | IsOurPeering(name, c) && IsOurPeering(name, d) ensures m <= n || n <= m {
      PrefixesOfOne(m, n, name);
    }
  }
}
