/** Cloud Router peer names. A peer is a field of the router and carries no
    labels, so its name alone says which cluster made it. */
module PeerNames {
  import opened Text

  const MAX_PEER_NAME_LENGTH := 63
  const MAX_PEER_PREFIX_LENGTH := 34
  const PEER_DIGEST_LENGTH := 8

  predicate IsHex(c: char) {
    IsDigit(c) || 'a' <= c <= 'f'
  }

  /** All that is assumed of the abbreviating digest: eight hex characters. */
  ghost predicate HexDigest(digest: string -> string) {
    forall s: string ::
      |digest(s)| == PEER_DIGEST_LENGTH && forall i :: 0 <= i < PEER_DIGEST_LENGTH ==> IsHex(digest(s)[i])
  }

  function Lower(c: char): char {
    if 'A' <= c <= 'Z' then (c as int - 'A' as int + 'a' as int) as char else c
  }

  function LowerAll(s: string): string {
    seq(|s|, i requires 0 <= i < |s| => Lower(s[i]))
  }

  function TokenChar(c: char): char {
    if 'a' <= c <= 'z' || IsDigit(c) then c
    else if 'A' <= c <= 'Z' then Lower(c)
    else '-'
  }

  function AddressToken(address: string): string {
    seq(|address|, i requires 0 <= i < |address| => TokenChar(address[i]))
  }

  function PeerPrefix(digest: string -> string, cluster: string): string {
    var prefix := cluster + "-bgp";
    if |prefix| <= MAX_PEER_PREFIX_LENGTH then prefix
    else prefix[..MAX_PEER_PREFIX_LENGTH - PEER_DIGEST_LENGTH - 1] + "-" + digest(cluster)
  }

  function PlainName(digest: string -> string, cluster: string, address: string, index: nat): string {
    PeerPrefix(digest, cluster) + "-" + AddressToken(address) + "-" + Itoa(index)
  }

  /** Whether the address has to give way to its digest for the name to fit. */
  predicate Abbreviated(digest: string -> string, cluster: string, address: string, index: nat) {
    |PlainName(digest, cluster, address, index)| > MAX_PEER_NAME_LENGTH
  }

  function PeerName(digest: string -> string, cluster: string, address: string, index: nat): string {
    if !Abbreviated(digest, cluster, address, index) then PlainName(digest, cluster, address, index)
    else PeerPrefix(digest, cluster) + "-" + digest(address) + "-" + Itoa(index)
  }

  /** What IsOurPeer looks for. */
  function OwnerMark(digest: string -> string, cluster: string): string {
    PeerPrefix(digest, cluster) + "-"
  }

  predicate IsOurPeer(digest: string -> string, name: string, cluster: string) {
    OwnerMark(digest, cluster) <= name
  }

  /** A node address of the family written with the given separator: hex digits
      of either case, and at least one separator. */
  predicate IsAddress(address: string, separator: char) {
    && separator in ".:"
    && separator in address
    && forall i :: 0 <= i < |address| ==> address[i] == separator || IsHex(Lower(address[i]))
  }

  // ---------------------------------------------------------------- the limit

  lemma PrefixFits(digest: string -> string, cluster: string)
    requires HexDigest(digest)
    ensures |PeerPrefix(digest, cluster)| <= MAX_PEER_PREFIX_LENGTH
    ensures |cluster| >= 30 ==> |PeerPrefix(digest, cluster)| == MAX_PEER_PREFIX_LENGTH
  {
    assert |digest(cluster)| == PEER_DIGEST_LENGTH;
  }

  /** No cluster name, address or interface index makes a name over the limit. */
  lemma PeerNameFits(digest: string -> string, cluster: string, address: string, index: nat)
    requires HexDigest(digest) && index <= MAX_INT
    ensures |PeerName(digest, cluster, address, index)| <= MAX_PEER_NAME_LENGTH
  {
    PrefixFits(digest, cluster);
    MaxIntDigits();
    ItoaLength(index, 19);
    assert |digest(address)| == PEER_DIGEST_LENGTH;
  }

  /** The limit is met exactly by every name with a full prefix, an abbreviated
      address and a 19-digit index, so none of the three bounds can be raised. */
  lemma PeerNameLimitReached(digest: string -> string, cluster: string, address: string, index: nat)
    requires HexDigest(digest) && Pow10(18) <= index <= MAX_INT
    requires |cluster| >= 30 && |address| > PEER_DIGEST_LENGTH
    ensures |PeerName(digest, cluster, address, index)| == MAX_PEER_NAME_LENGTH
  {
    PrefixFits(digest, cluster);
    MaxIntDigits();
    ItoaLength(index, 19);
    ItoaLength(index, 18);
    assert |digest(address)| == PEER_DIGEST_LENGTH;
  }

  predicate IsNameChar(c: char) {
    'a' <= c <= 'z' || IsDigit(c) || c == '-'
  }

  /** A name accepted by GCE: it starts with a letter, holds only lowercase
      letters, digits and dashes, and does not end in a dash. */
  predicate IsGceName(name: string) {
    && |name| > 0 && 'a' <= name[0] <= 'z'
    && (forall i :: 0 <= i < |name| ==> IsNameChar(name[i]))
    && name[|name| - 1] != '-'
  }

  /** Whatever the address is made of, a cluster whose own name is a legal start
      of a GCE name gets legal peer names. */
  lemma PeerNameIsGceName(digest: string -> string, cluster: string, address: string, index: nat)
    requires HexDigest(digest)
    requires |cluster| > 0 && 'a' <= cluster[0] <= 'z'
    requires forall i :: 0 <= i < |cluster| ==> IsNameChar(cluster[i])
    ensures IsGceName(PeerName(digest, cluster, address, index))
  {
    var prefix := PeerPrefix(digest, cluster);
    assert forall i :: 0 <= i < |digest(cluster)| ==> IsHex(digest(cluster)[i]);
    assert forall i :: 0 <= i < |digest(address)| ==> IsHex(digest(address)[i]);
    assert forall i :: 0 <= i < |prefix| ==> IsNameChar(prefix[i]);
    var tail := Itoa(index);
    var name := PeerName(digest, cluster, address, index);
    assert name[|name| - 1] == tail[|tail| - 1] && IsDigit(tail[|tail| - 1]);
  }

  // ------------------------------------------------------------- distinctness

  lemma TokenHasDash(address: string, separator: char)
    requires IsAddress(address, separator)
    ensures '-' in AddressToken(address)
  {
    var i :| 0 <= i < |address| && address[i] == separator;
    assert AddressToken(address)[i] == '-';
  }

  lemma TokenKeepsAddress(a: string, b: string, separator: char)
    requires IsAddress(a, separator) && IsAddress(b, separator)
    ensures AddressToken(a) == AddressToken(b) <==> LowerAll(a) == LowerAll(b)
  {
    var s, t := AddressToken(a), AddressToken(b);
    if s == t {
      forall i | 0 <= i < |a| ensures Lower(a[i]) == Lower(b[i]) {
        assert s[i] == TokenChar(a[i]) && t[i] == TokenChar(b[i]);
      }
    }
    if LowerAll(a) == LowerAll(b) {
      assert |a| == |LowerAll(a)| == |LowerAll(b)| == |b|;
      forall i | 0 <= i < |a| ensures s[i] == t[i] {
        assert LowerAll(a)[i] == Lower(a[i]) && LowerAll(b)[i] == Lower(b[i]);
      }
    }
  }

  /** Exactly when two of a cluster's peers would share a name: the same index,
      and either two spelled-out addresses that differ in case only, or two
      abbreviated addresses whose digests collide. A spelled-out name never
      equals an abbreviated one. */
  lemma PeerNamesCollide(digest: string -> string, cluster: string, separator: char,
                         a: string, i: nat, b: string, j: nat)
    requires HexDigest(digest) && IsAddress(a, separator) && IsAddress(b, separator)
    ensures PeerName(digest, cluster, a, i) == PeerName(digest, cluster, b, j) <==>
            && i == j
            && Abbreviated(digest, cluster, a, i) == Abbreviated(digest, cluster, b, j)
            && if Abbreviated(digest, cluster, a, i) then digest(a) == digest(b) else LowerAll(a) == LowerAll(b)
  {
    var mark := OwnerMark(digest, cluster);
    var m := if Abbreviated(digest, cluster, a, i) then digest(a) else AddressToken(a);
    var n := if Abbreviated(digest, cluster, b, j) then digest(b) else AddressToken(b);
    assert PeerName(digest, cluster, a, i) == (mark + m) + "-" + Itoa(i);
    assert PeerName(digest, cluster, b, j) == (mark + n) + "-" + Itoa(j);
    assert (mark + m)[|mark|..] == m && (mark + n)[|mark|..] == n;
    TokenHasDash(a, separator);
    TokenHasDash(b, separator);
    TokenKeepsAddress(a, b, separator);
    assert NoDash(digest(a)) && NoDash(digest(b)) by {
      assert forall k :: 0 <= k < PEER_DIGEST_LENGTH ==> IsHex(digest(a)[k]) && IsHex(digest(b)[k]);
    }
    if PeerName(digest, cluster, a, i) == PeerName(digest, cluster, b, j) {
      LastDashSplits(mark + m, Itoa(i), mark + n, Itoa(j));
      ItoaInjective(i, j);
    }
  }

  /** Hence names tell lowercase addresses and interfaces apart unless the
      digest collides on them. */
  lemma PeerNamesDistinct(digest: string -> string, cluster: string, separator: char,
                          a: string, i: nat, b: string, j: nat)
    requires HexDigest(digest) && IsAddress(a, separator) && IsAddress(b, separator)
    requires LowerAll(a) == a && LowerAll(b) == b
    requires digest(a) == digest(b) ==> a == b
    ensures PeerName(digest, cluster, a, i) == PeerName(digest, cluster, b, j) ==> a == b && i == j
  {
    PeerNamesCollide(digest, cluster, separator, a, i, b, j);
  }

  // ---------------------------------------------------------------- ownership

  /** What follows the mark in a name. */
  function Rest(digest: string -> string, cluster: string, address: string, index: nat): string {
    (if Abbreviated(digest, cluster, address, index) then digest(address) else AddressToken(address))
    + "-" + Itoa(index)
  }

  lemma NameIsMarkAndRest(digest: string -> string, cluster: string, address: string, index: nat)
    ensures PeerName(digest, cluster, address, index)
            == OwnerMark(digest, cluster) + Rest(digest, cluster, address, index)
  {
    hide PeerPrefix, AddressToken;
  }

  /** Every cluster recognises every name it generates. */
  lemma OwnPeerRecognised(digest: string -> string, cluster: string, address: string, index: nat)
    ensures IsOurPeer(digest, PeerName(digest, cluster, address, index), cluster)
  {
    NameIsMarkAndRest(digest, cluster, address, index);
  }

  /** Two clusters can share a router: neither's mark begins the other's. */
  predicate Separate(digest: string -> string, c: string, d: string) {
    !(OwnerMark(digest, c) <= OwnerMark(digest, d)) && !(OwnerMark(digest, d) <= OwnerMark(digest, c))
  }

  /** Separate marks is what it takes for no peer name, generated or hand-made,
      to be claimed by both clusters. */
  lemma SeparateMeansNoSharedName(digest: string -> string, c: string, d: string)
    ensures Separate(digest, c, d) <==>
            forall name: string :: !(IsOurPeer(digest, name, c) && IsOurPeer(digest, name, d))
  {
    var m, n := OwnerMark(digest, c), OwnerMark(digest, d);
    if m <= n || n <= m {
      var longer := if m <= n then n else m;
      assert IsOurPeer(digest, longer, c) && IsOurPeer(digest, longer, d);
    }
    forall name: string | IsOurPeer(digest, name, c) && IsOurPeer(digest, name, d) ensures m <= n || n <= m {
      PrefixesOfOne(m, n, name);
    }
  }

  lemma NoGInToken(address: string, separator: char)
    requires IsAddress(address, separator)
    ensures 'g' !in AddressToken(address)
  {}

  /** The rest is without the letter g. */
  lemma RestHasNoG(digest: string -> string, cluster: string, separator: char, address: string, index: nat)
    requires HexDigest(digest) && IsAddress(address, separator)
    ensures 'g' !in Rest(digest, cluster, address, index)
  {
    var short := digest(address);
    assert forall k :: 0 <= k < PEER_DIGEST_LENGTH ==> IsHex(short[k]);
    NoGInToken(address, separator);
    assert forall k :: 0 <= k < |Itoa(index)| ==> IsDigit(Itoa(index)[k]);
    hide Abbreviated, AddressToken, HexDigest, IsAddress;
    assert 'g' !in short && 'g' !in Itoa(index);
  }

  /** Whether a cluster whose prefix is not abbreviated claims another's peers
      does not depend on the peer: it does exactly when its mark begins the
      other's. */
  lemma ClaimedByMark(digest: string -> string, separator: char,
                      c: string, address: string, index: nat, d: string)
    requires HexDigest(digest) && IsAddress(address, separator) && |d| <= 30
    ensures IsOurPeer(digest, PeerName(digest, c, address, index), d) <==>
            OwnerMark(digest, d) <= OwnerMark(digest, c)
  {
    var name := PeerName(digest, c, address, index);
    var m, n := OwnerMark(digest, c), OwnerMark(digest, d);
    RestHasNoG(digest, c, separator, address, index);
    NameIsMarkAndRest(digest, c, address, index);
    PrefixFits(digest, c);
    assert n == d + "-bgp-" && n[|d| + 2] == 'g';
    assert n <= name ==> |n| <= |m|;
    assert n <= name && |n| <= |m| ==> n == name[..|n|] == m[..|n|];
  }

  /** Exact ownership between clusters whose prefixes are not abbreviated: the
      claimant is the maker itself, or the maker's name continues the claimant's
      with -bgp followed by a dash or nothing. */
  lemma ClaimedExactly(digest: string -> string, separator: char,
                       c: string, address: string, index: nat, d: string)
    requires HexDigest(digest) && IsAddress(address, separator) && |c| <= 30 && |d| <= 30
    ensures IsOurPeer(digest, PeerName(digest, c, address, index), d) <==>
            c == d || c == d + "-bgp" || d + "-bgp-" <= c
  {
    ClaimedByMark(digest, separator, c, address, index, d);
    MarkBegins(c, d);
    assert OwnerMark(digest, c) == c + "-bgp-" && OwnerMark(digest, d) == d + "-bgp-";
  }

  /** Two abbreviated names are confused exactly when what is kept of the
      prefixes and the digests both agree. */
  lemma AbbreviatedClaimedExactly(digest: string -> string, c: string, address: string, index: nat, d: string)
    requires HexDigest(digest) && |c| > 30 && |d| > 30
    ensures IsOurPeer(digest, PeerName(digest, c, address, index), d) <==>
            c[..25] == d[..25] && digest(c) == digest(d)
  {
    OwnPeerRecognised(digest, c, address, index);
    var name := PeerName(digest, c, address, index);
    var m, n := OwnerMark(digest, c), OwnerMark(digest, d);
    assert |digest(c)| == |digest(d)| == PEER_DIGEST_LENGTH;
    assert (c + "-bgp")[..25] == c[..25] && (d + "-bgp")[..25] == d[..25];
    assert m == c[..25] + "-" + digest(c) + "-" && n == d[..25] + "-" + digest(d) + "-";
    assert m == name[..|m|];
    assert n <= name <==> n == m;
    if n == m {
      assert c[..25] == m[..25] == n[..25] == d[..25];
      assert digest(c) == m[26..34] == n[26..34] == digest(d);
    }
  }

  /** No eight characters in a row without a separator: the groups of an address have
      at most four. */
  predicate ShortGroups(address: string, separator: char) {
    forall i :: 0 <= i <= |address| - PEER_DIGEST_LENGTH ==> HasSeparator(address, separator, i)
  }

  predicate HasSeparator(address: string, separator: char, i: nat)
    requires i <= |address| - PEER_DIGEST_LENGTH
  {
    exists j :: i <= j < i + PEER_DIGEST_LENGTH && address[j] == separator
  }

  /** Where an abbreviated mark's digest would have to be in a name that is spelled
      out, there is a dash. */
  lemma TokenHasNoDigest(address: string, separator: char, index: nat, at: nat)
    requires IsAddress(address, separator) && ShortGroups(address, separator)
    requires at + PEER_DIGEST_LENGTH < |AddressToken(address) + "-" + Itoa(index)|
    requires (AddressToken(address) + "-" + Itoa(index))[at + PEER_DIGEST_LENGTH] == '-'
    ensures exists j :: at <= j < at + PEER_DIGEST_LENGTH && (AddressToken(address) + "-" + Itoa(index))[j] == '-'
  {
    var token, rest := AddressToken(address), AddressToken(address) + "-" + Itoa(index);
    var end := at + PEER_DIGEST_LENGTH;
    assert forall k :: |token| < k < |rest| ==> rest[k] == Itoa(index)[k - |token| - 1];
    assert HasSeparator(address, separator, at);
    var j :| at <= j < end && address[j] == separator;
    assert rest[j] == token[j] == '-';
  }

  /** The digest of an abbreviated mark stands between two dashes, and has none. */
  lemma AbbreviatedMark(digest: string -> string, d: string)
    requires HexDigest(digest) && |d| > 30
    ensures var n := OwnerMark(digest, d);
            && |n| == 35 && n == d[..25] + "-" + digest(d) + "-"
            && n[25] == '-' && n[34] == '-' && n[26..34] == digest(d)
            && forall k :: 26 <= k < 34 ==> IsHex(n[k])
  {
    assert |digest(d)| == PEER_DIGEST_LENGTH;
    assert (d + "-bgp")[..25] == d[..25];
    var n := OwnerMark(digest, d);
    assert n == d[..25] + "-" + digest(d) + "-";
    assert forall k :: 26 <= k < 34 ==> n[k] == digest(d)[k - 26];
  }

  /** Where -bgp- can stand in a name that such a mark begins: wholly before the
      digest. */
  lemma BeforeDigest(name: string, n: string, at: nat)
    requires |n| == 35 <= |name| && at <= 30 && at + 5 <= |name| && forall k :: 0 <= k < 35 ==> n[k] == name[k]
    requires n[25] == '-' && forall k :: 26 <= k < 34 ==> IsHex(n[k])
    requires name[at] == '-' && name[at + 2] == 'g' && name[at + 3] == 'p'
    ensures at <= 21
  {
    assert n[25] == name[25] == '-';
    forall k | 26 <= k < 34 ensures name[k] != '-' && name[k] != 'g' { assert n[k] == name[k]; }
  }

  lemma InRest(c: string, rest: string, k: nat)
    requires k < |rest|
    ensures (c + "-bgp-" + rest)[|c| + 5 + k] == rest[k]
  {}

  lemma BgpIn(c: string, rest: string)
    ensures var name := c + "-bgp-" + rest; name[|c|] == '-' && name[|c| + 2] == 'g' && name[|c| + 3] == 'p'
  {}

  /** A mark with a digest begins a name only where the maker's -bgp- ends before the
      digest. */
  lemma DigestBehindMark(digest: string -> string, c: string, rest: string, d: string)
    requires HexDigest(digest) && |c| <= 30 && |d| > 30 && OwnerMark(digest, d) <= c + "-bgp-" + rest
    ensures |c| <= 21
    ensures var at := 21 - |c|;
            && at + PEER_DIGEST_LENGTH < |rest| && rest[at..at + PEER_DIGEST_LENGTH] == digest(d)
            && rest[at + PEER_DIGEST_LENGTH] == '-'
            && forall j :: at <= j < at + PEER_DIGEST_LENGTH ==> rest[j] != '-'
  {
    AbbreviatedMark(digest, d);
    var n, name := OwnerMark(digest, d), c + "-bgp-" + rest;
    BgpIn(c, rest);
    hide OwnerMark, HexDigest;
    assert |name| == |c| + 5 + |rest|;
    assert forall k :: 0 <= k < 35 ==> n[k] == name[k];
    BeforeDigest(name, n, |c|);
    var at := 21 - |c|;
    forall j | at <= j <= at + PEER_DIGEST_LENGTH ensures rest[j] == n[|c| + 5 + j] { InRest(c, rest, j); }
    SameSlice(rest, n, at, 26);
  }

  lemma SameSlice(s: string, t: string, i: nat, j: nat)
    requires i + PEER_DIGEST_LENGTH <= |s| && j + PEER_DIGEST_LENGTH <= |t|
    requires i <= j && forall k :: i <= k < i + PEER_DIGEST_LENGTH ==> s[k] == t[k + (j - i)]
    ensures s[i..i + PEER_DIGEST_LENGTH] == t[j..j + PEER_DIGEST_LENGTH]
  {}

  /** Behind a digest of eight only one dash follows. */
  lemma OneDash(s: string, index: nat)
    requires |s| == PEER_DIGEST_LENGTH
    ensures var rest := s + "-" + Itoa(index); forall k :: PEER_DIGEST_LENGTH < k < |rest| ==> rest[k] != '-'
  {
    var rest := s + "-" + Itoa(index);
    assert forall k :: |s| < k < |rest| ==> rest[k] == Itoa(index)[k - |s| - 1];
  }

  /** With the address spelled out it cannot be. */
  lemma PlainNotClaimed(digest: string -> string, separator: char, c: string, address: string, index: nat, d: string)
    requires HexDigest(digest) && IsAddress(address, separator) && ShortGroups(address, separator)
    requires |c| <= 30 && |d| > 30
    ensures !(OwnerMark(digest, d) <= c + "-bgp-" + (AddressToken(address) + "-" + Itoa(index)))
  {
    var rest := AddressToken(address) + "-" + Itoa(index);
    hide OwnerMark, AddressToken, ShortGroups, IsAddress;
    if OwnerMark(digest, d) <= c + "-bgp-" + rest {
      DigestBehindMark(digest, c, rest, d);
      TokenHasNoDigest(address, separator, index, 21 - |c|);
    }
  }

  lemma ShortClaimed(digest: string -> string, c: string, s: string, index: nat, d: string)
    requires HexDigest(digest) && |s| == PEER_DIGEST_LENGTH && |c| <= 30 && |d| > 30
    requires OwnerMark(digest, d) <= c + "-bgp-" + (s + "-" + Itoa(index))
    ensures d[..25] == c + "-bgp" && digest(d) == s
  {
    var rest, n := s + "-" + Itoa(index), OwnerMark(digest, d);
    var name := c + "-bgp-" + rest;
    AbbreviatedMark(digest, d);
    DigestBehindMark(digest, c, rest, d);
    OneDash(s, index);
    hide OwnerMark, HexDigest;
    assert |c| == 21;
    assert rest[..PEER_DIGEST_LENGTH] == s;
    assert d[..25] == n[..25] == name[..25] == c + "-bgp";
  }

  /** Exactly when an abbreviated cluster claims the peer of one that is not: the
      maker's prefix is what is kept of the claimant's, and the address is
      abbreviated to the claimant's digest. */
  lemma PlainClaimedExactly(digest: string -> string, separator: char,
                            c: string, address: string, index: nat, d: string)
    requires HexDigest(digest) && IsAddress(address, separator) && ShortGroups(address, separator)
    requires |c| <= 30 && |d| > 30
    ensures IsOurPeer(digest, PeerName(digest, c, address, index), d) <==>
            d[..25] == c + "-bgp" && Abbreviated(digest, c, address, index) && digest(d) == digest(address)
  {
    var name, n, mark := PeerName(digest, c, address, index), OwnerMark(digest, d), c + "-bgp-";
    var short := Abbreviated(digest, c, address, index);
    NameIsMarkAndRest(digest, c, address, index);
    assert OwnerMark(digest, c) == mark;
    assert |digest(address)| == PEER_DIGEST_LENGTH;
    if d[..25] == c + "-bgp" && short && digest(d) == digest(address) {
      AbbreviatedMark(digest, d);
      assert name == n + Itoa(index);
    }
    hide PeerName, Abbreviated, OwnerMark, AddressToken, IsAddress, ShortGroups;
    if short {
      if n <= name { ShortClaimed(digest, c, digest(address), index, d); }
    } else {
      PlainNotClaimed(digest, separator, c, address, index, d);
    }
  }
}
