/** The Azure Route Server and the loop that makes its peerings a desired set. */
module AzureRouteServer {
  import opened Options
  import opened Sorting
  import opened Sets

  datatype Conn = Conn(peerIP: string, peerASN: int)
  datatype Peer = Peer(name: string, conn: Conn)

  /** The connections by name, as Azure keeps them. */
  type Store = map<string, Conn>

  function Name(p: Peer): string {
    p.name
  }

  function At(s: Store, name: string): Option<Conn> {
    if name in s then Some(s[name]) else None
  }

  lemma SameStore(s: Store, t: Store)
    requires forall name :: At(s, name) == At(t, name)
    ensures s == t
  {
    forall name ensures name in s <==> name in t {
      assert At(s, name) == At(t, name);
    }
    forall name | name in s ensures s[name] == t[name] {
      assert At(s, name) == At(t, name);
    }
  }

  /** The listing of a store: every connection once, by name. */
  ghost predicate Lists(list: seq<Peer>, s: Store) {
    && SortedBy(list, Name) && DistinctKeys(list, Name)
    && forall name, c :: Peer(name, c) in list <==> At(s, name) == Some(c)
  }

  /** What a desired list asks for. Of several entries with one name any may be
      the one that counts, as the sort before the map is filled is unstable. */
  ghost predicate Wants(desired: seq<Peer>, wanted: Store) {
    && (forall p :: p in desired ==> p.name in wanted)
    && (forall name :: name in wanted ==> Peer(name, wanted[name]) in desired)
  }

  // ---------------------------------------------------- points within one call

  /** Every name holds what it held before or what is wanted of it, and either
      every wanted name is as wanted or no unwanted one has gone yet. */
  ghost predicate Between(before: Store, wanted: Store, s: Store) {
    && (forall name :: At(s, name) in {At(before, name), At(wanted, name)})
    && (|| (forall name :: name in wanted ==> At(s, name) == At(wanted, name))
        || (forall name :: name in before && name !in wanted ==> name in s))
  }

  ghost predicate AllBetween(before: Store, wanted: Store, states: seq<Store>) {
    forall s :: s in states ==> Between(before, wanted, s)
  }

  /** The writes of one call: none if the store was as wanted. */
  ghost predicate Along(before: Store, wanted: Store, log: seq<Store>, history: seq<Store>) {
    && log <= history
    && AllBetween(before, wanted, history[|log|..])
    && (before == wanted ==> history == log)
  }

  lemma AlongStep(before: Store, wanted: Store, log: seq<Store>, history: seq<Store>, s: Store)
    requires before != wanted && Along(before, wanted, log, history) && Between(before, wanted, s)
    ensures Along(before, wanted, log, history + [s])
  {
    assert (history + [s])[|log|..] == history[|log|..] + [s];
  }

  lemma AlongConcat(before: Store, wanted: Store, log: seq<Store>, middle: seq<Store>, history: seq<Store>)
    requires Along(before, wanted, log, middle) && Along(before, wanted, middle, history)
    ensures Along(before, wanted, log, history)
  {
    assert history[|log|..] == middle[|log|..] + history[|middle|..];
  }

  /** A name that is both there and wanted is there at every point, and a name
      wanted just as it is never changes. */
  lemma WantedNeverDisappears(before: Store, wanted: Store, states: seq<Store>, s: Store, name: string)
    requires AllBetween(before, wanted, states) && s in states && name in before && name in wanted
    ensures name in s && (before[name] == wanted[name] ==> s[name] == before[name])
  {
    assert At(s, name) in {At(before, name), At(wanted, name)};
  }

  /** The first half of the work is done for all but the names left. */
  ghost predicate Written(before: Store, wanted: Store, left: set<string>, s: Store) {
    forall name :: At(s, name) == if name in wanted && name !in left then At(wanted, name) else At(before, name)
  }

  /** Everything wanted is written, and the unwanted are gone up to the names left. */
  ghost predicate Removed(before: Store, wanted: Store, left: seq<Peer>, s: Store) {
    && (forall name :: name in wanted ==> At(s, name) == At(wanted, name))
    && (forall name :: name !in wanted ==> At(s, name) in {At(before, name), None})
    && (forall p :: p in left && p.name !in wanted ==> p.name in s)
    && (forall name :: name in s && name !in wanted ==> exists p :: p in left && p.name == name)
  }

  lemma WrittenIsBetween(before: Store, wanted: Store, left: set<string>, s: Store)
    requires Written(before, wanted, left, s)
    ensures Between(before, wanted, s)
  {
    forall name ensures At(s, name) in {At(before, name), At(wanted, name)} {}
    forall name | name in before && name !in wanted ensures name in s {
      assert At(s, name) == At(before, name);
    }
  }

  lemma RemovedIsBetween(before: Store, wanted: Store, left: seq<Peer>, s: Store)
    requires Removed(before, wanted, left, s)
    ensures Between(before, wanted, s)
  {}

  lemma AllRemoved(before: Store, wanted: Store, s: Store)
    requires Removed(before, wanted, [], s)
    ensures s == wanted
  {
    forall name ensures At(s, name) == At(wanted, name) {}
    SameStore(s, wanted);
  }

  lemma RemovalStarts(before: Store, wanted: Store, current: seq<Peer>, s: Store)
    requires Written(before, wanted, {}, s) && Lists(current, before)
    ensures Removed(before, wanted, current, s)
  {
    forall p | p in current && p.name !in wanted ensures p.name in s {
      assert Peer(p.name, p.conn) in current;
      assert At(s, p.name) == At(before, p.name);
    }
    forall name | name in s && name !in wanted ensures exists p :: p in current && p.name == name {
      assert At(s, name) == At(before, name);
      assert Peer(name, before[name]) in current;
    }
  }

  lemma NoneRemoved(before: Store, wanted: Store, current: seq<Peer>, i: nat, s: Store)
    requires i < |current| && current[i].name in wanted && Removed(before, wanted, current[i..], s)
    ensures Removed(before, wanted, current[i + 1..], s)
  {
    forall name | name in s && name !in wanted ensures exists p :: p in current[i + 1..] && p.name == name {
      var p :| p in current[i..] && p.name == name;
      assert p in current[i + 1..];
    }
  }

  lemma OneRemoved(before: Store, wanted: Store, current: seq<Peer>, i: nat, was: Store, now: Store)
    requires Lists(current, before) && i < |current| && current[i].name !in wanted
    requires Removed(before, wanted, current[i..], was)
    requires now == was || now == was - {current[i].name}
    ensures before != wanted && Between(before, wanted, now)
    ensures now == was - {current[i].name} ==> Removed(before, wanted, current[i + 1..], now)
  {
    var gone := current[i].name;
    assert Peer(gone, current[i].conn) in current;
    assert At(before, gone) == Some(current[i].conn);
    RemovedIsBetween(before, wanted, current[i..], was);
    if now == was - {gone} {
      assert gone in was by { assert current[i] in current[i..]; }
      RestRemoved(before, wanted, current, i, was);
      RemovedIsBetween(before, wanted, current[i + 1..], now);
    }
  }

  lemma LaterElsewhere(current: seq<Peer>, i: nat, p: Peer)
    requires DistinctKeys(current, Name) && i < |current| && p in current[i + 1..]
    ensures p in current[i..] && p.name != current[i].name
  {
    var j :| i < j < |current| && current[j] == p;
    assert Name(current[i]) != Name(current[j]);
    assert current[i..][j - i] == p;
  }

  lemma RestRemoved(before: Store, wanted: Store, current: seq<Peer>, i: nat, was: Store)
    requires DistinctKeys(current, Name) && i < |current| && current[i].name !in wanted
    requires Removed(before, wanted, current[i..], was)
    ensures Removed(before, wanted, current[i + 1..], was - {current[i].name})
  {
    var now := was - {current[i].name};
    forall name ensures At(now, name) == if name == current[i].name then None else At(was, name) {}
    forall name | name in now && name !in wanted ensures exists p :: p in current[i + 1..] && p.name == name {
      var p :| p in current[i..] && p.name == name;
      assert p in current[i + 1..];
    }
    forall p | p in current[i + 1..] && p.name !in wanted ensures p.name in now { LaterElsewhere(current, i, p); }
  }

  // ------------------------------------------------------------------- the sets

  /** The listing and the desired list name the same set exactly when the store
      is what is wanted, and then every choice among duplicates is that store. */
  lemma SameSet(current: seq<Peer>, store: Store, desired: seq<Peer>)
    requires Lists(current, store)
    requires forall p :: p in current <==> p in desired
    ensures Wants(desired, store)
  {
    forall p | p in desired ensures p.name in store {
      assert Peer(p.name, p.conn) in current;
      assert At(store, p.name) == Some(p.conn);
    }
    forall name | name in store ensures Peer(name, store[name]) in desired {
      assert At(store, name) == Some(store[name]);
      assert Peer(name, store[name]) in current;
    }
  }

  method BuildPeerSet(peers: seq<Peer>) returns (s: set<Peer>)
    ensures forall p :: p in s <==> p in peers
  {
    s := {};
    for i := 0 to |peers|
      invariant forall p :: p in s <==> p in peers[..i]
    {
      s := s + {peers[i]};
    }
  }

  /** Equal sizes and one containing the other. */
  method PeerSetEqual(s: set<Peer>, other: set<Peer>) returns (equal: bool)
    ensures equal <==> s == other
  {
    if |s| != |other| { return false; }
    var left := s;
    while left != {}
      invariant left <= s && s - left <= other
    {
      var p :| p in left;
      if p !in other { return false; }
      left := left - {p};
    }
    SubsetOfSameSize(s, other);
    return true;
  }

  method FindCurrent(current: seq<Peer>, name: string) returns (found: Option<Conn>)
    ensures found.Some? ==> Peer(name, found.value) in current
    ensures found.None? ==> forall p :: p in current ==> p.name != name
  {
    for i := 0 to |current|
      invariant forall j :: 0 <= j < i ==> current[j].name != name
    {
      if current[i].name == name { return Some(current[i].conn); }
    }
    return None;
  }

  method ByName(peers: seq<Peer>) returns (byName: Store)
    ensures Wants(peers, byName)
  {
    byName := map[];
    for i := 0 to |peers|
      invariant Wants(peers[..i], byName)
    {
      assert peers[..i + 1] == peers[..i] + [peers[i]];
      byName := byName[peers[i].name := peers[i].conn];
      assert peers[i] == Peer(peers[i].name, peers[i].conn);
    }
    assert peers[..|peers|] == peers;
  }

  class RouteServer {
    var conns: Store
    /** The store after each write so far, whether it was reported to have
        succeeded or not. */
    ghost var history: seq<Store>
    /** How many were reported to have succeeded. */
    ghost var written: nat

    constructor (s: Store)
      ensures conns == s && history == [] && written == 0
    {
      conns, history, written := s, [], 0;
    }

    /** Other writers, between two calls. */
    method WrittenByOthers(s: Store)
      modifies this`conns
      ensures conns == s
    {
      conns := s;
    }

    method ListPeers() returns (ok: bool, list: seq<Peer>)
      ensures ok ==> Lists(list, conns)
    {
      if * { return false, []; }
      var out: seq<Peer> := [];
      var todo := conns.Keys;
      while todo != {}
        invariant todo <= conns.Keys && DistinctKeys(out, Name)
        invariant forall name, c :: Peer(name, c) in out <==> name !in todo && At(conns, name) == Some(c)
      {
        var name :| name in todo;
        forall i | 0 <= i < |out| ensures Name(out[i]) != name {
          assert Peer(out[i].name, out[i].conn) in out;
        }
        out := out + [Peer(name, conns[name])];
        todo := todo - {name};
      }
      list := SortBy(out, Name);
      PermutationSameElements(out, list);
      DistinctPermutation(out, list, Name);
      return true, list;
    }

    /** A failed write may have been carried out all the same. */
    method CreateOrUpdate(name: string, conn: Conn) returns (ok: bool)
      modifies this
      ensures conns == old(conns)[name := conn] || (!ok && conns == old(conns))
      ensures history == old(history) + [conns] && written == old(written) + if ok then 1 else 0
    {
      if * { conns := conns[name := conn]; }
      ok := *;
      if ok { conns := conns[name := conn]; written := written + 1; }
      history := history + [conns];
    }

    method Delete(name: string) returns (ok: bool)
      modifies this
      ensures conns == old(conns) - {name} || (!ok && conns == old(conns))
      ensures history == old(history) + [conns] && written == old(written) + if ok then 1 else 0
    {
      if * { conns := conns - {name}; }
      ok := *;
      if ok { conns := conns - {name}; written := written + 1; }
      history := history + [conns];
    }

    /** Creates and updates, in whatever order the map gives them. */
    method WriteWanted(wanted: Store, current: seq<Peer>) returns (changed: bool, ok: bool)
      requires Lists(current, conns)
      modifies this
      ensures Along(old(conns), wanted, old(history), history)
      ensures (changed <==> written > old(written)) && written >= old(written)
      ensures history == old(history) ==> conns == old(conns)
      ensures if ok then Written(old(conns), wanted, {}, conns) else Between(old(conns), wanted, conns)
    {
      changed := false;
      ghost var before := conns;
      var left := wanted.Keys;
      while left != {}
        invariant left <= wanted.Keys && Written(before, wanted, left, conns)
        invariant Along(before, wanted, old(history), history)
        invariant (changed <==> written > old(written)) && written >= old(written)
        invariant history == old(history) ==> conns == old(conns)
      {
        var name :| name in left;
        var cur := FindCurrent(current, name);
        CurrentIsStored(current, before, name, cur);
        ghost var was, log := conns, history;
        if cur != Some(wanted[name]) {
          ok := CreateOrUpdate(name, wanted[name]);
          OneWritten(before, wanted, left, was, name, conns);
          AlongStep(before, wanted, old(history), log, conns);
          if !ok { return changed, false; }
          changed := true;
        }
        left := left - {name};
      }
      return changed, true;
    }

    /** Deletes, in the order of the listing. */
    method DeleteUnwanted(wanted: Store, current: seq<Peer>, ghost before: Store) returns (changed: bool, ok: bool)
      requires Lists(current, before) && Removed(before, wanted, current, conns)
      modifies this
      ensures Along(before, wanted, old(history), history)
      ensures (changed <==> written > old(written)) && written >= old(written)
      ensures history == old(history) ==> conns == old(conns)
      ensures if ok then conns == wanted else Between(before, wanted, conns)
    {
      changed := false;
      for i := 0 to |current|
        invariant Removed(before, wanted, current[i..], conns)
        invariant Along(before, wanted, old(history), history)
        invariant (changed <==> written > old(written)) && written >= old(written)
        invariant history == old(history) ==> conns == old(conns)
      {
        ghost var was, log := conns, history;
        if current[i].name in wanted {
          NoneRemoved(before, wanted, current, i, was);
          continue;
        }
        ok := Delete(current[i].name);
        OneRemoved(before, wanted, current, i, was, conns);
        AlongStep(before, wanted, old(history), log, conns);
        if !ok { return changed, false; }
        changed := true;
      }
      assert current[|current|..] == [];
      AllRemoved(before, wanted, conns);
      return changed, true;
    }

    /** Whatever happens, each point on the way is Between; changed tells whether
        a write succeeded, on failure too; and a store that is as wanted is not
        written to. */
    method ReconcilePeers(desired: seq<Peer>) returns (changed: bool, ok: bool, ghost wanted: Store)
      modifies this
      ensures ok || history != old(history) ==> Wants(desired, wanted)
      ensures Along(old(conns), wanted, old(history), history)
      ensures (changed <==> written > old(written)) && written >= old(written)
      ensures history == old(history) ==> conns == old(conns)
      ensures if ok then conns == wanted else Between(old(conns), wanted, conns)
    {
      ghost var before := conns;
      wanted := conns;
      var listed, current := ListPeers();
      if !listed { return false, false, wanted; }
      var desiredSorted := SortBy(desired, Name);
      PermutationSameElements(desired, desiredSorted);
      var currentSet := BuildPeerSet(current);
      var desiredSet := BuildPeerSet(desiredSorted);
      var same := PeerSetEqual(currentSet, desiredSet);
      if same {
        SameSet(current, conns, desiredSorted);
        return false, true, wanted;
      }
      var desiredByName := ByName(desiredSorted);
      wanted := desiredByName;
      changed, ok := WriteWanted(desiredByName, current);
      if !ok { return changed, false, wanted; }
      RemovalStarts(before, wanted, current, conns);
      ghost var middle := history;
      var removed: bool;
      removed, ok := DeleteUnwanted(desiredByName, current, before);
      AlongConcat(before, wanted, old(history), middle, history);
      changed := changed || removed;
      return changed, ok, wanted;
    }
  }

  lemma CurrentIsStored(current: seq<Peer>, store: Store, name: string, cur: Option<Conn>)
    requires Lists(current, store)
    requires cur.Some? ==> Peer(name, cur.value) in current
    requires cur.None? ==> forall p :: p in current ==> p.name != name
    ensures cur == At(store, name)
  {
    if name in store {
      assert At(store, name) == Some(store[name]);
      assert Peer(name, store[name]) in current;
    }
    if cur.Some? { assert Peer(name, cur.value) in current; }
  }

  lemma OneWritten(before: Store, wanted: Store, left: set<string>, was: Store, name: string, now: Store)
    requires Written(before, wanted, left, was) && name in left && name in wanted
    requires now == was || now == was[name := wanted[name]]
    ensures now == was[name := wanted[name]] ==> Written(before, wanted, left - {name}, now)
    ensures Between(before, wanted, now) && (At(before, name) != At(wanted, name) ==> before != wanted)
  {
    forall n ensures At(now, n) == At(was, n) || (n == name && At(now, n) == At(wanted, n)) {}
    forall n ensures At(was, n) == if n in wanted && n !in left then At(wanted, n) else At(before, n) {}
    if now == was {
      WrittenIsBetween(before, wanted, left, now);
    } else {
      WrittenIsBetween(before, wanted, left - {name}, now);
    }
  }
}
