/** One FRRConfiguration per peer group, named by its position, and no other
    with the operator's label. */
module FrrConfigurations {
  import opened Options
  import opened Text
  import opened Labels
  import opened PlatformTypes
  import opened Json
  import opened FrrRender
  import opened FrrWriter

  function ConfigName(i: nat): string {
    "bgp-cc-" + Itoa(i + 1)
  }

  lemma ConfigNamesDistinct(i: nat, j: nat)
    ensures ConfigName(i) == ConfigName(j) <==> i == j
  {
    if ConfigName(i) == ConfigName(j) {
      assert Itoa(i + 1) == ConfigName(i)[7..] == ConfigName(j)[7..] == Itoa(j + 1);
      ItoaInjective(i + 1, j + 1);
    }
  }

  predicate Named(name: string, n: nat) {
    exists i :: 0 <= i < n && name == ConfigName(i)
  }

  function ManagedLabels(): LabelMap {
    map[LABEL_MANAGED_BY := LABEL_MANAGED_BY_VALUE]
  }

  predicate IsManaged(o: Object) {
    Satisfied(o.labels, ManagedLabels())
  }

  predicate ManagedAt(objects: Objects, name: string) {
    name in objects && IsManaged(objects[name])
  }

  /** The first k groups have their object. */
  ghost predicate Rendered(objects: Objects, settings: Settings, groups: seq<PeerGroup>, k: nat)
    requires k <= |groups|
  {
    forall i :: 0 <= i < k ==>
      var name := ConfigName(i);
      name in objects && Fulfils(objects[name], ManagedLabels(), SpecJson(settings, groups[i]))
  }

  /** The managed objects are exactly bgp-cc-1 to bgp-cc-n, each satisfying the
      rendering of its group. */
  ghost predicate InOrder(objects: Objects, settings: Settings, groups: seq<PeerGroup>) {
    && Rendered(objects, settings, groups, |groups|)
    && forall name :: ManagedAt(objects, name) <==> Named(name, |groups|)
  }

  /** What carries neither the label nor one of the names is nobody's business. */
  ghost predicate OthersKept(before: Objects, now: Objects, n: nat) {
    forall name :: !Named(name, n) && !ManagedAt(before, name) ==> Stored(now, name) == Stored(before, name)
  }

  lemma RenderedIsManaged(objects: Objects, settings: Settings, groups: seq<PeerGroup>)
    requires Rendered(objects, settings, groups, |groups|)
    ensures forall name :: Named(name, |groups|) ==> ManagedAt(objects, name)
  {
    forall name | Named(name, |groups|) ensures ManagedAt(objects, name) {
      var i :| 0 <= i < |groups| && name == ConfigName(i);
      assert Fulfils(objects[ConfigName(i)], ManagedLabels(), SpecJson(settings, groups[i]));
    }
  }

  /** A plan that only takes away from the one written before, with whatever the
      server added since, counts as in order: nothing is written. */
  lemma TakingAwayIsInOrder(objects: Objects, hs: Settings, hgs: seq<PeerGroup>, ws: Settings, wgs: seq<PeerGroup>)
    requires InOrder(objects, hs, hgs) && |hgs| == |wgs|
    requires forall i :: 0 <= i < |hgs| ==> Covered(hs, hgs[i], ws, wgs[i])
    requires forall i :: 0 <= i < |hgs| ==> Defaulted(objects[ConfigName(i)].spec, SpecJson(hs, hgs[i]))
    ensures InOrder(objects, ws, wgs)
  {
    forall i | 0 <= i < |wgs|
      ensures ConfigName(i) in objects
              && Fulfils(objects[ConfigName(i)], ManagedLabels(), SpecJson(ws, wgs[i]))
    {
      var name := ConfigName(i);
      assert Fulfils(objects[name], ManagedLabels(), SpecJson(hs, hgs[i]));
      TakenAwayUnwritten(objects[name].spec, hs, hgs[i], ws, wgs[i]);
    }
  }

  /** Written from nothing and unchanged by the server, an object is taken to be in
      order for another plan exactly when that plan only takes away. */
  lemma InOrderExactly(o: Object, hs: Settings, hg: PeerGroup, ws: Settings, wg: PeerGroup)
    requires IsManaged(o) && o.spec == SpecJson(hs, hg)
    ensures Fulfils(o, ManagedLabels(), SpecJson(ws, wg)) <==> Covered(hs, hg, ws, wg)
  {
    UnwrittenExactly(hs, hg, ws, wg);
  }

  lemma GroupStep(before: Objects, was: Objects, now: Objects, settings: Settings, groups: seq<PeerGroup>, i: nat)
    requires i < |groups| && Rendered(was, settings, groups, i)
    requires forall other :: other != ConfigName(i) ==> Stored(now, other) == Stored(was, other)
    requires forall name :: !Named(name, |groups|) ==> Stored(was, name) == Stored(before, name)
    ensures Rendered(now, settings, groups, i)
    ensures ConfigName(i) in now
            && Fulfils(now[ConfigName(i)], ManagedLabels(), SpecJson(settings, groups[i])) ==>
              Rendered(now, settings, groups, i + 1)
    ensures forall name :: !Named(name, |groups|) ==> Stored(now, name) == Stored(before, name)
  {
    forall j | 0 <= j < i
      ensures ConfigName(j) in now
              && Fulfils(now[ConfigName(j)], ManagedLabels(), SpecJson(settings, groups[j]))
    {
      ConfigNamesDistinct(i, j);
      assert Stored(now, ConfigName(j)) == Stored(was, ConfigName(j));
    }
    assert Named(ConfigName(i), |groups|);
  }

  /** Of the names listed, the first k have been dealt with. */
  ghost predicate Pruned(before: Objects, now: Objects, n: nat, listed: seq<string>, k: nat)
    requires k <= |listed|
  {
    && (forall name :: Stored(now, name) in {None, Stored(before, name)})
    && (forall name :: Named(name, n) || name !in listed ==> Stored(now, name) == Stored(before, name))
    && (forall j :: 0 <= j < k && !Named(listed[j], n) ==> listed[j] !in now)
  }

  lemma PruneStep(before: Objects, was: Objects, now: Objects, n: nat, listed: seq<string>, k: nat)
    requires k < |listed| && Pruned(before, was, n, listed, k) && !Named(listed[k], n)
    requires forall other :: other != listed[k] ==> Stored(now, other) == Stored(was, other)
    requires Stored(now, listed[k]) in {None, Stored(was, listed[k])}
    ensures Pruned(before, now, n, listed, k)
    ensures listed[k] !in now ==> Pruned(before, now, n, listed, k + 1)
  {
    forall name ensures Stored(now, name) in {None, Stored(before, name)} {
      assert Stored(was, name) in {None, Stored(before, name)};
      assert name != listed[k] ==> Stored(now, name) == Stored(was, name);
    }
    forall name | Named(name, n) || name !in listed ensures Stored(now, name) == Stored(before, name) {
      assert name != listed[k];
    }
    forall j | 0 <= j < k && !Named(listed[j], n) ensures listed[j] !in now {
      assert Stored(was, listed[j]).None?;
      assert listed[j] != listed[k] ==> Stored(now, listed[j]) == Stored(was, listed[j]);
    }
  }

  lemma PrunedInOrder(before: Objects, now: Objects, settings: Settings, groups: seq<PeerGroup>, listed: seq<string>)
    requires Rendered(before, settings, groups, |groups|)
    requires forall name :: name in listed <==> ManagedAt(before, name)
    requires Pruned(before, now, |groups|, listed, |listed|)
    ensures InOrder(now, settings, groups)
  {
    forall i | 0 <= i < |groups|
      ensures ConfigName(i) in now
              && Fulfils(now[ConfigName(i)], ManagedLabels(), SpecJson(settings, groups[i]))
    {
      assert Named(ConfigName(i), |groups|);
      assert Stored(now, ConfigName(i)) == Stored(before, ConfigName(i));
    }
    RenderedIsManaged(now, settings, groups);
    forall name ensures ManagedAt(now, name) ==> Named(name, |groups|) {
      assert Stored(now, name) in {None, Stored(before, name)};
      if name in listed {
        var j :| 0 <= j < |listed| && listed[j] == name;
        assert !Named(listed[j], |groups|) ==> listed[j] !in now;
      }
    }
  }

  method ListManaged(api: Api) returns (ok: bool, listed: seq<string>)
    ensures ok ==> forall name :: name in listed <==> ManagedAt(api.objects, name)
  {
    listed := [];
    if * { return false, listed; }
    var left := api.objects.Keys;
    while left != {}
      invariant left <= api.objects.Keys
      invariant forall name :: name in listed <==> name !in left && ManagedAt(api.objects, name)
    {
      var name :| name in left;
      left := left - {name};
      if IsManaged(api.objects[name]) { listed := listed + [name]; }
    }
    return true, listed;
  }

  method EnsureSingleFRRConfiguration(api: Api, settings: Settings, group: PeerGroup, name: string) returns (ok: bool)
    requires api.Valid()
    modifies api
    ensures api.Valid()
    ensures forall other :: other != name ==> Stored(api.objects, other) == Stored(old(api.objects), other)
    ensures ok ==> name in api.objects
                   && Fulfils(api.objects[name], ManagedLabels(), SpecJson(settings, group))
    ensures name in old(api.objects) && Fulfils(old(api.objects)[name], ManagedLabels(), SpecJson(settings, group)) ==>
              api.objects == old(api.objects) && api.writes == old(api.writes)
  {
    var spec := RenderGroup(settings, group);
    ghost var seen;
    ok, seen := api.CreateOrUpdate(name, ManagedLabels(), map[], spec);
  }

  /** The pruning. Failing part way, it has only deleted what it may. */
  method Prune(api: Api, listed: seq<string>, expected: set<string>, ghost n: nat) returns (ok: bool)
    requires api.Valid() && forall name :: name in expected <==> Named(name, n)
    modifies api
    ensures api.Valid()
    ensures exists k :: 0 <= k <= |listed| && Pruned(old(api.objects), api.objects, n, listed, k)
    ensures ok ==> Pruned(old(api.objects), api.objects, n, listed, |listed|)
    ensures (forall name :: name in listed ==> Named(name, n)) ==>
              api.objects == old(api.objects) && api.writes == old(api.writes)
  {
    ghost var before := api.objects;
    ghost var quiet := forall name :: name in listed ==> Named(name, n);
    for i := 0 to |listed|
      invariant api.Valid() && Pruned(before, api.objects, n, listed, i)
      invariant quiet ==> api.objects == before && api.writes == old(api.writes)
    {
      if listed[i] in expected { continue; }
      ghost var was := api.objects;
      var deleted := api.Delete(listed[i]);
      PruneStep(before, was, api.objects, n, listed, i);
      if !deleted { return false; }
    }
    return true;
  }

  /** Whatever fails, what is neither labelled nor named for a group is as it was.
      On success everything is in order, and if it was before, nothing was written. */
  method EnsureFRRConfigurationsFromGroups(api: Api, settings: Settings, groups: seq<PeerGroup>)
    returns (ok: bool, count: nat)
    requires api.Valid()
    modifies api
    ensures api.Valid()
    ensures OthersKept(old(api.objects), api.objects, |groups|)
    ensures ok ==> count == |groups| && InOrder(api.objects, settings, groups)
    ensures InOrder(old(api.objects), settings, groups) ==>
              api.objects == old(api.objects) && api.writes == old(api.writes)
  {
    ghost var before := api.objects;
    ghost var quiet := InOrder(before, settings, groups);
    var expected: set<string> := {};
    for i := 0 to |groups|
      invariant api.Valid() && Rendered(api.objects, settings, groups, i)
      invariant forall name :: name in expected <==> Named(name, i)
      invariant forall name :: !Named(name, |groups|) ==> Stored(api.objects, name) == Stored(before, name)
      invariant quiet ==> api.objects == before && api.writes == old(api.writes)
    {
      var name := ConfigName(i);
      expected := expected + {name};
      ghost var was := api.objects;
      assert quiet ==> name in before && Fulfils(before[name], ManagedLabels(), SpecJson(settings, groups[i]));
      var done := EnsureSingleFRRConfiguration(api, settings, groups[i], name);
      GroupStep(before, was, api.objects, settings, groups, i);
      if !done { return false, 0; }
    }
    ghost var middle := api.objects;
    var got, listed := ListManaged(api);
    if !got { return false, 0; }
    ok := Prune(api, listed, expected, |groups|);
    ghost var k :| 0 <= k <= |listed| && Pruned(middle, api.objects, |groups|, listed, k);
    KeptByPrune(before, middle, api.objects, |groups|, listed, k);
    if !ok { return false, 0; }
    PrunedInOrder(middle, api.objects, settings, groups, listed);
    return true, |groups|;
  }

  lemma KeptByPrune(before: Objects, middle: Objects, now: Objects, n: nat, listed: seq<string>, k: nat)
    requires forall name :: !Named(name, n) ==> Stored(middle, name) == Stored(before, name)
    requires forall name :: name in listed <==> ManagedAt(middle, name)
    requires k <= |listed| && Pruned(middle, now, n, listed, k)
    ensures OthersKept(before, now, n)
  {
    forall name | !Named(name, n) && !ManagedAt(before, name) ensures Stored(now, name) == Stored(before, name) {
      assert Stored(middle, name) == Stored(before, name);
      assert name !in listed;
    }
  }

  /** On deletion of the configuration: everything with the label goes. */
  method DeleteFRRConfigurations(api: Api) returns (ok: bool)
    requires api.Valid()
    modifies api
    ensures api.Valid()
    ensures OthersKept(old(api.objects), api.objects, 0)
    ensures ok ==> forall name :: name in api.objects <==>
                                    name in old(api.objects) && !ManagedAt(old(api.objects), name)
  {
    ghost var before := api.objects;
    var got, listed := ListManaged(api);
    if !got { return false; }
    ok := Prune(api, listed, {}, 0);
    ghost var k :| 0 <= k <= |listed| && Pruned(before, api.objects, 0, listed, k);
    KeptByPrune(before, before, api.objects, 0, listed, k);
    if ok {
      forall name ensures name in api.objects <==> name in before && !ManagedAt(before, name) {
        assert Stored(api.objects, name) in {None, Stored(before, name)};
        if name in listed {
          var j :| 0 <= j < |listed| && listed[j] == name;
          assert !Named(listed[j], 0);
        } else {
          assert Stored(api.objects, name) == Stored(before, name);
        }
      }
    }
  }
}
