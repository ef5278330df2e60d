/** Writing FRRConfigurations: create or update with retries, one object per
    peer group, and the pruning of what no group accounts for. */
module FrrWriter {
  import opened Options
  import opened Labels
  import opened Json

  datatype Object = Object(labels: LabelMap, annotations: LabelMap, spec: J, version: nat)
  type Objects = map<string, Object>

  function Stored(objects: Objects, name: string): Option<Object> {
    if name in objects then Some(objects[name]) else None
  }

  /** Nothing to write. */
  predicate Fulfils(o: Object, labels: LabelMap, spec: J) {
    SpecSatisfied(o.spec, spec) && Satisfied(o.labels, labels)
  }

  // -------------------------------------------------------- labels over retries

  /** Each attempt lays what is to be written over the labels just read, and the
      result is what the next attempt starts from. */
  function Accumulated(seen: seq<LabelMap>, desired: LabelMap): LabelMap {
    if seen == [] then desired
    else seen[|seen| - 1] + Accumulated(seen[..|seen| - 1], desired)
  }

  function LabelAt(m: LabelMap, k: string): Option<string> {
    if k in m then Some(m[k]) else None
  }

  /** The value of a key in the first of the versions that has it. */
  function FirstSeen(seen: seq<LabelMap>, k: string): Option<string> {
    if seen == [] then None
    else if FirstSeen(seen[..|seen| - 1], k).Some? then FirstSeen(seen[..|seen| - 1], k)
    else LabelAt(seen[|seen| - 1], k)
  }

  lemma {:induction false} AccumulatedAt(seen: seq<LabelMap>, desired: LabelMap, k: string)
    ensures LabelAt(Accumulated(seen, desired), k) == if k in desired then Some(desired[k]) else FirstSeen(seen, k)
  {
    if seen != [] {
      AccumulatedAt(seen[..|seen| - 1], desired, k);
    }
  }

  /** However many retries: every desired key ends with its desired value, and no
      key of any version read, so none of the one overwritten, is lost. */
  lemma {:induction false} NoKeyLost(seen: seq<LabelMap>, desired: LabelMap)
    ensures Satisfied(Accumulated(seen, desired), desired)
    ensures forall k :: k in desired ==> LabelAt(Accumulated(seen, desired), k) == Some(desired[k])
    ensures forall i :: 0 <= i < |seen| ==> seen[i].Keys <= Accumulated(seen, desired).Keys
  {
    if seen != [] {
      var most := seen[..|seen| - 1];
      NoKeyLost(most, desired);
      forall i | 0 <= i < |seen| ensures seen[i].Keys <= Accumulated(seen, desired).Keys {
        assert i < |most| ==> most[i] == seen[i];
      }
    }
  }

  /** The write leaves what others had on the version it overwrites, and adds
      nothing to it, exactly when every other key was there with that value the
      first time it was read. */
  lemma OverwrittenKept(seen: seq<LabelMap>, desired: LabelMap)
    requires seen != []
    ensures Accumulated(seen, desired) == seen[|seen| - 1] + desired <==>
            forall k :: k !in desired ==> FirstSeen(seen, k) == LabelAt(seen[|seen| - 1], k)
  {
    var got, meant := Accumulated(seen, desired), seen[|seen| - 1] + desired;
    forall k
      ensures LabelAt(got, k) == if k in desired then Some(desired[k]) else FirstSeen(seen, k)
      ensures LabelAt(meant, k) == if k in desired then Some(desired[k]) else LabelAt(seen[|seen| - 1], k)
    {
      AccumulatedAt(seen, desired, k);
    }
    if got == meant {
      forall k | k !in desired ensures FirstSeen(seen, k) == LabelAt(seen[|seen| - 1], k) {
        assert LabelAt(got, k) == LabelAt(meant, k);
      }
    }
    if forall k :: k !in desired ==> FirstSeen(seen, k) == LabelAt(seen[|seen| - 1], k) {
      SameLabels(got, meant);
    }
  }

  lemma SameLabels(a: LabelMap, b: LabelMap)
    requires forall k :: LabelAt(a, k) == LabelAt(b, k)
    ensures a == b
  {
    forall k ensures k in a <==> k in b {
      assert LabelAt(a, k) == LabelAt(b, k);
    }
    forall k | k in a ensures a[k] == b[k] {
      assert LabelAt(a, k) == LabelAt(b, k);
    }
  }

  /** One read always suffices; with a second one another writer's newer value is
      put back to the older. */
  lemma NewerValueReverted(desired: LabelMap, k: string, older: string, newer: string)
    requires k !in desired && older != newer
    ensures Accumulated([map[k := older]], desired) == map[k := older] + desired
    ensures LabelAt(Accumulated([map[k := older], map[k := newer]], desired), k) == Some(older)
    ensures LabelAt(Accumulated([map[k := older], map[]], desired), k) == Some(older)
  {
    var once: seq<LabelMap> := [map[k := older]];
    var twice, gone := once + [map[k := newer]], once + [map[]];
    assert once[..0] == [] && twice[..1] == once && gone[..1] == once;
    AccumulatedAt(twice, desired, k);
    AccumulatedAt(gone, desired, k);
  }

  function LabelsOf(seen: seq<Object>): seq<LabelMap> {
    seq(|seen|, i requires 0 <= i < |seen| => seen[i].labels)
  }

  function AnnotationsOf(seen: seq<Object>): seq<LabelMap> {
    seq(|seen|, i requires 0 <= i < |seen| => seen[i].annotations)
  }

  lemma OneMoreRead(seen: seq<Object>, o: Object, labels: LabelMap, annotations: LabelMap)
    ensures Accumulated(LabelsOf(seen + [o]), labels) == o.labels + Accumulated(LabelsOf(seen), labels)
    ensures Accumulated(AnnotationsOf(seen + [o]), annotations)
            == o.annotations + Accumulated(AnnotationsOf(seen), annotations)
  {
    assert LabelsOf(seen + [o])[..|seen|] == LabelsOf(seen);
    assert AnnotationsOf(seen + [o])[..|seen|] == AnnotationsOf(seen);
  }

  // -------------------------------------------------------------------- the API

  datatype Outcome = Done | Conflict | Failed

  const RETRIES := 5

  class Api {
    const defaulting: J -> J
    var objects: Objects
    var nextVersion: nat
    /** Creates, updates and deletes asked for, and what updates replaced. */
    ghost var writes: nat
    ghost var replaced: seq<Object>

    constructor (defaulting: J -> J)
      requires forall j :: Defaulted(defaulting(j), j)
      ensures Valid() && objects == map[] && this.defaulting == defaulting
    {
      this.defaulting, objects, nextVersion, writes, replaced := defaulting, map[], 0, 0, [];
    }

    /** Versions are handed out once, and defaulting only adds. */
    ghost predicate Valid()
      reads this
    {
      && (forall name :: name in objects ==> objects[name].version < nextVersion)
      && forall j :: Defaulted(defaulting(j), j)
    }

    /** Anyone else may create, change or delete the object at this point. */
    method OthersWrite(name: string)
      requires Valid()
      modifies this`objects, this`nextVersion
      ensures Valid() && nextVersion >= old(nextVersion)
      ensures forall other :: other != name ==> Stored(objects, other) == Stored(old(objects), other)
      ensures name in objects && objects[name].version < old(nextVersion) ==>
                name in old(objects) && objects[name] == old(objects)[name]
    {
      if * {
        objects := objects - {name};
      } else if * {
        var o: Object := *;
        objects := objects[name := o.(version := nextVersion)];
        nextVersion := nextVersion + 1;
      }
    }

    method Get(name: string) returns (ok: bool, found: Option<Object>)
      ensures ok ==> found == Stored(objects, name)
    {
      if * { return false, None; }
      return true, Stored(objects, name);
    }

    method Create(name: string, o: Object) returns (ok: bool)
      requires Valid()
      modifies this
      ensures Valid() && writes == old(writes) + 1 && replaced == old(replaced)
      ensures forall other :: other != name ==> Stored(objects, other) == Stored(old(objects), other)
      ensures ok ==> Stored(objects, name)
                     == Some(Object(o.labels, o.annotations, defaulting(o.spec), old(nextVersion)))
    {
      writes := writes + 1;
      if name in objects { return false; }
      if * { return false; }
      objects := objects[name := Object(o.labels, o.annotations, defaulting(o.spec), nextVersion)];
      nextVersion := nextVersion + 1;
      ok := *;
    }

    /** A conflict means that nothing was written; a failure says nothing. */
    method Update(name: string, o: Object) returns (outcome: Outcome)
      requires Valid()
      modifies this
      ensures Valid() && writes == old(writes) + 1
      ensures forall other :: other != name ==> Stored(objects, other) == Stored(old(objects), other)
      ensures outcome.Conflict? ==> objects == old(objects) && replaced == old(replaced)
      ensures outcome.Done? ==>
                && name in old(objects) && old(objects)[name].version == o.version
                && replaced == old(replaced) + [old(objects)[name]]
                && Stored(objects, name) == Some(Object(o.labels, o.annotations, defaulting(o.spec), old(nextVersion)))
    {
      writes := writes + 1;
      if name !in objects { return Failed; }
      if objects[name].version != o.version { return Conflict; }
      if * { return Failed; }
      replaced := replaced + [objects[name]];
      objects := objects[name := Object(o.labels, o.annotations, defaulting(o.spec), nextVersion)];
      nextVersion := nextVersion + 1;
      if * { return Failed; }
      return Done;
    }

    method Delete(name: string) returns (ok: bool)
      requires Valid()
      modifies this
      ensures Valid() && writes == old(writes) + 1
      ensures forall other :: other != name ==> Stored(objects, other) == Stored(old(objects), other)
      ensures Stored(objects, name) in {None, Stored(old(objects), name)}
      ensures ok ==> name !in objects
    {
      writes := writes + 1;
      if * { return false; }
      objects := objects - {name};
      ok := *;
    }

    /** The update with its retries. What is overwritten is the version read last. */
    method RetryOnConflict(name: string, desired: Object) returns (ok: bool, ghost seen: seq<Object>)
      requires Valid()
      modifies this
      ensures Valid() && |seen| <= RETRIES
      ensures forall other :: other != name ==> Stored(objects, other) == Stored(old(objects), other)
      ensures ok ==>
                && seen != [] && replaced == old(replaced) + [seen[|seen| - 1]]
                && name in objects && objects[name].spec == defaulting(desired.spec)
                && objects[name].labels == Accumulated(LabelsOf(seen), desired.labels)
                && objects[name].annotations == Accumulated(AnnotationsOf(seen), desired.annotations)
    {
      seen := [];
      var obj := desired;
      for attempt := 0 to RETRIES
        invariant Valid() && |seen| == attempt && replaced == old(replaced)
        invariant forall other :: other != name ==> Stored(objects, other) == Stored(old(objects), other)
        invariant obj.spec == desired.spec
        invariant obj.labels == Accumulated(LabelsOf(seen), desired.labels)
        invariant obj.annotations == Accumulated(AnnotationsOf(seen), desired.annotations)
      {
        var got, existing := Get(name);
        if !got || existing.None? { return false, seen; }
        var read := existing.value;
        var labels := MergeLabels(read.labels, obj.labels);
        var annotations := MergeLabels(read.annotations, obj.annotations);
        obj := obj.(version := read.version, labels := labels, annotations := annotations);
        OneMoreRead(seen, read, desired.labels, desired.annotations);
        seen := seen + [read];
        OthersWrite(name);
        var outcome := Update(name, obj);
        if outcome.Done? { return true, seen; }
        if outcome.Failed? { return false, seen; }
      }
      return false, seen;
    }

    /** seen is what the update read, empty if there was none. */
    method CreateOrUpdate(name: string, labels: LabelMap, annotations: LabelMap, spec: J)
      returns (ok: bool, ghost seen: seq<Object>)
      requires Valid()
      modifies this
      ensures Valid()
      ensures forall other :: other != name ==> Stored(objects, other) == Stored(old(objects), other)
      ensures ok ==> name in objects && Fulfils(objects[name], labels, spec)
      ensures name in old(objects) && Fulfils(old(objects)[name], labels, spec) ==>
                objects == old(objects) && writes == old(writes)
      ensures ok && seen != [] ==>
                && replaced == old(replaced) + [seen[|seen| - 1]] && objects[name].spec == defaulting(spec)
                && objects[name].labels == Accumulated(LabelsOf(seen), labels)
                && objects[name].annotations == Accumulated(AnnotationsOf(seen), annotations)
      ensures ok && seen == [] ==> objects == old(objects) || name !in old(objects)
    {
      seen := [];
      var obj := Object(labels, annotations, spec, 0);
      var got, existing := Get(name);
      if !got { return false, seen; }
      if existing.None? {
        ok := Create(name, obj);
        DefaultedSatisfies(defaulting(spec), spec);
        return ok, seen;
      }
      var labelled := LabelsSatisfied(existing.value.labels, labels);
      if SpecSatisfied(existing.value.spec, spec) && labelled { return true, seen; }
      ok, seen := RetryOnConflict(name, obj);
      NoKeyLost(LabelsOf(seen), labels);
      DefaultedSatisfies(defaulting(spec), spec);
    }
  }
}
