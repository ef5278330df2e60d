/** JSON trees as unstructured Kubernetes objects hold them, and the comparison
    that decides whether an object has to be written. */
module Json {
  import opened Options

  datatype J =
    | Null
    | Bool(b: bool)
    | Int(n: int)
    | Str(s: string)
    | List(items: seq<J>)
    | Obj(fields: map<string, J>)

  /** Reading a Go map of interfaces: a missing key reads as nil. */
  function Field(j: J, k: string): J {
    if j.Obj? && k in j.fields then j.fields[k] else Null
  }

  /** specSatisfied: a map has to have what is wanted of it and may have more, a
      list has to have the same length, anything else has to be equal. */
  predicate SpecSatisfied(existing: J, desired: J)
    decreases desired
  {
    match desired
    case Obj(fields) =>
      existing.Obj? && forall k :: k in fields ==> SpecSatisfied(Field(existing, k), fields[k])
    case List(items) =>
      && existing.List? && |existing.items| == |items|
      && forall i :: 0 <= i < |items| ==> SpecSatisfied(existing.items[i], items[i])
    case _ => existing == desired
  }

  /** Some map in the tree holds a null. */
  predicate HoldsNull(j: J) {
    match j
    case Obj(fields) => exists k :: k in fields && (fields[k].Null? || HoldsNull(fields[k]))
    case List(items) => exists i :: 0 <= i < |items| && HoldsNull(items[i])
    case _ => false
  }

  lemma {:induction false} Reflexive(j: J)
    ensures SpecSatisfied(j, j)
  {
    match j
    case Obj(fields) =>
      forall k | k in fields ensures SpecSatisfied(Field(j, k), fields[k]) { Reflexive(fields[k]); }
    case List(items) =>
      forall i | 0 <= i < |items| ensures SpecSatisfied(items[i], items[i]) { Reflexive(items[i]); }
    case _ =>
  }

  /** Wanting one more field. */
  lemma OneMoreField(existing: J, fields: map<string, J>, k: string, v: J)
    requires k !in fields
    ensures SpecSatisfied(existing, Obj(fields[k := v])) <==>
            SpecSatisfied(existing, Obj(fields)) && SpecSatisfied(Field(existing, k), v)
  {
    var more := fields[k := v];
    if SpecSatisfied(existing, Obj(more)) {
      forall m | m in fields ensures SpecSatisfied(Field(existing, m), fields[m]) {
        assert SpecSatisfied(Field(existing, m), more[m]);
      }
      assert SpecSatisfied(Field(existing, k), more[k]);
    }
  }

  predicate Chained(a: J, b: J, c: J) {
    SpecSatisfied(a, b) && SpecSatisfied(b, c)
  }

  lemma {:induction false} TransitiveTo(a: J, b: J, c: J)
    requires SpecSatisfied(a, b) && SpecSatisfied(b, c) && !HoldsNull(c)
    ensures SpecSatisfied(a, c)
    decreases c
  {
    match c
    case Obj(fields) =>
      forall k | k in fields ensures SpecSatisfied(Field(a, k), fields[k]) {
        assert SpecSatisfied(Field(b, k), fields[k]) && !fields[k].Null?;
        assert k in b.fields;
        TransitiveTo(Field(a, k), b.fields[k], fields[k]);
      }
    case List(items) =>
      forall i | 0 <= i < |items| ensures SpecSatisfied(a.items[i], items[i]) {
        TransitiveTo(a.items[i], b.items[i], items[i]);
      }
    case _ =>
  }

  /** A null in a map is satisfied by the key being absent, which says nothing of
      what satisfies that in turn. */
  lemma {:induction false} NullBreaks(c: J) returns (a: J, b: J)
    requires HoldsNull(c)
    ensures SpecSatisfied(a, b) && SpecSatisfied(b, c) && !SpecSatisfied(a, c)
    decreases c
  {
    match c
    case Obj(fields) =>
      var k :| k in fields && (fields[k].Null? || HoldsNull(fields[k]));
      var without := fields - {k};
      if fields[k].Null? {
        a, b := Obj(fields[k := Bool(true)]), Obj(without);
      } else {
        var p, q := NullBreaks(fields[k]);
        a, b := Obj(fields[k := p]), Obj(fields[k := q]);
      }
      forall m | m in b.fields ensures SpecSatisfied(Field(a, m), b.fields[m]) {
        if m != k { Reflexive(fields[m]); }
      }
      forall m | m in fields ensures SpecSatisfied(Field(b, m), fields[m]) {
        if m != k { Reflexive(fields[m]); }
      }
      assert !SpecSatisfied(Field(a, k), fields[k]);
    case List(items) =>
      var i :| 0 <= i < |items| && HoldsNull(items[i]);
      var p, q := NullBreaks(items[i]);
      a, b := List(items[i := p]), List(items[i := q]);
      forall m | 0 <= m < |items|
        ensures SpecSatisfied(a.items[m], b.items[m]) && SpecSatisfied(b.items[m], items[m])
      {
        if m != i { Reflexive(items[m]); }
      }
      assert !SpecSatisfied(a.items[i], items[i]);
  }

  /** What is satisfied by something satisfied is satisfied, for every such chain,
      exactly when no map of the last tree holds a null. */
  lemma TransitiveExactly(c: J)
    ensures (forall a, b :: Chained(a, b, c) ==> SpecSatisfied(a, c)) <==> !HoldsNull(c)
  {
    if HoldsNull(c) {
      var a, b := NullBreaks(c);
      assert Chained(a, b, c);
    } else {
      forall a, b | Chained(a, b, c) ensures SpecSatisfied(a, c) {
        TransitiveTo(a, b, c);
      }
    }
  }

  // -------------------------------------------------------------- path by path

  datatype Step = Key(k: string) | Index(i: nat)

  function At(j: J, path: seq<Step>): Option<J>
    decreases |path|
  {
    if path == [] then Some(j)
    else
      match path[0]
      case Key(k) => if j.Obj? && k in j.fields then At(j.fields[k], path[1..]) else None
      case Index(i) => if j.List? && i < |j.items| then At(j.items[i], path[1..]) else None
  }

  /** The same value, up to what is inside. */
  predicate Alike(a: J, b: J) {
    match b
    case Obj(_) => a.Obj?
    case List(items) => a.List? && |a.items| == |items|
    case _ => a == b
  }

  ghost predicate EveryPath(existing: J, desired: J) {
    forall path :: At(desired, path).Some? ==>
                     At(existing, path).Some? && Alike(At(existing, path).value, At(desired, path).value)
  }

  lemma {:induction false} SatisfiedAt(existing: J, desired: J, path: seq<Step>)
    requires SpecSatisfied(existing, desired) && !HoldsNull(desired) && At(desired, path).Some?
    ensures At(existing, path).Some? && Alike(At(existing, path).value, At(desired, path).value)
    decreases |path|
  {
    if path != [] {
      match path[0]
      case Key(k) =>
        assert SpecSatisfied(Field(existing, k), desired.fields[k]);
        assert !desired.fields[k].Null? && !HoldsNull(desired.fields[k]);
        SatisfiedAt(existing.fields[k], desired.fields[k], path[1..]);
      case Index(i) =>
        SatisfiedAt(existing.items[i], desired.items[i], path[1..]);
    }
  }

  lemma AtFurther(j: J, step: Step, path: seq<Step>)
    ensures At(j, [step] + path) ==
            if At(j, [step]).Some? then At(At(j, [step]).value, path) else None
  {
    var whole := [step] + path;
    assert whole[1..] == path && [step][1..] == [];
    match step
    case Key(k) => if j.Obj? && k in j.fields { assert At(j.fields[k], []) == Some(j.fields[k]); }
    case Index(i) => if j.List? && i < |j.items| { assert At(j.items[i], []) == Some(j.items[i]); }
  }

  lemma StepInto(existing: J, desired: J, step: Step)
    requires EveryPath(existing, desired) && At(desired, [step]).Some?
    ensures At(existing, [step]).Some? && EveryPath(At(existing, [step]).value, At(desired, [step]).value)
  {
    var e, d := At(existing, [step]), At(desired, [step]).value;
    assert e.Some?;
    forall path | At(d, path).Some?
      ensures At(e.value, path).Some? && Alike(At(e.value, path).value, At(d, path).value)
    {
      AtFurther(desired, step, path);
      AtFurther(existing, step, path);
      assert At(desired, [step] + path) == At(d, path);
    }
  }

  lemma {:induction false} EveryPathSatisfied(existing: J, desired: J)
    requires EveryPath(existing, desired)
    ensures SpecSatisfied(existing, desired)
    decreases desired
  {
    assert At(desired, []) == Some(desired) && At(existing, []) == Some(existing);
    match desired
    case Obj(fields) =>
      forall k | k in fields ensures SpecSatisfied(Field(existing, k), fields[k]) {
        assert [Key(k)][1..] == [];
        StepInto(existing, desired, Key(k));
        EveryPathSatisfied(existing.fields[k], fields[k]);
      }
    case List(items) =>
      forall i | 0 <= i < |items| ensures SpecSatisfied(existing.items[i], items[i]) {
        assert [Index(i)][1..] == [];
        StepInto(existing, desired, Index(i));
        EveryPathSatisfied(existing.items[i], items[i]);
      }
    case _ =>
  }

  /** The comparison says what its comment promises: every field set in the
      desired tree, at any depth, is there with that value. */
  lemma SatisfiedExactly(existing: J, desired: J)
    requires !HoldsNull(desired)
    ensures SpecSatisfied(existing, desired) <==> EveryPath(existing, desired)
  {
    if SpecSatisfied(existing, desired) {
      forall path | At(desired, path).Some?
        ensures At(existing, path).Some? && Alike(At(existing, path).value, At(desired, path).value)
      {
        SatisfiedAt(existing, desired, path);
      }
    } else if EveryPath(existing, desired) {
      EveryPathSatisfied(existing, desired);
    }
  }

  /** Server-side defaulting: keys are added to maps, nothing sent is changed. */
  predicate Defaulted(stored: J, sent: J)
    decreases sent
  {
    match sent
    case Obj(fields) =>
      stored.Obj? && forall k :: k in fields ==> k in stored.fields && Defaulted(stored.fields[k], fields[k])
    case List(items) =>
      && stored.List? && |stored.items| == |items|
      && forall i :: 0 <= i < |items| ==> Defaulted(stored.items[i], items[i])
    case _ => stored == sent
  }

  lemma {:induction false} DefaultedSatisfies(stored: J, sent: J)
    requires Defaulted(stored, sent)
    ensures SpecSatisfied(stored, sent)
    decreases sent
  {
    match sent
    case Obj(fields) =>
      forall k | k in fields ensures SpecSatisfied(Field(stored, k), fields[k]) {
        DefaultedSatisfies(stored.fields[k], fields[k]);
      }
    case List(items) =>
      forall i | 0 <= i < |items| ensures SpecSatisfied(stored.items[i], items[i]) {
        DefaultedSatisfies(stored.items[i], items[i]);
      }
    case _ =>
  }
}
