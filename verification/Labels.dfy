/** Kubernetes label maps. */
module Labels {
  type LabelMap = map<string, string>

  const LABEL_MANAGED_BY := "app.kubernetes.io/managed-by"
  const LABEL_MANAGED_BY_VALUE := "bgp-cloud-connector"

  /** Reading a Go map: a missing key reads as the empty string. */
  function Value(labels: LabelMap, key: string): string {
    if key in labels then labels[key] else ""
  }

  predicate Satisfied(existing: LabelMap, desired: LabelMap) {
    forall k :: k in desired ==> Value(existing, k) == desired[k]
  }

  method LabelsSatisfied(existing: LabelMap, desired: LabelMap) returns (ok: bool)
    ensures ok <==> Satisfied(existing, desired)
  {
    var todo := desired.Keys;
    while todo != {}
      invariant todo <= desired.Keys
      invariant forall k :: k in desired.Keys - todo ==> Value(existing, k) == desired[k]
    {
      var k :| k in todo;
      if Value(existing, k) != desired[k] { return false; }
      todo := todo - {k};
    }
    return true;
  }

  /** mergeLabels: the overlay wins. Filled key by key, in any order. */
  method MergeLabels(base: LabelMap, overlay: LabelMap) returns (merged: LabelMap)
    ensures merged == base + overlay
  {
    merged := map[];
    var todo := base.Keys;
    while todo != {}
      invariant todo <= base.Keys
      invariant merged == map k | k in base.Keys - todo :: base[k]
    {
      var k :| k in todo;
      merged := merged[k := base[k]];
      todo := todo - {k};
    }
    assert merged == base;
    todo := overlay.Keys;
    while todo != {}
      invariant todo <= overlay.Keys
      invariant merged == base + map k | k in overlay.Keys - todo :: overlay[k]
    {
      var k :| k in todo;
      merged := merged[k := overlay[k]];
      todo := todo - {k};
    }
    assert overlay == map k | k in overlay.Keys - {} :: overlay[k];
  }

  /** Merging satisfies what is overlaid, and keeps every key of the base. */
  lemma MergeSatisfies(base: LabelMap, overlay: LabelMap)
    ensures Satisfied(base + overlay, overlay)
    ensures base.Keys <= (base + overlay).Keys
  {}
}
