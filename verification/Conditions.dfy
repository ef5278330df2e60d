/** Optional values. */
module Options {
  datatype Option<+T> = None | Some(value: T)
}

/** How a write to the API server came back. */
module Outcomes {
  datatype WriteOutcome = Done | NotDone | DoneUnreported

  /** A write reported as failed may have been carried out. */
  predicate TookEffect(o: WriteOutcome) {
    !o.NotDone?
  }
}

/** Status conditions of a custom resource and the helpers that maintain them. */
module Conditions {
  import opened Options

  datatype Phase = NoPhase | Pending | Configuring | Ready | Degraded

  /** The condition types of the two resources. */
  datatype Kind =
    | NetworkOperatorPatched
    | FRRNamespaceReady
    | CloudEndpointsDiscovered
    | FRRConfigurationApplied
    | CloudResourcesReconciled
    | CompleteNodeInventory
    | DeletionBlocked
    | NetworkCreated
    | RouteAdvertisementsCreated

  datatype Reason =
    | ReasonInvalidName
    | ReasonDuplicateNetwork
    | ReasonCloudCredentialsInvalid
    | ReasonRouteServerNotFound
    | ReasonCUDNSpecInvalid
    | ReasonPatchFailed
    | ReasonCheckFailed
    | ReasonCloudDiscoveryFailed
    | ReasonApplyFailed
    | ReasonCloudReconcileFailed
    | ReasonNamespaceNotReady
    | ReasonCUDNFailed
    | ReasonRAFailed
    | ReasonPatched
    | ReasonWaitingForFRR
    | ReasonWaitingForCloudCredentials
    | ReasonFRRReady
    | ReasonDiscovered
    | ReasonApplied
    | ReasonReconciled
    | ReasonCreated
    | ReasonComplete
    | ReasonNodesIncomplete
    | ReasonRoutingCRsExist

  /** IsTerminalDegradedReason: no later pass is scheduled for these. */
  predicate IsTerminal(reason: Reason) {
    || reason.ReasonInvalidName?
    || reason.ReasonDuplicateNetwork?
    || reason.ReasonCloudCredentialsInvalid?
    || reason.ReasonRouteServerNotFound?
    || reason.ReasonCUDNSpecInvalid?
  }

  /** Condition messages: one constructor for each sentence the controllers
      print, holding what is printed into it. */
  datatype Message =
    | SaysMustBeNamed(got: string)
    | SaysPatched
    | SaysPatchFailed(error: string)
    | SaysFrrRunning
    | SaysFrrCheckFailed(error: string)
    | SaysWaitingForFrr
    | SaysBuildFailed(error: string)
    | SaysDiscoveryFailed(error: string)
    | SaysDiscovered(count: nat)
    | SaysApplied(count: nat)
    | SaysApplyFailed(error: string)
    | SaysInventoryComplete
    | SaysListFailed(error: string)
    | SaysReconcileFailed(error: string)
    | SaysReconciled
    | SaysReconciledPartly
    | SaysBlocked(count: nat, names: string)
    | SaysUdnEnsured(udn: string)
    | SaysDuplicate(network: string, other: string)
    | SaysNamespaceFailed(error: string)
    | SaysUdnFailed(error: string)
    | SaysAdvertised
    | SaysAdvertisingFailed(error: string)
    | Says(text: string)

  /** `since` is the last transition time, in seconds. */
  datatype Condition = Condition(kind: Kind, status: bool, reason: Reason, message: Message,
                                 generation: nat, since: nat)

  /** FindStatusCondition. */
  function Lookup(cs: seq<Condition>, kind: Kind): Option<Condition> {
    if cs == [] then None
    else if cs[0].kind == kind then Some(cs[0])
    else Lookup(cs[1..], kind)
  }

  /** SetStatusCondition: the transition time moves only with the status. */
  function SetCondition(cs: seq<Condition>, c: Condition, now: nat): seq<Condition> {
    if cs == [] then [c.(since := now)]
    else if cs[0].kind == c.kind then
      [c.(since := if cs[0].status == c.status then cs[0].since else now)] + cs[1..]
    else [cs[0]] + SetCondition(cs[1..], c, now)
  }

  /** RemoveStatusCondition. */
  function RemoveCondition(cs: seq<Condition>, kind: Kind): seq<Condition> {
    if cs == [] then []
    else if cs[0].kind == kind then RemoveCondition(cs[1..], kind)
    else [cs[0]] + RemoveCondition(cs[1..], kind)
  }

  lemma {:induction false} LookupAfterSet(cs: seq<Condition>, c: Condition, now: nat, kind: Kind)
    ensures Lookup(SetCondition(cs, c, now), kind) ==
            if kind != c.kind then Lookup(cs, kind)
            else
              match Lookup(cs, kind)
              case None => Some(c.(since := now))
              case Some(was) => Some(c.(since := if was.status == c.status then was.since else now))
  {
    if cs != [] && cs[0].kind != c.kind {
      LookupAfterSet(cs[1..], c, now, kind);
      assert SetCondition(cs, c, now)[1..] == SetCondition(cs[1..], c, now);
    }
  }

  lemma {:induction false} LookupAfterRemove(cs: seq<Condition>, gone: Kind, kind: Kind)
    ensures Lookup(RemoveCondition(cs, gone), kind) == if kind == gone then None else Lookup(cs, kind)
  {
    if cs != [] {
      LookupAfterRemove(cs[1..], gone, kind);
      if cs[0].kind != gone { assert RemoveCondition(cs, gone)[1..] == RemoveCondition(cs[1..], gone); }
    }
  }

  /** One thing a pass does to the conditions. */
  datatype Write =
    | Put(kind: Kind, status: bool, reason: Reason, message: Message)
    | Drop(kind: Kind)

  function Perform(cs: seq<Condition>, w: Write, generation: nat, now: nat): seq<Condition> {
    match w
    case Put(kind, status, reason, message) =>
      SetCondition(cs, Condition(kind, status, reason, message, generation, 0), now)
    case Drop(kind) => RemoveCondition(cs, kind)
  }

  function PerformAll(cs: seq<Condition>, ws: seq<Write>, generation: nat, now: nat): seq<Condition> {
    if ws == [] then cs
    else Perform(PerformAll(cs, ws[..|ws| - 1], generation, now), ws[|ws| - 1], generation, now)
  }

  /** Whether a write has nothing left to do. */
  predicate Settled(cs: seq<Condition>, w: Write, generation: nat) {
    match w
    case Put(kind, status, reason, message) =>
      var found := Lookup(cs, kind);
      found.Some? && found.value == Condition(kind, status, reason, message, generation, found.value.since)
    case Drop(kind) => Lookup(cs, kind).None?
  }

  lemma {:induction false} SettledIsNoOp(cs: seq<Condition>, w: Write, generation: nat, now: nat)
    requires Settled(cs, w, generation)
    ensures Perform(cs, w, generation, now) == cs
  {
    if cs != [] {
      if cs[0].kind != w.kind {
        SettledIsNoOp(cs[1..], w, generation, now);
      }
      assert cs == [cs[0]] + cs[1..];
    }
  }

  lemma PerformSettles(cs: seq<Condition>, w: Write, generation: nat, now: nat, kind: Kind)
    ensures Settled(Perform(cs, w, generation, now), w, generation)
    ensures kind != w.kind ==> Lookup(Perform(cs, w, generation, now), kind) == Lookup(cs, kind)
  {
    match w {
      case Put(k, status, reason, message) =>
        LookupAfterSet(cs, Condition(k, status, reason, message, generation, 0), now, k);
        LookupAfterSet(cs, Condition(k, status, reason, message, generation, 0), now, kind);
      case Drop(k) =>
        LookupAfterRemove(cs, k, k);
        LookupAfterRemove(cs, k, kind);
    }
  }

  /** No condition is given two different contents. */
  predicate Consistent(ws: seq<Write>) {
    forall i, j :: 0 <= i < j < |ws| && ws[i].kind == ws[j].kind ==> ws[i] == ws[j]
  }

  lemma {:induction false} AllSettled(cs: seq<Condition>, ws: seq<Write>, generation: nat, now: nat)
    requires Consistent(ws)
    ensures forall i :: 0 <= i < |ws| ==> Settled(PerformAll(cs, ws, generation, now), ws[i], generation)
    decreases |ws|
  {
    if ws != [] {
      var most, last := ws[..|ws| - 1], ws[|ws| - 1];
      AllSettled(cs, most, generation, now);
      var before := PerformAll(cs, most, generation, now);
      forall i | 0 <= i < |ws| ensures Settled(PerformAll(cs, ws, generation, now), ws[i], generation) {
        PerformSettles(before, last, generation, now, ws[i].kind);
        if i < |ws| - 1 { assert most[i] == ws[i]; }
      }
    }
  }

  lemma {:induction false} AllNoOps(cs: seq<Condition>, ws: seq<Write>, generation: nat, now: nat)
    requires forall i :: 0 <= i < |ws| ==> Settled(cs, ws[i], generation)
    ensures PerformAll(cs, ws, generation, now) == cs
    decreases |ws|
  {
    if ws != [] {
      AllNoOps(cs, ws[..|ws| - 1], generation, now);
      SettledIsNoOp(cs, ws[|ws| - 1], generation, now);
    }
  }

  /** Repeating consistent writes, at whatever time, changes nothing: not the
      conditions, not their order, not their transition times. */
  lemma PerformAllTwice(cs: seq<Condition>, ws: seq<Write>, generation: nat, now: nat, later: nat)
    requires Consistent(ws)
    ensures var once := PerformAll(cs, ws, generation, now);
            PerformAll(once, ws, generation, later) == once
  {
    AllSettled(cs, ws, generation, now);
    AllNoOps(PerformAll(cs, ws, generation, now), ws, generation, later);
  }

  /** What a condition is after consistent writes. */
  lemma {:induction false} LookupAfterAll(cs: seq<Condition>, ws: seq<Write>, generation: nat, now: nat, kind: Kind)
    requires Consistent(ws)
    ensures (forall w :: w in ws ==> w.kind != kind) ==>
              Lookup(PerformAll(cs, ws, generation, now), kind) == Lookup(cs, kind)
    ensures forall w :: w in ws && w.kind == kind ==>
              match w
              case Drop(_) => Lookup(PerformAll(cs, ws, generation, now), kind) == None
              case Put(_, status, reason, message) =>
                var was := Lookup(cs, kind);
                var since := if was.Some? && was.value.status == status then was.value.since else now;
                Lookup(PerformAll(cs, ws, generation, now), kind)
                == Some(Condition(kind, status, reason, message, generation, since))
    decreases |ws|
  {
    if ws != [] {
      var most, last := ws[..|ws| - 1], ws[|ws| - 1];
      assert ws == most + [last];
      LookupAfterAll(cs, most, generation, now, kind);
      var before := PerformAll(cs, most, generation, now);
      PerformSettles(before, last, generation, now, kind);
      if last.kind == kind {
        forall w | w in most && w.kind == kind ensures w == last {
          var i :| 0 <= i < |most| && most[i] == w;
          assert ws[i] == w && ws[|ws| - 1] == last;
        }
        if last.Put? {
          LookupAfterSet(before, Condition(kind, last.status, last.reason, last.message, generation, 0), now, kind);
        }
      }
    }
  }

  /** The order in which an imperative pass reaches the same conditions. */
  lemma PerformOneMore(cs: seq<Condition>, ws: seq<Write>, w: Write, generation: nat, now: nat)
    ensures PerformAll(cs, ws + [w], generation, now)
            == Perform(PerformAll(cs, ws, generation, now), w, generation, now)
  {
    assert (ws + [w])[..|ws|] == ws;
  }
}
