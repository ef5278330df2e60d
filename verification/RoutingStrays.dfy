/** Managed networks that belong to no BGPRouting. */
module RoutingStrays {
  import opened Options
  import opened Conditions
  import opened Labels
  import opened RoutingController
  import opened RoutingSafety
  import opened RoutingQuiet

  predicate Managed(u: Udn) {
    Value(u.labels, LABEL_MANAGED_BY) == LABEL_MANAGED_BY_VALUE
  }

  /** A routing that would take the network with it when it goes. */
  predicate Claims(r: Routing, key: string) {
    r.finalizer && UdnKey(r.network) == key
  }

  predicate Claimed(routings: map<string, Routing>, key: string) {
    exists a :: a in routings && Claims(routings[a], key)
  }

  predicate Stray(w: World, key: string) {
    key in w.udns && Managed(w.udns[key]) && !Claimed(w.routings, key)
  }

  predicate NoStrays(w: World) {
    forall key :: key in w.udns ==> !Stray(w, key)
  }

  /** The events that leave a managed network to nobody: a rename, where no other
      routing has the old name, and others making one. */
  predicate Strands(w: World, e: Event) {
    match e
    case UserEdits(a, network, _) =>
      a in w.routings && network != w.routings[a].network
      && var key := UdnKey(w.routings[a].network);
         key in w.udns && Managed(w.udns[key])
         && forall b :: b in w.routings && b != a ==> !Claims(w.routings[b], key)
    case UdnChanges(key, next, _) => next.Some? && Managed(next.value) && !Claimed(w.routings, key)
    case Restarts(udns) => exists key :: key in udns && Managed(udns[key]) && !Claimed(w.routings, key)
    case _ => false
  }

  /** What a pass over a live routing does to networks and finalizers. */
  lemma LivePassNetworks(w: World, a: string, ans: Answers)
    requires a in w.routings
    ensures var next, key := LivePass(w, a, ans), UdnKey(w.routings[a].network);
            && OnlyAbout(w, next, a)
            && (w.routings[a].finalizer ==> next.routings[a].finalizer)
            && (At(next.udns, key) == At(w.udns, key) || next.routings[a].finalizer)
  {
    var exit, claimed := ExitOf(w, a, ans), RoutingController.Claimed(w, a, ans);
    LivePassFacts(w, a, ans);
    ClaimedFacts(w, a, ans);
    if exit != Failed {
      WrittenFacts(claimed, a, exit, ans);
      StoredFacts(Written(claimed, a, exit, ans), a, exit, ans);
    }
  }

  /** The network of a deleted routing goes before its finalizer. */
  lemma DeletePassNetworks(w: World, a: string, ans: Answers)
    requires a in w.routings
    ensures var next, key := DeletePass(w, a, ans), UdnKey(w.routings[a].network);
            && (forall k :: k in next.udns ==> At(w.udns, k) == At(next.udns, k))
            && (next.routings == w.routings || (next.routings == w.routings - {a} && key !in next.udns))
  {}

  lemma ClaimsKept(w: World, next: World, key: string)
    requires NoStrays(w) && key in next.udns && At(next.udns, key) == At(w.udns, key)
    requires forall b :: b in w.routings && w.routings[b].finalizer ==>
               b in next.routings && next.routings[b].finalizer && next.routings[b].network == w.routings[b].network
    ensures !Stray(next, key)
  {
    assert !Stray(w, key);
    if b :| b in w.routings && Claims(w.routings[b], key) { assert Claims(next.routings[b], key); }
  }

  lemma EditStrands(w: World, a: string, network: string, subnets: seq<string>)
    requires NoStrays(w)
    ensures NoStrays(Next(w, UserEdits(a, network, subnets))) <==> !Strands(w, UserEdits(a, network, subnets))
  {
    var e, next := UserEdits(a, network, subnets), Next(w, UserEdits(a, network, subnets));
    if a in w.routings {
      var was := UdnKey(w.routings[a].network);
      NetworkOfKey(w.routings[a].network);
      NetworkOfKey(network);
      forall key | key in next.udns && !(key == was && Strands(w, e)) ensures !Stray(next, key) {
        assert !Stray(w, key);
        if b :| b in w.routings && Claims(w.routings[b], key)
                && (key == was && network != w.routings[a].network ==> b != a)
        {
          assert Claims(next.routings[b], key);
        }
      }
      assert Strands(w, e) ==> Stray(next, was);
    }
  }

  lemma PassMakesNone(w: World, a: string, ans: Answers)
    requires NoStrays(w)
    ensures NoStrays(Pass(w, a, ans))
  {
    var w0, next := w.(queue := w.queue - {a}), Pass(w, a, ans);
    if ans.readOk && a in w.routings {
      if w.routings[a].deleting {
        DeletePassNetworks(w0, a, ans);
      } else {
        LivePassNetworks(w0, a, ans);
      }
      hide Pass, LivePass, DeletePass, Managed;
      forall key | key in next.udns && At(next.udns, key) == At(w.udns, key) ensures !Stray(next, key) {
        assert !Stray(w, key);
        if b :| b in w.routings && Claims(w.routings[b], key) {
          assert b in next.routings ==> Claims(next.routings[b], key);
        }
      }
      if a in next.routings && next.routings[a].finalizer {
        assert Claims(next.routings[a], UdnKey(w.routings[a].network));
      }
    }
  }

  /** From a state without strays, an event makes one if and only if it strands one. */
  lemma StraysExactly(w: World, e: Event)
    requires NoStrays(w) && Enabled(w, e)
    ensures NoStrays(Next(w, e)) <==> !Strands(w, e)
  {
    var next := Next(w, e);
    match e {
      case Reconciled(a, ans) => PassMakesNone(w, a, ans);
      case UserCreates(a, network, subnets) =>
        forall key | key in next.udns ensures !Stray(next, key) { ClaimsKept(w, next, key); }
      case UserEdits(a, network, subnets) => EditStrands(w, a, network, subnets);
      case UserDeletes(a, bump) =>
        forall key | key in next.udns ensures !Stray(next, key) { ClaimsKept(w, next, key); }
      case UdnChanges(key, udn, _) =>
        forall k | k in next.udns && k != key ensures !Stray(next, k) { assert !Stray(w, k); }
        assert Stray(next, key) <==> Strands(w, e);
      case TimerFires(_) =>
        forall key | key in next.udns ensures !Stray(next, key) { assert !Stray(w, key); }
      case Restarts(udns) =>
        assert forall key :: Stray(next, key) <==> key in udns && Managed(udns[key]) && !Claimed(w.routings, key);
    }
  }

  ghost predicate AllClean(states: seq<World>) {
    forall i :: 0 <= i < |states| ==> NoStrays(states[i])
  }

  ghost predicate NoneStrands(events: seq<Event>, states: seq<World>)
    requires |states| == |events| + 1
  {
    forall i :: 0 <= i < |events| ==> !Strands(states[i], events[i])
  }

  lemma OneMoreClean(states: seq<World>, n: nat)
    requires |states| == n + 1
    ensures AllClean(states) <==> AllClean(states[..n]) && NoStrays(states[n])
  {
    hide NoStrays;
    assert states == states[..n] + [states[n]];
    assert forall i :: 0 <= i < n ==> states[..n][i] == states[i];
  }

  lemma OneMoreEvent(events: seq<Event>, states: seq<World>, n: nat)
    requires |events| == n + 1 && |states| == n + 2
    ensures NoneStrands(events, states) <==>
            NoneStrands(events[..n], states[..n + 1]) && !Strands(states[n], events[n])
  {
    hide Strands;
    assert forall i :: 0 <= i < n ==> events[..n][i] == events[i] && states[..n + 1][i] == states[i];
  }

  /** Over a run that starts without strays: in every state, the queue drained or not,
      every managed network belongs to a routing of that name, if and only if no
      event strands one. */
  lemma {:induction false} NoStraysExactly(events: seq<Event>, states: seq<World>)
    requires IsRun(events, states) && NoStrays(states[0])
    ensures AllClean(states) <==> NoneStrands(events, states)
    decreases |events|
  {
    if events != [] {
      var n := |events| - 1;
      NoStraysExactly(events[..n], states[..n + 1]);
      OneMoreClean(states, n + 1);
      OneMoreClean(states[..n + 1], n);
      OneMoreEvent(events, states, n);
      assert Enabled(states[n], events[n]) && states[n + 1] == Next(states[n], events[n]);
      if NoStrays(states[n]) { StraysExactly(states[n], events[n]); }
      hide NoStrays, Strands, IsRun, AllClean, NoneStrands;
      assert states[..n + 1][n] == states[n];
    } else {
      assert |states| == 1;
    }
  }

  // ------------------------------------------------------------- strays are for good

  predicate NoneNamed(routings: map<string, Routing>, key: string) {
    forall a :: a in routings ==> UdnKey(routings[a].network) != key
  }

  predicate ByOthers(e: Event, key: string) {
    e.Restarts? || (e.UdnChanges? && e.key == key)
  }

  lemma StrayStays(w: World, e: Event, key: string)
    requires NoneNamed(w.routings, key) && !ByOthers(e, key)
    ensures At(Next(w, e).udns, key) == At(w.udns, key)
  {
    if e.Reconciled? && e.ans.readOk && e.a in w.routings {
      var w0 := w.(queue := w.queue - {e.a});
      if !w.routings[e.a].deleting { LivePassNetworks(w0, e.a, e.ans); }
    }
  }

  /** No pass ever looks at a stray again: until others act on it or a routing takes
      its name, it stays as it is. */
  lemma {:induction false} StraysAreForGood(events: seq<Event>, states: seq<World>, key: string)
    requires |states| == |events| + 1
    requires forall i :: 0 <= i < |events| ==> states[i + 1] == Next(states[i], events[i])
    requires forall i :: 0 <= i < |events| ==> NoneNamed(states[i].routings, key) && !ByOthers(events[i], key)
    ensures At(states[|events|].udns, key) == At(states[0].udns, key)
    decreases |events|
  {
    if events != [] {
      var n := |events| - 1;
      StraysAreForGood(events[..n], states[..n + 1], key);
      StrayStays(states[n], events[n], key);
    }
  }

  // -------------------------------------------------------------------------- a rename

  /** Everything in place, and nothing fails. */
  predicate Smooth(ans: Answers, a: string) {
    && Served(ans) && ans.list == [a] && ans.watchList == [a] && ans.config == Some(Ready)
    && ans.namespaceError.None? && ans.udn.EnsureOk? && ans.advertisements.EnsureOk?
  }

  /** A world of one live routing. */
  predicate Only(w: World, a: string) {
    w.routings.Keys == {a} && !w.routings[a].deleting && w.queue == {a}
  }

  /** A pass over a spec not seen yet. */
  lemma FirstPass(w: World, a: string, ans: Answers)
    requires Only(w, a) && Smooth(ans, a) && w.routings[a].status.observed != w.routings[a].generation
    ensures var next := Pass(w, a, ans);
            && Only(next, a)
            && next.routings[a].network == w.routings[a].network
            && next.routings[a].status.observed == next.routings[a].generation
            && UdnGood(next.udns, next.routings[a])
            && (forall key :: key != UdnKey(w.routings[a].network) ==> At(next.udns, key) == At(w.udns, key))
  {
    var w0 := w.(queue := w.queue - {a});
    var exit := ExitOf(w0, a, ans);
    FirstOtherFinds(ans.list, w.routings, a, w.routings[a].network);
    assert exit == Complete;
    LivePassFacts(w0, a, ans);
    LivePassQueue(w0, a, ans);
    StatusFacts(exit, w.routings[a], ans.now);
    if a !in LivePass(w0, a, ans).queue { UnqueuedFacts(w0, a, ans); }
    hide LivePass, StatusAfter, ExitOf, UdnGood;
    assert Pass(w, a, ans) == LivePass(w0, a, ans);
  }

  lemma WrittenQueue(w: World, a: string, exit: Exit, ans: Answers)
    requires w.routings.Keys == {a} && w.queue <= {a}
    ensures Written(w, a, exit, ans).queue <= {a}
  {
    var key, next := UdnKey(w.routings[a].network), EnsuredUdn(w.udns, w.routings[a]);
    FirstOnFinds(ans.watchList, w.routings, NetworkOf(key));
    assert MapUdn(key, At(w.udns, key), ans.watchList, w.routings) <= {a};
    assert MapUdn(key, Some(next), ans.watchList, w.routings) <= {a};
    hide MapUdn, EnsuredUdn, UdnTook;
  }

  lemma LivePassQueue(w: World, a: string, ans: Answers)
    requires w.routings.Keys == {a} && w.queue <= {a}
    ensures LivePass(w, a, ans).queue <= {a}
  {
    var exit, claimed := ExitOf(w, a, ans), RoutingController.Claimed(w, a, ans);
    ClaimedFacts(w, a, ans);
    if exit != Failed {
      WrittenQueue(claimed, a, exit, ans);
      WrittenFacts(claimed, a, exit, ans);
    }
    hide StatusAfter, ExitOf, Terminal, Written;
  }

  lemma EnabledAlone(w: World, a: string, ans: Answers)
    requires Only(w, a) && Smooth(ans, a)
    ensures Enabled(w, Reconciled(a, ans))
  {}

  /** With the pass after it, which has nothing to do. */
  lemma TwoPasses(w: World, a: string, ans: Answers) returns (once: World, twice: World)
    requires Only(w, a) && Smooth(ans, a) && w.routings[a].status.observed != w.routings[a].generation
    ensures Enabled(w, Reconciled(a, ans)) && once == Next(w, Reconciled(a, ans))
    ensures Enabled(once, Reconciled(a, ans)) && twice == Next(once, Reconciled(a, ans))
    ensures twice.queue == {} && Only(twice.(queue := {a}), a)
    ensures twice.routings[a].network == w.routings[a].network
    ensures twice.routings[a].status.observed == twice.routings[a].generation
    ensures UdnGood(twice.udns, twice.routings[a])
    ensures forall key :: key != UdnKey(w.routings[a].network) ==> At(twice.udns, key) == At(w.udns, key)
  {
    once, twice := Pass(w, a, ans), Pass(w, a, ans).(queue := {});
    FirstPass(w, a, ans);
    QuietOnSameExit(w, a, ans, ans.list, ans.now);
    assert Again(ans, ans.list, ans.now) == ans;
    EnabledAlone(w, a, ans);
    EnabledAlone(once, a, ans);
    hide Pass, UdnGood, FirstOther, At, Enabled, Smooth;
    assert once.queue - {a} == {};
  }

  lemma JustMade(w: World, a: string, n: string, subnets: seq<string>)
    requires w == World(map[], map[], false, {}, {})
    ensures var e := UserCreates(a, n, subnets);
            && Enabled(w, e) && Only(Next(w, e), a)
            && var r := Next(w, e).routings[a]; r.network == n && r.status.observed != r.generation
  {}

  lemma JustRenamed(w: World, a: string, m: string, subnets: seq<string>)
    requires Only(w.(queue := {a}), a) && w.queue == {} && w.routings[a].network != m
    requires w.routings[a].status.observed == w.routings[a].generation
    ensures var e := UserEdits(a, m, subnets);
            && Enabled(w, e) && Only(Next(w, e), a) && Next(w, e).udns == w.udns
            && var r := Next(w, e).routings[a]; r.network == m && r.status.observed != r.generation
  {
    assert Next(w, UserEdits(a, m, subnets)).queue == {a};
  }

  lemma StillThere(before: World, after: World, a: string, n: string, m: string)
    requires a in before.routings && before.routings[a].network == n && UdnGood(before.udns, before.routings[a])
    requires after.routings.Keys == {a} && after.routings[a].network == m && n != m
    requires At(after.udns, UdnKey(n)) == At(before.udns, UdnKey(n))
    ensures Stray(after, UdnKey(n))
  {
    NetworkOfKey(n);
    NetworkOfKey(m);
    assert LABEL_MANAGED_BY in UdnLabels();
  }

  /** A run in which a routing is made, served, renamed and served again, nobody else
      acts, and nothing fails: the queue is drained, and the network of the old name
      is still there, managed, and nobody's. */
  lemma RenameStrands(a: string, n: string, m: string, subnets: seq<string>, ans: Answers)
    returns (events: seq<Event>, states: seq<World>)
    requires n != m && Smooth(ans, a)
    ensures IsRun(events, states) && states[0].udns == map[] && |events| == 6
    ensures forall i :: 0 <= i < |events| ==> !ByOthers(events[i], UdnKey(n))
    ensures states[6].queue == {} && Stray(states[6], UdnKey(n))
  {
    NetworkOfKey(n);
    NetworkOfKey(m);
    hide Next, Enabled, Smooth, Stray, UdnGood;
    var pass, make, rename := Reconciled(a, ans), UserCreates(a, n, subnets), UserEdits(a, m, subnets);
    var w0 := World(map[], map[], false, {}, {});
    var w1 := Next(w0, make);
    JustMade(w0, a, n, subnets);
    var w2, w3 := TwoPasses(w1, a, ans);
    var w4 := Next(w3, rename);
    JustRenamed(w3, a, m, subnets);
    var w5, w6 := TwoPasses(w4, a, ans);
    StillThere(w3, w6, a, n, m);
    events := [make, pass, pass, rename, pass, pass];
    states := [w0, w1, w2, w3, w4, w5, w6];
  }
}
