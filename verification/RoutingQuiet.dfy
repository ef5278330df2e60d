/** When looking at a BGPRouting again writes nothing. */
module RoutingQuiet {
  import opened Options
  import opened Conditions
  import opened RoutingController
  import opened RoutingSafety

  lemma WritesConsistent(exit: Exit, network: string)
    ensures Consistent(WritesOf(exit, network))
  {}

  /** Answers with which nothing fails that the pass needs in order to end, whatever
      the cluster makes of the network. */
  predicate Served(ans: Answers) {
    ans.readOk && ans.finalizerWrite.Done? && ans.listOk && ans.statusWrite.Done?
  }

  /** The same answers to a second pass: another listing, a later time. */
  function Again(ans: Answers, list: seq<string>, later: nat): Answers {
    ans.(list := list, now := later)
  }

  /** The second pass writes nothing and takes its request off the queue. */
  predicate Quiet(w: World, a: string, ans: Answers, list: seq<string>, later: nat) {
    var once := Pass(w, a, ans);
    Pass(once, a, Again(ans, list, later)) == once.(queue := once.queue - {a})
  }

  /** A pass with nothing left to do, stage by stage. */
  lemma QuietPass(w: World, a: string, exit: Exit, ans: Answers)
    requires a in w.routings && !w.routings[a].deleting && w.routings[a].finalizer && ans.readOk
    requires ExitOf(w, a, ans) == exit && exit != Failed
    requires StatusAfter(exit, w.routings[a], ans.now) == w.routings[a].status
    requires UdnTook(exit, ans) ==>
               At(w.udns, UdnKey(w.routings[a].network)) == Some(EnsuredUdn(w.udns, w.routings[a]))
    requires AdvertisementsTook(exit, ans) ==> w.advertised
    requires !Terminal(exit) ==> a in w.timers
    ensures LivePass(w, a, ans) == w
  {
    hide StatusAfter, ExitOf, EnsuredUdn;
    assert Claimed(w, a, ans) == w;
    assert Written(w, a, exit, ans) == w;
    assert w.timers + {a} == w.timers || Terminal(exit);
    assert Stored(w, a, exit, ans) == Scheduled(w, a, exit);
  }

  lemma FinalizerKept(w: World, a: string, ans: Answers)
    requires a in w.routings && Served(ans)
    ensures var next, exit := LivePass(w, a, ans), ExitOf(w, a, ans);
            a in next.routings && next.routings[a].finalizer && (!Terminal(exit) ==> a in next.timers)
  {
    var exit, claimed := ExitOf(w, a, ans), Claimed(w, a, ans);
    ClaimedFacts(w, a, ans);
    WrittenFacts(claimed, a, exit, ans);
    StoredFacts(Written(claimed, a, exit, ans), a, exit, ans);
  }

  lemma StatusSettles(exit: Exit, r: Routing, s: Routing, now: nat, later: nat)
    requires s.status == StatusAfter(exit, r, now) && s.generation == r.generation && s.network == r.network
    ensures StatusAfter(exit, s, later) == s.status
  {
    WritesConsistent(exit, r.network);
    PerformAllTwice(r.status.conditions, WritesOf(exit, r.network), r.generation, now, later);
  }

  lemma NetworkSettles(w: World, a: string, ans: Answers)
    requires a in w.routings && Served(ans)
    ensures var next, exit := LivePass(w, a, ans), ExitOf(w, a, ans);
            && a in next.routings
            && (UdnTook(exit, ans) ==>
                  At(next.udns, UdnKey(next.routings[a].network)) == Some(EnsuredUdn(next.udns, next.routings[a])))
  {
    var exit, claimed := ExitOf(w, a, ans), Claimed(w, a, ans);
    ClaimedFacts(w, a, ans);
    var written := Written(claimed, a, exit, ans);
    StoredFacts(written, a, exit, ans);
    EnsuredIsGood(claimed, a);
  }

  lemma {:induction false} FirstOtherSame(list: seq<string>, before: map<string, Routing>, after: map<string, Routing>,
                                          a: string, network: string)
    requires before.Keys == after.Keys && forall b :: b in before && b != a ==> before[b] == after[b]
    ensures FirstOther(list, before, a, network) == FirstOther(list, after, a, network)
  {
    if list != [] { FirstOtherSame(list[1..], before, after, a, network); }
  }

  /** The exit of the second pass is the first one's, read off the second listing. */
  lemma SecondExit(w: World, next: World, a: string, ans: Answers, list: seq<string>, later: nat)
    requires a in w.routings && OnlyAbout(w, next, a) && Served(ans)
    ensures ExitOf(next, a, Again(ans, list, later)) ==
            var other := FirstOther(list, w.routings, a, w.routings[a].network);
            if other.Some? then Duplicate(other.value) else NetworkExit(ans)
  {
    FirstOtherSame(list, w.routings, next.routings, a, w.routings[a].network);
  }

  lemma QuietOnSameExit(w: World, a: string, ans: Answers, list: seq<string>, later: nat)
    requires a in w.routings && !w.routings[a].deleting && Served(ans)
    requires FirstOther(list, w.routings, a, w.routings[a].network)
             == FirstOther(ans.list, w.routings, a, w.routings[a].network)
    ensures Quiet(w, a, ans, list, later)
  {
    var w0 := w.(queue := w.queue - {a});
    var exit := ExitOf(w0, a, ans);
    var once, again := LivePass(w0, a, ans), Again(ans, list, later);
    var once0 := once.(queue := once.queue - {a});
    LivePassFacts(w0, a, ans);
    FinalizerKept(w0, a, ans);
    NetworkSettles(w0, a, ans);
    StatusSettles(exit, w.routings[a], once.routings[a], ans.now, later);
    SecondExit(w0, once, a, ans, list, later);
    assert ExitOf(once0, a, again) == ExitOf(once, a, again);
    hide LivePass, StatusAfter, EnsuredUdn, OnlyAbout;
    QuietPass(once0, a, exit, again);
  }

  /** A different duplicate is a different status. */
  lemma OtherNameWrites(w: World, a: string, ans: Answers, list: seq<string>, later: nat)
    requires a in w.routings && !w.routings[a].deleting && Served(ans)
    requires var first := FirstOther(ans.list, w.routings, a, w.routings[a].network);
             var second := FirstOther(list, w.routings, a, w.routings[a].network);
             first.Some? && second.Some? && first != second
    ensures var once := Pass(w, a, ans);
            var twice := Pass(once, a, Again(ans, list, later));
            a in once.routings && a in twice.routings && once.routings[a].status != twice.routings[a].status
            && a in twice.queue
  {
    var w0 := w.(queue := w.queue - {a});
    var exit, again := ExitOf(w0, a, ans), Again(ans, list, later);
    var once := LivePass(w0, a, ans);
    var once0 := once.(queue := once.queue - {a});
    LivePassFacts(w0, a, ans);
    FinalizerKept(w0, a, ans);
    SecondExit(w0, once, a, ans, list, later);
    assert ExitOf(once0, a, again) == ExitOf(once, a, again);
    var second := ExitOf(once0, a, again);
    LivePassFacts(once0, a, again);
    DuplicateMessage(w.routings[a], exit, ans.now);
    DuplicateMessage(once.routings[a], second, later);
    if a !in LivePass(once0, a, again).queue { UnqueuedFacts(once0, a, again); }
  }

  lemma DuplicateMessage(r: Routing, exit: Exit, now: nat)
    requires exit.Duplicate?
    ensures var c := Lookup(StatusAfter(exit, r, now).conditions, NetworkCreated);
            c.Some? && c.value.message == SaysDuplicate(r.network, exit.other)
  {
    var ws := WritesOf(exit, r.network);
    LookupAfterAll(r.status.conditions, ws, r.generation, now, NetworkCreated);
    assert ws[0] in ws;
  }

  /** A second pass with the same answers, at any later time and with the routings
      listed in any order, writes nothing exactly when it reports the same other
      routing, if any. */
  lemma SecondPassQuiet(w: World, a: string, ans: Answers, list: seq<string>, later: nat)
    requires a in w.routings && !w.routings[a].deleting && Served(ans)
    requires Lists(ans.list, w.routings) && Lists(list, w.routings)
    ensures Quiet(w, a, ans, list, later) <==>
            FirstOther(list, w.routings, a, w.routings[a].network)
            == FirstOther(ans.list, w.routings, a, w.routings[a].network)
  {
    var first := FirstOther(ans.list, w.routings, a, w.routings[a].network);
    var second := FirstOther(list, w.routings, a, w.routings[a].network);
    DuplicateIffShared(w, a, ans);
    DuplicateIffShared(w, a, Again(ans, list, later));
    if first == second {
      QuietOnSameExit(w, a, ans, list, later);
    } else {
      OtherNameWrites(w, a, ans, list, later);
    }
  }

  // -------------------------------------------------------------- for every order

  /** The other routings on a's network name. */
  function Sharers(routings: map<string, Routing>, a: string): set<string>
    requires a in routings
  {
    set b | b in routings && b != a && routings[b].network == routings[a].network
  }

  lemma FirstOtherShares(list: seq<string>, routings: map<string, Routing>, a: string)
    requires a in routings && Lists(list, routings)
    ensures var f := FirstOther(list, routings, a, routings[a].network);
            if Sharers(routings, a) == {} then f == None else f.Some? && f.value in Sharers(routings, a)
  {
    FirstOtherFinds(list, routings, a, routings[a].network);
    var f := FirstOther(list, routings, a, routings[a].network);
    assert f.Some? ==> f.value in Sharers(routings, a);
    assert f.None? ==> forall b :: b in routings ==> b !in Sharers(routings, a);
  }

  /** A listing that begins with a given routing. */
  lemma ListingFrom(routings: map<string, Routing>, b: string) returns (list: seq<string>)
    requires b in routings
    ensures Lists(list, routings) && list != [] && list[0] == b
  {
    var left := routings.Keys - {b};
    list := [b];
    while left != {}
      invariant left <= routings.Keys && b !in left && list != [] && list[0] == b
      invariant forall i, j :: 0 <= i < j < |list| ==> list[i] != list[j]
      invariant forall x :: x in list <==> x in routings && x !in left
    {
      var x :| x in left;
      list := list + [x];
      left := left - {x};
    }
  }

  lemma AtMostOne<T>(s: set<T>, x: T, y: T)
    requires x in s && y in s && |s| <= 1
    ensures x == y
  {
    if x != y {
      assert {x, y} <= s;
      SubsetSize({x, y}, s);
    }
  }

  lemma {:induction false} SubsetSize<T>(a: set<T>, b: set<T>)
    requires a <= b
    ensures |a| <= |b|
  {
    if a != {} {
      var x :| x in a;
      SubsetSize(a - {x}, b - {x});
    }
  }

  ghost predicate QuietInAnyOrder(w: World, a: string, ans: Answers, later: nat) {
    forall l, m :: Lists(l, w.routings) && Lists(m, w.routings) ==> Quiet(w, a, ans.(list := l), m, later)
  }

  /** Looking again is quiet whatever orders the two passes get, exactly when at
      most one other routing has the name. With two, two orders name different
      ones, each pass finds its status outdated by the other's, and a status
      write queues its own routing: the writes need not end. */
  lemma QuietExactly(w: World, a: string, ans: Answers, later: nat)
    requires a in w.routings && !w.routings[a].deleting && Served(ans)
    ensures QuietInAnyOrder(w, a, ans, later) <==> |Sharers(w.routings, a)| <= 1
  {
    var others := Sharers(w.routings, a);
    if |others| <= 1 {
      forall l, m | Lists(l, w.routings) && Lists(m, w.routings) ensures Quiet(w, a, ans.(list := l), m, later) {
        FirstOtherShares(l, w.routings, a);
        FirstOtherShares(m, w.routings, a);
        var f := FirstOther(l, w.routings, a, w.routings[a].network);
        var s := FirstOther(m, w.routings, a, w.routings[a].network);
        if others != {} { AtMostOne(others, f.value, s.value); }
        SecondPassQuiet(w, a, ans.(list := l), m, later);
      }
    } else {
      var b :| b in others;
      TwoInIt(others, b);
      var c :| c in others && c != b;
      var l := ListingFrom(w.routings, b);
      var m := ListingFrom(w.routings, c);
      SecondPassQuiet(w, a, ans.(list := l), m, later);
    }
  }

  lemma TwoInIt<T>(s: set<T>, x: T)
    requires x in s && |s| > 1
    ensures exists y :: y in s && y != x
  {
    assert |s - {x}| == |s| - 1;
    var y :| y in s - {x};
  }
}
