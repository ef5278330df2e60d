/** The message that names the router nodes left out, and what it gives away. */
module NodeMessages {
  import opened Text
  import opened Sorting
  import opened PlatformTypes
  import opened ConfigController

  function NodeName(n: RouterNode): string {
    n.name
  }

  /** Names as Kubernetes has them: distinct, and without spaces. */
  ghost predicate Named(nodes: seq<RouterNode>) {
    DistinctKeys(nodes, NodeName) && forall n :: n in nodes ==> ' ' !in n.name
  }

  function Parts(nodes: seq<RouterNode>): seq<string> {
    seq(|nodes|, i requires 0 <= i < |nodes| => NodePart(nodes[i]))
  }

  /** The message before it is cut. */
  function WholeMessage(nodes: seq<RouterNode>): string {
    Itoa(|nodes|) + " router node(s) incomplete: " + Join(Parts(nodes), "; ")
  }

  predicate Uncut(nodes: seq<RouterNode>) {
    |WholeMessage(nodes)| <= MAX_MESSAGE
  }

  lemma {:induction false} IncompletePermutation(a: seq<Node>, b: seq<Node>)
    requires multiset(a) == multiset(b)
    ensures multiset(IncompleteNodes(a)) == multiset(IncompleteNodes(b))
    decreases |a|
  {
    hide IncompleteNodes;
    if a == [] {
      PermutationSameElements(a, b);
    } else {
      var most, last := a[..|a| - 1], a[|a| - 1];
      var i := SameButOne(a, b);
      var left, right := b[..i], b[i + 1..];
      IncompletePermutation(most, left + right);
      IncompleteAround(left, last, right);
      IncompleteAround(most, last, []);
      assert b == left + [last] + right && a == most + [last] + [] && most + [] == most;
    }
  }

  lemma {:induction false} IncompleteConcat(a: seq<Node>, b: seq<Node>)
    ensures IncompleteNodes(a + b) == IncompleteNodes(a) + IncompleteNodes(b)
    decreases |b|
  {
    if b == [] {
      assert a + b == a;
    } else {
      hide *;
      var most, last := b[..|b| - 1], [b[|b| - 1]];
      assert b == most + last;
      IncompleteConcat(a, most);
      Regroup(a, most, last);
      OneMoreListed(a + most, last[0]);
      OneMoreListed(most, last[0]);
      Regroup(IncompleteNodes(a), IncompleteNodes(most), IncompleteNodes(last));
    }
  }

  lemma Regroup<T>(a: seq<T>, b: seq<T>, c: seq<T>)
    ensures a + (b + c) == (a + b) + c
  {
  }

  lemma OneMoreListed(nodes: seq<Node>, n: Node)
    ensures IncompleteNodes(nodes + [n]) == IncompleteNodes(nodes) + IncompleteNodes([n])
  {
    assert (nodes + [n])[..|nodes|] == nodes && [n][..0] == [];
  }

  lemma IncompleteAround(a: seq<Node>, n: Node, b: seq<Node>)
    ensures multiset(IncompleteNodes(a + [n] + b))
            == multiset(IncompleteNodes(a + b)) + multiset(IncompleteNodes([n]))
  {
    IncompleteConcat(a + [n], b);
    IncompleteConcat(a, [n]);
    IncompleteConcat(a, b);
  }

  // ------------------------------------------------------------ reading it back

  /** A name ends at the first space. */
  lemma SameFirstWord(m: string, r: string, n: string, t: string)
    requires ' ' !in m && ' ' !in n && |r| > 0 && |t| > 0 && r[0] == ' ' && t[0] == ' '
    requires m + r == n + t
    ensures m == n && r == t
  {
    var s := m + r;
    assert s[|m|] == ' ' && s[|n|] == ' ';
    assert forall k :: 0 <= k < |m| ==> s[k] == m[k];
    assert forall k :: 0 <= k < |n| ==> s[k] == n[k];
    assert s[..|m|] == m && (n + t)[..|n|] == n;
    assert s[|m|..] == r && (n + t)[|n|..] == t;
  }

  function Rest(n: RouterNode): string {
    " (missing " + Join(Missing(n), "/") + ")"
  }

  /** What follows the first name. */
  function After(nodes: seq<RouterNode>): string
    requires nodes != []
  {
    Rest(nodes[0]) + if |nodes| == 1 then "" else "; " + Join(Parts(nodes[1..]), "; ")
  }

  lemma FirstNameFirst(nodes: seq<RouterNode>)
    requires nodes != []
    ensures Join(Parts(nodes), "; ") == nodes[0].name + After(nodes) && After(nodes)[0] == ' '
  {
    assert NodePart(nodes[0]) == nodes[0].name + Rest(nodes[0]);
    assert Parts(nodes)[0] == NodePart(nodes[0]) && Parts(nodes)[1..] == Parts(nodes[1..]);
  }

  /** Equal lists of parts begin with one node and go on alike. */
  lemma SameFirst(a: seq<RouterNode>, b: seq<RouterNode>)
    requires multiset(a) == multiset(b) && Named(a) && a != []
    requires Join(Parts(a), "; ") == Join(Parts(b), "; ")
    ensures b != [] && a[0] == b[0]
    ensures |a| > 1 ==> |b| > 1 && Join(Parts(a[1..]), "; ") == Join(Parts(b[1..]), "; ")
  {
    PermutationSameElements(a, b);
    FirstNameFirst(a);
    FirstNameFirst(b);
    assert a[0] in a && b[0] in a;
    SameFirstWord(a[0].name, After(a), b[0].name, After(b));
    SameName(a, b[0]);
    if |a| > 1 { TailOfAfter(a); TailOfAfter(b); }
  }

  lemma SameName(a: seq<RouterNode>, n: RouterNode)
    requires Named(a) && n in a && n.name == a[0].name
    ensures n == a[0]
  {
    var i :| 0 <= i < |a| && a[i] == n;
    assert i > 0 ==> NodeName(a[0]) != NodeName(a[i]);
  }

  lemma TailOfAfter(a: seq<RouterNode>)
    requires |a| > 1
    ensures |After(a)| >= |Rest(a[0])| + 2
    ensures After(a)[|Rest(a[0])| + 2..] == Join(Parts(a[1..]), "; ")
  {
    hide Join, Parts, Rest;
  }

  lemma NamedTail(a: seq<RouterNode>)
    requires Named(a) && a != []
    ensures Named(a[1..])
  {
    var rest := a[1..];
    forall i, j | 0 <= i < j < |rest| ensures NodeName(rest[i]) != NodeName(rest[j]) {
      assert rest[i] == a[i + 1] && rest[j] == a[j + 1];
    }
    assert forall n :: n in a[1..] ==> n in a;
  }

  lemma {:induction false} JoinShowsOrder(a: seq<RouterNode>, b: seq<RouterNode>)
    requires multiset(a) == multiset(b) && Named(a)
    requires Join(Parts(a), "; ") == Join(Parts(b), "; ")
    ensures a == b
    decreases |a|
  {
    hide Join, Parts, Named;
    PermutationSameElements(a, b);
    if a != [] {
      SameFirst(a, b);
      TailMultiset(a);
      TailMultiset(b);
      NamedTail(a);
      if |a| > 1 { JoinShowsOrder(a[1..], b[1..]); }
      assert a == [a[0]] + a[1..] && b == [b[0]] + b[1..];
    }
  }

  lemma {:induction false} JoinLength(a: seq<RouterNode>, b: seq<RouterNode>)
    requires multiset(a) == multiset(b)
    ensures |Join(Parts(a), "; ")| == |Join(Parts(b), "; ")|
  {
    PermutationSameElements(a, b);
    TotalLength(a);
    TotalLength(b);
    TotalPermutation(a, b);
  }

  function Total(nodes: seq<RouterNode>): nat {
    if nodes == [] then 0 else |NodePart(nodes[0])| + Total(nodes[1..])
  }

  lemma {:induction false} TotalLength(nodes: seq<RouterNode>)
    ensures |Join(Parts(nodes), "; ")| == Total(nodes) + if nodes == [] then 0 else 2 * (|nodes| - 1)
  {
    if nodes != [] {
      assert Parts(nodes)[1..] == Parts(nodes[1..]);
      TotalLength(nodes[1..]);
    }
  }

  lemma {:induction false} TotalAround(a: seq<RouterNode>, n: RouterNode, b: seq<RouterNode>)
    ensures Total(a + [n] + b) == Total(a + b) + |NodePart(n)|
  {
    if a == [] {
      assert a + [n] + b == [n] + b && ([n] + b)[1..] == b && a + b == b;
    } else {
      assert (a + [n] + b)[1..] == a[1..] + [n] + b && (a + b)[1..] == a[1..] + b;
      TotalAround(a[1..], n, b);
    }
  }

  lemma {:induction false} TotalPermutation(a: seq<RouterNode>, b: seq<RouterNode>)
    requires multiset(a) == multiset(b)
    ensures Total(a) == Total(b)
    decreases |a|
  {
    hide Total;
    if a == [] {
      PermutationSameElements(a, b);
    } else {
      var most, last := a[..|a| - 1], a[|a| - 1];
      var i := SameButOne(a, b);
      var left, right := b[..i], b[i + 1..];
      TotalPermutation(most, left + right);
      TotalAround(left, last, right);
      TotalAround(most, last, []);
      assert b == left + [last] + right && a == most + [last] + [] && most + [] == most;
    }
  }

  /** Two listings of the same nodes give one message exactly when they have one
      order. */
  lemma MessageShowsOrder(a: seq<RouterNode>, b: seq<RouterNode>)
    requires multiset(a) == multiset(b) && Named(a) && Uncut(a)
    ensures IncompleteMessage(a) == IncompleteMessage(b) <==> a == b
  {
    PermutationSameElements(a, b);
    JoinLength(a, b);
    var head := Itoa(|a|) + " router node(s) incomplete: ";
    MessageIs(a);
    MessageIs(b);
    if IncompleteMessage(a) == IncompleteMessage(b) {
      assert (head + Join(Parts(a), "; "))[|head|..] == Join(Parts(a), "; ");
      assert (head + Join(Parts(b), "; "))[|head|..] == Join(Parts(b), "; ");
      JoinShowsOrder(a, b);
    }
  }

  lemma MessageIs(nodes: seq<RouterNode>)
    ensures IncompleteMessage(nodes)
            == if Uncut(nodes) then WholeMessage(nodes) else WholeMessage(nodes)[..MAX_MESSAGE]
  {
    assert Parts(nodes) == seq(|nodes|, i requires 0 <= i < |nodes| => NodePart(nodes[i]));
  }
}
