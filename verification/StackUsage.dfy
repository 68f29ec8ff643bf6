/** Worst-case stack use of a call forest, listed in preorder with depths, as the stack report computes it. */
module StackUsage {

  datatype Call = Call(name: string, depth: nat, address: int, usage: nat)

  // The forest -----------------------------------------------------------------------------------

  /** A preorder list: it starts with a root, and each call is at most one deeper than the one before. */
  predicate Preorder(calls: seq<Call>) {
    && (calls != [] ==> calls[0].depth == 0)
    && forall i :: 0 < i < |calls| ==> calls[i].depth <= calls[i - 1].depth + 1
  }

  /** The last call at or before j that is shallower than d. */
  function Up(calls: seq<Call>, j: nat, d: nat): (p: nat)
    requires Preorder(calls) && j < |calls| && 0 < d <= calls[j].depth + 1
    ensures p <= j && calls[p].depth == d - 1
    ensures forall k :: p < k <= j ==> calls[k].depth >= d
  {
    if calls[j].depth == d - 1 then j else Up(calls, j - 1, d)
  }

  /** The chain of calls from the root down to call i. */
  function Path(calls: seq<Call>, i: nat): (p: seq<Call>)
    requires Preorder(calls) && i < |calls|
    ensures |p| == calls[i].depth + 1 && p[|p| - 1] == calls[i]
    ensures forall k :: 0 <= k < |p| ==> p[k].depth == k
  {
    if calls[i].depth == 0 then [calls[i]] else Path(calls, Up(calls, i - 1, calls[i].depth)) + [calls[i]]
  }

  /** A call that calls nothing further. */
  predicate Leaf(calls: seq<Call>, i: nat)
    requires i < |calls|
  {
    i + 1 == |calls| || calls[i + 1].depth <= calls[i].depth
  }

  function Sum(s: seq<Call>): nat {
    if s == [] then 0 else s[0].usage + Sum(s[1..])
  }

  /** How many roots stand before position i. */
  function Roots(calls: seq<Call>, i: nat): nat
    requires i <= |calls|
  {
    if i == 0 then 0 else Roots(calls, i - 1) + if calls[i - 1].depth == 0 then 1 else 0
  }

  /** The ancestors of the next call are the front of the current path. */
  lemma {:induction false} PathStep(calls: seq<Call>, i: nat)
    requires Preorder(calls) && i + 1 < |calls|
    ensures Path(calls, i + 1) == Path(calls, i)[..calls[i + 1].depth] + [calls[i + 1]]
    decreases i, 1
  {
    var d := calls[i + 1].depth;
    if d > 0 {
      UpPath(calls, i, d);
    }
  }

  lemma {:induction false} UpPath(calls: seq<Call>, j: nat, d: nat)
    requires Preorder(calls) && j < |calls| && 0 < d <= calls[j].depth + 1
    ensures Path(calls, Up(calls, j, d)) == Path(calls, j)[..d]
    decreases j, 0
  {
    hide Path;
    if calls[j].depth == d - 1 {
      assert Path(calls, j)[..d] == Path(calls, j);
    } else {
      UpPath(calls, j - 1, d);
      PathStep(calls, j - 1);
      assert Path(calls, j)[..d] == Path(calls, j - 1)[..d];
    }
  }

  // Subsequences ---------------------------------------------------------------------------------

  /** a is b with some elements left out. */
  predicate Sub(a: seq<Call>, b: seq<Call>)
    decreases |b|
  {
    a == [] || (b != [] && ((a[0] == b[0] && Sub(a[1..], b[1..])) || Sub(a, b[1..])))
  }

  lemma {:induction false} SubSum(a: seq<Call>, b: seq<Call>)
    requires Sub(a, b)
    ensures Sum(a) <= Sum(b)
    decreases |b|
  {
    if a != [] {
      if a[0] == b[0] && Sub(a[1..], b[1..]) {
        SubSum(a[1..], b[1..]);
      } else {
        SubSum(a, b[1..]);
      }
    }
  }

  lemma {:induction false} SubAppend(a: seq<Call>, b: seq<Call>, x: Call)
    requires Sub(a, b)
    ensures Sub(a + [x], b + [x]) && Sub(a, b + [x])
    decreases |b|
  {
    if b == [] {
      assert a + [x] == [x] && b + [x] == [x] && [x][1..] == [];
    } else {
      assert (b + [x])[1..] == b[1..] + [x];
      if a != [] && a[0] == b[0] && Sub(a[1..], b[1..]) {
        SubAppend(a[1..], b[1..], x);
        assert (a + [x])[1..] == a[1..] + [x];
      } else if a != [] {
        SubAppend(a, b[1..], x);
      } else {
        SubAppend([], b[1..], x);
      }
    }
  }

  lemma {:induction false} SubPrefix(a: seq<Call>, b: seq<Call>, n: nat)
    requires Sub(a, b) && n <= |a|
    ensures Sub(a[..n], b)
    decreases |b|
  {
    if n > 0 {
      if a[0] == b[0] && Sub(a[1..], b[1..]) {
        SubPrefix(a[1..], b[1..], n - 1);
        assert a[..n][1..] == a[1..][..n - 1];
      } else {
        SubPrefix(a, b[1..], n);
      }
    }
  }

  /** Python's list.remove: the first element equal to x goes. */
  function Without(s: seq<Call>, x: Call): seq<Call> {
    if s == [] then [] else if s[0] == x then s[1..] else [s[0]] + Without(s[1..], x)
  }

  lemma {:induction false} WithoutKeeps(a: seq<Call>, b: seq<Call>, x: Call)
    requires Sub(a, b) && x !in a
    ensures Sub(a, Without(b, x))
    decreases |b|
  {
    if a != [] && b[0] != x {
      var rest := Without(b[1..], x);
      assert ([b[0]] + rest)[1..] == rest;
      if a[0] == b[0] && Sub(a[1..], b[1..]) {
        WithoutKeeps(a[1..], b[1..], x);
      } else {
        WithoutKeeps(a, b[1..], x);
      }
    }
  }

  lemma {:induction false} WithoutIsSub(b: seq<Call>, x: Call, c: seq<Call>)
    requires Sub(b, c)
    ensures Sub(Without(b, x), c)
    decreases |c|
  {
    if b != [] {
      if b[0] == c[0] && Sub(b[1..], c[1..]) {
        WithoutIsSub(b[1..], x, c[1..]);
        var rest := Without(b[1..], x);
        assert ([b[0]] + rest)[1..] == rest;
        if b[0] == x {
          SubLater(b[1..], c);
        }
      } else {
        WithoutIsSub(b, x, c[1..]);
        SubLater(Without(b, x), c);
      }
    }
  }

  lemma SubLater(a: seq<Call>, c: seq<Call>)
    requires c != [] && Sub(a, c[1..])
    ensures Sub(a, c)
  {
  }

  /** It is the first of them that goes, and the rest stays in order. */
  lemma {:induction false} RemovesTheFirst(s: seq<Call>, x: Call) returns (i: nat)
    requires x in s
    ensures i < |s| && s[i] == x && x !in s[..i] && Without(s, x) == s[..i] + s[i + 1..]
  {
    i := 0;
    if s[0] != x {
      var t := s[1..];
      var j := RemovesTheFirst(t, x);
      i := j + 1;
      assert s[..i] == [s[0]] + t[..j] && s[i + 1..] == t[j + 1..];
    }
  }

  lemma WithoutShorter(s: seq<Call>, x: Call)
    requires x in s
    ensures |Without(s, x)| == |s| - 1
  {
  }

  // The computation ------------------------------------------------------------------------------

  /** What removing from the very list being iterated does: the index walks on while the elements move up,
      so some are skipped, and it is the first equal element that goes. */
  function Pruned(stack: seq<Call>, next: nat, k: nat): seq<Call>
    decreases |stack| - k
  {
    if k >= |stack| then stack
    else if stack[k].depth >= next then
      WithoutShorter(stack, stack[k]);
      Pruned(Without(stack, stack[k]), next, k + 1)
    else Pruned(stack, next, k + 1)
  }

  /** Pruning may keep too much, but drops nothing that is above the next call. */
  lemma {:induction false} PrunedKeeps(path: seq<Call>, stack: seq<Call>, next: nat, k: nat, seen: seq<Call>)
    requires Sub(path, stack) && Sub(stack, seen)
    requires forall j :: 0 <= j < |path| ==> path[j].depth < next
    ensures Sub(path, Pruned(stack, next, k)) && Sub(Pruned(stack, next, k), seen)
    decreases |stack| - k
  {
    if k < |stack| {
      if stack[k].depth >= next {
        WithoutShorter(stack, stack[k]);
        WithoutKeeps(path, stack, stack[k]);
        WithoutIsSub(stack, stack[k], seen);
        PrunedKeeps(path, Without(stack, stack[k]), next, k + 1, seen);
      } else {
        PrunedKeeps(path, stack, next, k + 1, seen);
      }
    }
  }

  function Heavier(curr: seq<Call>, max: seq<Call>): seq<Call> { if Sum(curr) >= Sum(max) then curr else max }

  /** The variables of the walk. */
  datatype Walk = Walk(curr: seq<Call>, max: seq<Call>, root: int, out: seq<(int, nat)>)

  function NextDepth(calls: seq<Call>, i: nat): int
    requires i < |calls|
  {
    if i + 1 < |calls| then calls[i + 1].depth else -1
  }

  function Visited(w: Walk, c: Call, next: int): Walk {
    var root := if c.depth == 0 then c.address else w.root;
    if c.depth == 0 && next <= 0 then w.(root := root, out := w.out + [(root, c.usage)])
    else
      var curr := w.curr + [c];
      if c.depth < next then w.(curr := curr, root := root)
      else
        var max := Heavier(curr, w.max);
        if next <= 0 then Walk([], [], root, w.out + [(root, Sum(max))])
        else Walk(Pruned(curr, next, 0), max, root, w.out)
  }

  /** The walk after the first n calls. */
  function Walked(calls: seq<Call>, n: nat): Walk
    requires n <= |calls|
  {
    if n == 0 then Walk([], [], 0, []) else Visited(Walked(calls, n - 1), calls[n - 1], NextDepth(calls, n - 1))
  }

  /** One entry per root: its address and its worst path. */
  function Report(calls: seq<Call>): seq<(int, nat)> { Walked(calls, |calls|).out }

  method Total(s: seq<Call>) returns (sum: nat)
    ensures sum == Sum(s)
  {
    sum := 0;
    for i := 0 to |s|
      invariant sum + Sum(s[i..]) == Sum(s)
    {
      sum := sum + s[i].usage;
    }
  }

  method CheckStacks(curr: seq<Call>, max: seq<Call>) returns (heavier: seq<Call>)
    ensures heavier == Heavier(curr, max)
  {
    var currMem := Total(curr);
    var maxMem := Total(max);
    heavier := if currMem >= maxMem then curr else max;
  }

  method Prune(stack0: seq<Call>, next: nat) returns (stack: seq<Call>)
    ensures stack == Pruned(stack0, next, 0)
  {
    stack := stack0;
    var k := 0;
    while k < |stack|
      invariant Pruned(stack, next, k) == Pruned(stack0, next, 0)
      decreases |stack| - k
    {
      var func := stack[k];
      if func.depth >= next {
        WithoutShorter(stack, func);
        stack := Without(stack, func);
      }
      k := k + 1;
    }
  }

  method MaxMemUsage(calls: seq<Call>) returns (usage: seq<(int, nat)>)
    ensures usage == Report(calls)
  {
    hide Pruned, Heavier;
    usage := [];
    var currStack: seq<Call>, maxStack: seq<Call>, root := [], [], 0;
    for i := 0 to |calls|
      invariant Walk(currStack, maxStack, root, usage) == Walked(calls, i)
    {
      var c := calls[i];
      var next := if i + 1 < |calls| then calls[i + 1].depth else -1;
      if c.depth == 0 {
        root := c.address;
      }
      if c.depth == 0 && (next == -1 || next == 0) {
        usage := usage + [(root, c.usage)];
        continue;
      }
      currStack := currStack + [c];
      if c.depth >= next {
        maxStack := CheckStacks(currStack, maxStack);
        if next == -1 || next == 0 {
          var used := Total(maxStack);
          usage := usage + [(root, used)];
          currStack, maxStack := [], [];
        } else {
          currStack := Prune(currStack, next);
        }
      }
    }
  }

  // What the report says -------------------------------------------------------------------------

  /** Where the tree holding call j starts; the end of the list starts a tree of its own. */
  function TreeStart(calls: seq<Call>, j: nat): (r: nat)
    requires Preorder(calls) && j <= |calls|
    ensures r <= j && (r < |calls| ==> calls[r].depth == 0) && (r == |calls| <==> j == |calls|)
    ensures forall k :: r < k <= j && k < |calls| ==> calls[k].depth > 0
  {
    if j == |calls| || calls[j].depth == 0 then j else TreeStart(calls, j - 1)
  }

  /** Where the next tree starts, at or after j. */
  function TreeEnd(calls: seq<Call>, j: nat): (e: nat)
    requires j <= |calls|
    ensures j <= e <= |calls| && (e < |calls| ==> calls[e].depth == 0)
    ensures forall k :: j <= k < e ==> calls[k].depth > 0
    decreases |calls| - j
  {
    if j == |calls| || calls[j].depth == 0 then j else TreeEnd(calls, j + 1)
  }

  /** Which tree call j is in, counting from 0. */
  function TreeOf(calls: seq<Call>, j: nat): int
    requires j < |calls|
  {
    Roots(calls, j + 1) - 1
  }

  /** The stack the walk weighs if call j is a leaf. */
  function Stack(calls: seq<Call>, j: nat): seq<Call>
    requires j < |calls|
  {
    Walked(calls, j).curr + [calls[j]]
  }

  /** The report covers leaf j: its root's entry is at least the stack weighed there, and at most all of
      its tree. */
  predicate Covers(calls: seq<Call>, out: seq<(int, nat)>, j: nat)
    requires Preorder(calls) && j < |calls|
  {
    var k := TreeOf(calls, j);
    && 0 <= k < |out|
    && out[k].0 == calls[TreeStart(calls, j)].address
    && Sum(Stack(calls, j)) <= out[k].1 <= Sum(calls[TreeStart(calls, j)..TreeEnd(calls, j + 1)])
  }

  /** Entry k is the weight of the stack at leaf j of its tree. */
  predicate WeighedAt(calls: seq<Call>, out: seq<(int, nat)>, k: nat, j: nat)
    requires k < |out| && j < |calls|
  {
    Leaf(calls, j) && TreeOf(calls, j) == k && out[k].1 == Sum(Stack(calls, j))
  }

  /** Entry k is the weight of the stack at some leaf of its tree, among the first n calls. */
  predicate Attained(calls: seq<Call>, out: seq<(int, nat)>, k: nat, n: nat)
    requires k < |out| && n <= |calls|
  {
    exists j :: 0 <= j < n && WeighedAt(calls, out, k, j)
  }

  /** Where the walk stands after n calls, t being the start of the tree it is in. */
  predicate Sound(calls: seq<Call>, n: nat, t: nat, w: Walk)
    requires Preorder(calls) && t <= n <= |calls|
  {
    && t == TreeStart(calls, n) && w == Walked(calls, n)
    && |w.out| == Roots(calls, t)
    && (t == n ==> w.curr == [] && w.max == [])
    && (t < n ==> w.root == calls[t].address && Sub(Path(calls, n - 1)[..calls[n].depth], w.curr))
    && Sub(w.curr, calls[t..n]) && Sub(w.max, calls[t..n])
    && (forall j :: t <= j < n && Leaf(calls, j) ==> Sum(Stack(calls, j)) <= Sum(w.max))
    && (w.max == [] || exists j :: t <= j < n && Leaf(calls, j) && w.max == Stack(calls, j))
    && (forall j :: 0 <= j < t && Leaf(calls, j) ==> Covers(calls, w.out, j))
    && (forall k :: 0 <= k < |w.out| ==> Attained(calls, w.out, k, t))
  }

  /** The walk's stacks once call n is pushed: they hold the current path, and only calls of this tree. */
  lemma Pushed(calls: seq<Call>, n: nat, t: nat, w: Walk)
    requires Preorder(calls) && t <= n < |calls| && Sound(calls, n, t, w)
    ensures var curr := w.curr + [calls[n]];
      && Sub(Path(calls, n), curr) && Sub(curr, calls[t..n + 1]) && Sub(w.max, calls[t..n + 1])
  {
    hide Sub, Path, Covers, Leaf, Roots, Sum, Preorder;
    SubGrows(w.curr, calls, t, n);
    SubGrows(w.max, calls, t, n);
    PathPushed(calls, n, t, w.curr);
  }

  lemma PathPushed(calls: seq<Call>, n: nat, t: nat, curr: seq<Call>)
    requires Preorder(calls) && t <= n < |calls|
    requires if t < n then Sub(Path(calls, n - 1)[..calls[n].depth], curr) else curr == [] && calls[n].depth == 0
    ensures Sub(Path(calls, n), curr + [calls[n]])
  {
    hide Sub, Path;
    if t < n {
      PathStep(calls, n - 1);
      SubAppend(Path(calls, n - 1)[..calls[n].depth], curr, calls[n]);
    } else {
      RootPath(calls, n);
      SubSelf(calls[n]);
      assert curr + [calls[n]] == [calls[n]];
    }
  }

  lemma SubGrows(a: seq<Call>, calls: seq<Call>, t: nat, n: nat)
    requires t <= n < |calls| && Sub(a, calls[t..n])
    ensures Sub(a + [calls[n]], calls[t..n + 1]) && Sub(a, calls[t..n + 1])
  {
    hide Sub;
    assert calls[t..n + 1] == calls[t..n] + [calls[n]];
    SubAppend(a, calls[t..n], calls[n]);
  }

  lemma RootPath(calls: seq<Call>, n: nat)
    requires Preorder(calls) && n < |calls| && calls[n].depth == 0
    ensures Path(calls, n) == [calls[n]]
  {
  }

  lemma SubSelf(c: Call)
    ensures Sub([c], [c])
  {
  }

  /** The worst stack so far, once a leaf has been looked at: at least all of them, and one of them. */
  lemma Weighed(calls: seq<Call>, n: nat, t: nat, w: Walk) returns (at: nat)
    requires Preorder(calls) && t <= n < |calls| && Sound(calls, n, t, w) && Leaf(calls, n)
    ensures var max := Heavier(w.curr + [calls[n]], w.max);
      && Sub(max, calls[t..n + 1])
      && (forall j :: t <= j <= n && Leaf(calls, j) ==> Sum(Stack(calls, j)) <= Sum(max))
      && t <= at <= n && Leaf(calls, at) && max == Stack(calls, at)
  {
    hide Sub, Path, Sum, Leaf, Covers, Attained;
    Pushed(calls, n, t, w);
    at := n;
    if Heavier(w.curr + [calls[n]], w.max) == w.max && w.max != [] {
      at :| t <= at < n && Leaf(calls, at) && w.max == Stack(calls, at);
    } else if w.max == [] {
      NoWeight();
    }
  }

  lemma NoWeight()
    ensures Sum([]) == 0
  {
  }

  lemma InTree(calls: seq<Call>, t: nat, j: nat, n: nat)
    requires Preorder(calls) && t <= j <= n < |calls| && t == TreeStart(calls, n)
    requires NextDepth(calls, n) <= 0
    ensures TreeStart(calls, j) == t && TreeEnd(calls, j + 1) == n + 1 && Roots(calls, j + 1) == Roots(calls, t) + 1
    decreases j
  {
    if j == t {
      assert calls[t].depth == 0;
    } else {
      InTree(calls, t, j - 1, n);
      assert calls[j].depth > 0;
    }
  }

  /** Calls that do not end their tree. */
  lemma StepInside(calls: seq<Call>, n: nat, t: nat, w: Walk)
    requires Preorder(calls) && t <= n < |calls| && Sound(calls, n, t, w) && NextDepth(calls, n) > 0
    ensures Sound(calls, n + 1, t, Visited(w, calls[n], NextDepth(calls, n)))
  {
    hide Sub, Path, Sum, Covers, Attained, Pruned, Heavier, Stack, Roots;
    var c, next := calls[n], NextDepth(calls, n);
    var curr := w.curr + [c];
    Pushed(calls, n, t, w);
    WalkedNext(calls, n);
    if c.depth < next {
      assert Path(calls, n)[..next] == Path(calls, n);
    } else {
      assert Leaf(calls, n);
      var at := Weighed(calls, n, t, w);
      SubPrefix(Path(calls, n), curr, next);
      PrunedKeeps(Path(calls, n)[..next], curr, next, 0, calls[t..n + 1]);
    }
  }

  lemma WalkedNext(calls: seq<Call>, n: nat)
    requires n < |calls|
    ensures Walked(calls, n + 1) == Visited(Walked(calls, n), calls[n], NextDepth(calls, n))
  {
    hide Visited;
  }

  /** A call that ends its tree reports it. */
  lemma StepOut(calls: seq<Call>, n: nat, t: nat, w: Walk)
    requires Preorder(calls) && t <= n < |calls| && Sound(calls, n, t, w) && NextDepth(calls, n) <= 0
    ensures Sound(calls, n + 1, n + 1, Visited(w, calls[n], NextDepth(calls, n)))
  {
    hide Sub, Path, TreeStart, TreeEnd, Roots, Stack, Sum, Heavier;
    var c, next := calls[n], NextDepth(calls, n);
    var max := Heavier(w.curr + [c], w.max);
    var w' := Visited(w, c, next);
    WalkedNext(calls, n);
    var at := Weighed(calls, n, t, w);
    SubSum(max, calls[t..n + 1]);
    Entry(calls, n, t, w);
    assert w'.out == w.out + [(calls[t].address, Sum(max))];
    forall j | 0 <= j < n + 1 && Leaf(calls, j) ensures Covers(calls, w'.out, j) {
      if j < t {
        assert Covers(calls, w.out, j);
      } else {
        InTree(calls, t, j, n);
      }
    }
    var m := n + 1;
    forall k | 0 <= k < |w'.out| ensures Attained(calls, w'.out, k, m) {
      if k < |w.out| {
        assert Attained(calls, w.out, k, t);
        var j :| 0 <= j < t && WeighedAt(calls, w.out, k, j);
        assert WeighedAt(calls, w'.out, k, j);
      } else {
        InTree(calls, t, at, n);
        assert WeighedAt(calls, w'.out, k, at);
      }
    }
    Boundary(calls, n, t);
    SubNone(calls[n + 1..n + 1]);
  }

  lemma Entry(calls: seq<Call>, n: nat, t: nat, w: Walk)
    requires Preorder(calls) && t <= n < |calls| && Sound(calls, n, t, w) && NextDepth(calls, n) <= 0
    ensures Visited(w, calls[n], NextDepth(calls, n)).out ==
      w.out + [(calls[t].address, Sum(Heavier(w.curr + [calls[n]], w.max)))]
  {
    hide Sub, Path, TreeEnd, Roots, Covers, Pruned;
    assert t == n <==> calls[n].depth == 0;
    if t == n {
      assert w.curr + [calls[n]] == [calls[n]];
      assert Sum([calls[n]]) == calls[n].usage;
    }
  }

  lemma Boundary(calls: seq<Call>, n: nat, t: nat)
    requires Preorder(calls) && t <= n < |calls| && t == TreeStart(calls, n) && NextDepth(calls, n) <= 0
    ensures TreeStart(calls, n + 1) == n + 1 && Roots(calls, n + 1) == Roots(calls, t) + 1
  {
    InTree(calls, t, n, n);
  }

  lemma SubNone(b: seq<Call>)
    ensures Sub([], b)
  {
  }

  lemma {:induction false} WalkIsSound(calls: seq<Call>, n: nat)
    requires Preorder(calls) && n <= |calls|
    ensures Sound(calls, n, TreeStart(calls, n), Walked(calls, n))
  {
    hide Sound, Visited;
    if n == 0 {
      Start(calls);
    } else {
      var t := TreeStart(calls, n - 1);
      WalkIsSound(calls, n - 1);
      if NextDepth(calls, n - 1) <= 0 {
        StepOut(calls, n - 1, t, Walked(calls, n - 1));
      } else {
        StepInside(calls, n - 1, t, Walked(calls, n - 1));
      }
    }
  }

  lemma Start(calls: seq<Call>)
    requires Preorder(calls)
    ensures TreeStart(calls, 0) == 0 && Sound(calls, 0, 0, Walk([], [], 0, []))
  {
    SubNone(calls[0..0]);
  }

  /** What the report says: every root has its one entry, in order, and it is the weight of the heaviest
      stack weighed at a leaf of its tree. */
  lemma HeaviestStackIsReported(calls: seq<Call>)
    requires Preorder(calls)
    ensures |Report(calls)| == Roots(calls, |calls|)
    ensures forall j :: 0 <= j < |calls| && Leaf(calls, j) ==> Covers(calls, Report(calls), j)
    ensures forall k :: 0 <= k < |Report(calls)| ==> Attained(calls, Report(calls), k, |calls|)
  {
    hide Covers, Attained;
    WalkIsSound(calls, |calls|);
  }

  /** The weighed stack holds the whole path. */
  lemma StackHoldsPath(calls: seq<Call>, j: nat)
    requires Preorder(calls) && j < |calls|
    ensures Sub(Path(calls, j), Stack(calls, j)) && Sum(Path(calls, j)) <= Sum(Stack(calls, j))
  {
    hide Sub, Path, Covers, Attained, Sum;
    WalkIsSound(calls, j);
    Pushed(calls, j, TreeStart(calls, j), Walked(calls, j));
    SubSum(Path(calls, j), Stack(calls, j));
  }

  /** Entry `TreeOf(calls, j)` is no less than the path to j. */
  predicate Bounds(calls: seq<Call>, out: seq<(int, nat)>, j: nat)
    requires Preorder(calls) && j < |calls|
  {
    var k := TreeOf(calls, j);
    && 0 <= k < |out|
    && out[k].0 == calls[TreeStart(calls, j)].address
    && Sum(Path(calls, j)) <= out[k].1 <= Sum(calls[TreeStart(calls, j)..TreeEnd(calls, j + 1)])
  }

  /** The stack bound never understates: every root has its one entry, in order, and for every root-to-leaf
      path of every tree the entry of that root is at least the path's total (and never more than everything
      in the tree). */
  lemma NeverUnderstates(calls: seq<Call>)
    requires Preorder(calls)
    ensures |Report(calls)| == Roots(calls, |calls|)
    ensures forall j :: 0 <= j < |calls| && Leaf(calls, j) ==> Bounds(calls, Report(calls), j)
  {
    hide Sum, Path, Stack, Roots, Leaf, Report;
    HeaviestStackIsReported(calls);
    forall j | 0 <= j < |calls| && Leaf(calls, j) ensures Bounds(calls, Report(calls), j) {
      assert Covers(calls, Report(calls), j);
      StackHoldsPath(calls, j);
    }
  }

  // When the report is exact ---------------------------------------------------------------------

  /** Entry k is the total of the path to leaf j of its tree. */
  predicate PathAt(calls: seq<Call>, out: seq<(int, nat)>, k: nat, j: nat)
    requires Preorder(calls) && k < |out| && j < |calls|
  {
    Leaf(calls, j) && TreeOf(calls, j) == k && out[k].1 == Sum(Path(calls, j))
  }

  predicate IsAPath(calls: seq<Call>, out: seq<(int, nat)>, k: nat)
    requires Preorder(calls) && k < |out|
  {
    exists j :: 0 <= j < |calls| && PathAt(calls, out, k, j)
  }

  /** Every entry is the largest root-to-leaf path of its tree: at least each, and attained by one. */
  predicate Exact(calls: seq<Call>, out: seq<(int, nat)>)
    requires Preorder(calls)
  {
    && (forall j :: 0 <= j < |calls| && Leaf(calls, j) ==> Bounds(calls, out, j))
    && (forall k :: 0 <= k < |out| ==> IsAPath(calls, out, k))
  }

  /** After call i the walk goes back up by more than one level, but not to a new root. */
  predicate Drops(calls: seq<Call>, i: nat)
    requires i + 1 < |calls|
  {
    0 < calls[i + 1].depth < calls[i].depth
  }

  predicate TidyTo(calls: seq<Call>, n: nat)
    requires n <= |calls|
  {
    forall i :: 0 <= i < n && i + 1 < |calls| ==> !Drops(calls, i)
  }

  /** No call ever returns by more than one level inside a tree. */
  predicate Tidy(calls: seq<Call>) { TidyTo(calls, |calls|) }

  predicate Descending(s: seq<Call>) { forall i, j :: 0 <= i < j < |s| ==> s[i].depth < s[j].depth }

  lemma {:induction false} WithoutAt(s: seq<Call>, k: nat)
    requires k < |s| && Descending(s)
    ensures Without(s, s[k]) == s[..k] + s[k + 1..]
  {
    if k > 0 {
      DescendingRest(s);
      WithoutAt(s[1..], k - 1);
      Shifted(s, k);
    }
  }

  lemma DescendingRest(s: seq<Call>)
    requires Descending(s) && s != []
    ensures Descending(s[1..]) && forall j :: 0 < j < |s| ==> s[j] != s[0]
  {
  }

  lemma Shifted(s: seq<Call>, k: nat)
    requires 0 < k < |s|
    ensures [s[0]] + (s[1..][..k - 1] + s[1..][k..]) == s[..k] + s[k + 1..]
  {
  }

  lemma DescendingWithout(s: seq<Call>, k: nat)
    requires k < |s| && Descending(s)
    ensures Descending(s[..k] + s[k + 1..])
  {
  }

  lemma ShorterFront(a: seq<Call>, b: seq<Call>, k: nat)
    requires k + 1 <= |a| && k + 1 <= |b| && a[..k + 1] == b[..k + 1]
    ensures a[..k] == b[..k]
  {
    assert a[..k] == a[..k + 1][..k] && b[..k] == b[..k + 1][..k];
  }

  /** What lies before the index is never touched again. */
  lemma {:induction false} PrunedFront(s: seq<Call>, next: nat, k: nat)
    requires k <= |s| && Descending(s)
    ensures |Pruned(s, next, k)| >= k && Pruned(s, next, k)[..k] == s[..k]
    decreases |s| - k
  {
    hide Descending, Without;
    if k < |s| {
      var t := s;
      if s[k].depth >= next {
        WithoutShorter(s, s[k]);
        WithoutAt(s, k);
        DescendingWithout(s, k);
        t := Without(s, s[k]);
        assert t[..k] == s[..k];
      }
      assert Pruned(s, next, k) == Pruned(t, next, k + 1);
      if k + 1 <= |t| {
        PrunedFront(t, next, k + 1);
        ShorterFront(Pruned(t, next, k + 1), t, k);
      } else {
        PrunedDone(t, next, k + 1);
      }
    } else {
      PrunedDone(s, next, k);
    }
  }

  lemma PrunedDone(s: seq<Call>, next: nat, k: nat)
    requires k >= |s|
    ensures Pruned(s, next, k) == s
  {
  }

  lemma {:induction false} PrunedSkips(s: seq<Call>, next: nat, k: nat)
    requires k <= |s| && forall j :: 0 <= j < k ==> s[j].depth < next
    ensures Pruned(s, next, 0) == Pruned(s, next, k)
  {
    if k > 0 {
      PrunedSkips(s, next, k - 1);
    }
  }

  /** Pruning a bare path drops its last call if that is all there is to drop; otherwise the call one level
      below the next one's depth takes the removed one's place and is skipped. */
  lemma PrunedPath(p: seq<Call>, next: nat)
    requires 0 < next < |p| && forall k :: 0 <= k < |p| ==> p[k].depth == k
    ensures |p| == next + 1 ==> Pruned(p, next, 0) == p[..next]
    ensures |p| > next + 1 ==> |Pruned(p, next, 0)| > next && Pruned(p, next, 0)[next] == p[next + 1]
  {
    PrunedSkips(p, next, next);
    WithoutShorter(p, p[next]);
    WithoutAt(p, next);
    DescendingWithout(p, next);
    var t := Without(p, p[next]);
    assert Pruned(p, next, next) == Pruned(t, next, next + 1);
    if |p| == next + 1 {
      PrunedDone(t, next, next + 1);
      assert t == p[..next];
    } else {
      PrunedFront(t, next, next + 1);
      assert Pruned(t, next, next + 1)[..next + 1][next] == t[..next + 1][next] == p[next + 1];
    }
  }

  /** As long as the list is tidy, the stack is the path, nothing more. */
  lemma {:induction false} TidyStackIsPath(calls: seq<Call>, n: nat)
    requires Preorder(calls) && n < |calls| && TidyTo(calls, n)
    ensures Stack(calls, n) == Path(calls, n)
  {
    hide Path, Sub, Sum, Covers, Attained, Pruned, Roots, Leaf;
    if calls[n].depth == 0 {
      WalkIsSound(calls, n);
      RootPath(calls, n);
    } else {
      TidyStackIsPath(calls, n - 1);
      PathStep(calls, n - 1);
      WalkedNext(calls, n - 1);
      assert !Drops(calls, n - 1);
      var p, d := Path(calls, n - 1), calls[n].depth;
      if calls[n - 1].depth < d {
        assert p[..d] == p;
      } else {
        PrunedPath(p, d);
      }
    }
  }

  /** On a tidy list the report is exact. */
  lemma TidyIsExact(calls: seq<Call>)
    requires Preorder(calls) && Tidy(calls)
    ensures Exact(calls, Report(calls))
  {
    hide Sum, Path, Stack, Roots, Leaf, Report, Bounds, Covers;
    NeverUnderstates(calls);
    HeaviestStackIsReported(calls);
    var out := Report(calls);
    forall k | 0 <= k < |out| ensures IsAPath(calls, out, k) {
      assert Attained(calls, out, k, |calls|);
      var j :| 0 <= j < |calls| && WeighedAt(calls, out, k, j);
      assert TidyTo(calls, j);
      TidyStackIsPath(calls, j);
      assert PathAt(calls, out, k, j);
    }
  }

  // When it is not -------------------------------------------------------------------------------

  /** The same calls with other stack usages. */
  function WithUsage(calls: seq<Call>, usage: seq<nat>): (c: seq<Call>)
    requires |usage| == |calls|
    ensures |c| == |calls| && forall i :: 0 <= i < |c| ==> c[i] == calls[i].(usage := usage[i])
    ensures Preorder(calls) ==> Preorder(c)
  {
    seq(|calls|, i requires 0 <= i < |calls| => calls[i].(usage := usage[i]))
  }

  lemma {:induction false} SumConcat(a: seq<Call>, b: seq<Call>)
    ensures Sum(a + b) == Sum(a) + Sum(b)
  {
    if a == [] {
      assert a + b == b;
    } else {
      assert (a + b)[1..] == a[1..] + b;
      SumConcat(a[1..], b);
    }
  }

  lemma {:induction false} SumAtLeast(s: seq<Call>, k: nat)
    requires k < |s|
    ensures Sum(s) >= s[k].usage
  {
    if k > 0 {
      SumAtLeast(s[1..], k - 1);
    }
  }

  /** From any call on, the first leaf, with everything down to it stacked up. */
  lemma {:induction false} NextLeaf(calls: seq<Call>, m: nat) returns (j: nat)
    requires Preorder(calls) && m < |calls|
    ensures m <= j < |calls| && Leaf(calls, j) && Walked(calls, j).curr == Walked(calls, m).curr + calls[m..j]
    decreases |calls| - m
  {
    hide Pruned, Heavier;
    if Leaf(calls, m) {
      j := m;
      assert calls[m..m] == [];
    } else {
      WalkedNext(calls, m);
      j := NextLeaf(calls, m + 1);
      assert calls[m..j] == [calls[m]] + calls[m + 1..j];
    }
  }

  /** Two calls of which the later is one level up are never on one path: with one unit of stack each and
      nothing elsewhere, no path totals more than one. */
  lemma {:induction false} NeverOnOnePath(calls: seq<Call>, p: nat, q: nat, j: nat)
    requires Preorder(calls) && p < q < |calls| && j < |calls| && calls[p].depth == calls[q].depth + 1
    requires forall i :: 0 <= i < |calls| ==> calls[i].usage == if i == p || i == q then 1 else 0
    ensures Sum(Path(calls, j)) <= 1
    ensures j < p || (calls[j].depth <= calls[q].depth && j != q) ==> Sum(Path(calls, j)) == 0
  {
    var c := calls[j];
    SumOne(c);
    if c.depth > 0 {
      var up := Up(calls, j - 1, c.depth);
      NeverOnOnePath(calls, p, q, up);
      SumConcat(Path(calls, up), [c]);
    }
  }

  lemma SumOne(c: Call)
    ensures Sum([c]) == c.usage
  {
    assert [c][1..] == [];
  }

  lemma {:induction false} FirstDrop(calls: seq<Call>, n: nat) returns (i: nat)
    requires n <= |calls| && !TidyTo(calls, n)
    ensures i < n && i + 1 < |calls| && Drops(calls, i) && TidyTo(calls, i)
  {
    if !TidyTo(calls, n - 1) {
      i := FirstDrop(calls, n - 1);
    } else {
      i := n - 1;
    }
  }

  /** At the first drop, the call one level below the next one's depth stays on the stack, and the next leaf
      is charged for both. */
  lemma LeftoverIsCharged(calls: seq<Call>, i: nat) returns (p: nat, j: nat)
    requires Preorder(calls) && i + 1 < |calls| && Drops(calls, i) && TidyTo(calls, i)
    ensures p <= i && calls[p].depth == calls[i + 1].depth + 1 && p == Up(calls, i, calls[i + 1].depth + 2)
    ensures i < j < |calls| && Leaf(calls, j)
    ensures Sum(Stack(calls, j)) >= calls[p].usage + calls[i + 1].usage
  {
    hide Sum, Pruned, Heavier, Path, Leaf;
    var d := calls[i + 1].depth;
    p := Up(calls, i, d + 2);
    var path := Path(calls, i);
    UpPath(calls, i, d + 2);
    assert path[..d + 2][d + 1] == path[d + 1];
    assert Path(calls, p)[d + 1] == calls[p];
    TidyStackIsPath(calls, i);
    WalkedNext(calls, i);
    PrunedPath(path, d);
    j := NextLeaf(calls, i + 1);
    var base := Walked(calls, i + 1).curr;
    SumAtLeast(base, d);
    assert Stack(calls, j) == base + calls[i + 1..j + 1] by {
      assert calls[i + 1..j + 1] == calls[i + 1..j] + [calls[j]];
    }
    SumConcat(base, calls[i + 1..j + 1]);
    SumAtLeast(calls[i + 1..j + 1], 0);
  }

  /** On a list that is not tidy, some stack usages make the report exceed every path. */
  lemma UntidyOverstates(calls: seq<Call>) returns (usage: seq<nat>)
    requires Preorder(calls) && !Tidy(calls)
    ensures |usage| == |calls| && !Exact(WithUsage(calls, usage), Report(WithUsage(calls, usage)))
  {
    hide Sum, Path, Stack, Leaf, Report, Covers, Roots;
    var i := FirstDrop(calls, |calls|);
    var p, _ := LeftoverIsCharged(calls, i);
    usage := seq(|calls|, k => if k == p || k == i + 1 then 1 else 0);
    var loaded := WithUsage(calls, usage);
    assert Drops(loaded, i) && TidyTo(loaded, i) by { SameShape(calls, usage, i); }
    var p', j := LeftoverIsCharged(loaded, i);
    assert p' == p;
    HeaviestStackIsReported(loaded);
    assert Covers(loaded, Report(loaded), j);
    ChargedTooMuch(loaded, p, i + 1, j);
  }

  lemma SameShape(calls: seq<Call>, usage: seq<nat>, i: nat)
    requires |usage| == |calls| && i + 1 < |calls| && Drops(calls, i) && TidyTo(calls, i)
    ensures Drops(WithUsage(calls, usage), i) && TidyTo(WithUsage(calls, usage), i)
  {
    var loaded := WithUsage(calls, usage);
    forall k | 0 <= k < i && k + 1 < |calls| ensures !Drops(loaded, k) {
      assert !Drops(calls, k);
    }
  }

  lemma ChargedTooMuch(calls: seq<Call>, p: nat, q: nat, j: nat)
    requires Preorder(calls) && p < q < |calls| && j < |calls| && calls[p].depth == calls[q].depth + 1
    requires forall i :: 0 <= i < |calls| ==> calls[i].usage == if i == p || i == q then 1 else 0
    requires Covers(calls, Report(calls), j) && Sum(Stack(calls, j)) >= 2
    ensures !Exact(calls, Report(calls))
  {
    hide Sum, Path, Stack, Leaf, Report, Roots, Bounds;
    var out, k := Report(calls), TreeOf(calls, j);
    assert out[k].1 >= 2;
    forall l | 0 <= l < |calls| ensures !PathAt(calls, out, k, l) {
      NeverOnOnePath(calls, p, q, l);
    }
    assert !IsAPath(calls, out, k);
  }

  /** The report is exact whatever the calls use exactly on the shapes in which no call returns by more than
      one level without returning to a new root. */
  lemma ExactExactlyWhenTidy(calls: seq<Call>)
    requires Preorder(calls)
    ensures Tidy(calls) <==>
      forall usage: seq<nat> :: |usage| == |calls| ==> Exact(WithUsage(calls, usage), Report(WithUsage(calls, usage)))
  {
    hide Exact, Report;
    if Tidy(calls) {
      forall usage: seq<nat> | |usage| == |calls| ensures Exact(WithUsage(calls, usage), Report(WithUsage(calls, usage))) {
        var loaded := WithUsage(calls, usage);
        forall k | 0 <= k < |calls| && k + 1 < |calls| ensures !Drops(loaded, k) {
          assert !Drops(calls, k);
        }
        TidyIsExact(loaded);
      }
    } else {
      var usage := UntidyOverstates(calls);
    }
  }

  lemma OverstatingWalk(r: Call, a: Call, b: Call, c: Call)
    requires r == Call("root", 0, 1, 10) && a == Call("a", 1, 2, 5) && b == Call("b", 2, 3, 5) && c == Call("c", 1, 4, 7)
    ensures Pruned([r, a, b], 1, 0) == [r, b]
    ensures Visited(Walk([], [], 0, []), r, 1) == Walk([r], [], 1, [])
    ensures Visited(Walk([r], [], 1, []), a, 2) == Walk([r, a], [], 1, [])
    ensures Visited(Walk([r, a], [], 1, []), b, 1) == Walk([r, b], [r, a, b], 1, [])
    ensures Visited(Walk([r, b], [r, a, b], 1, []), c, -1) == Walk([], [], 1, [(1, 22)])
  {
    var s := [r, a, b];
    assert s[1..] == [a, b] && [a, b][1..] == [b];
    assert Without([a, b], a) == [b];
    assert Without(s, a) == [r] + [b] == [r, b];
    assert Pruned(s, 1, 0) == Pruned(s, 1, 1) == Pruned([r, b], 1, 2) == [r, b];
    SumThree(r, a, b);
    SumThree(r, b, c);
    assert [r] + [a] == [r, a] && [r, a] + [b] == [r, a, b] && [r, b] + [c] == [r, b, c];
  }

  lemma SumThree(x: Call, y: Call, z: Call)
    ensures Sum([x, y, z]) == x.usage + y.usage + z.usage
  {
    assert [x, y, z][1..] == [y, z] && [y, z][1..] == [z] && [z][1..] == [];
    assert Sum([z]) == z.usage && Sum([y, z]) == y.usage + Sum([z]);
  }

  /** It can overstate: frames skipped while removing stay on the stack of a later sibling. */
  lemma OverstatesWitness()
    ensures var calls := [Call("root", 0, 1, 10), Call("a", 1, 2, 5), Call("b", 2, 3, 5), Call("c", 1, 4, 7)];
      && Preorder(calls) && Report(calls) == [(1, 22)]
      && Sum(Path(calls, 2)) == 20 && Sum(Path(calls, 3)) == 17
  {
    hide Visited;
    var r, a, b, c := Call("root", 0, 1, 10), Call("a", 1, 2, 5), Call("b", 2, 3, 5), Call("c", 1, 4, 7);
    var calls := [r, a, b, c];
    OverstatingWalk(r, a, b, c);
    assert Walked(calls, 1) == Walk([r], [], 1, []);
    assert Walked(calls, 2) == Walk([r, a], [], 1, []);
    assert Walked(calls, 3) == Walk([r, b], [r, a, b], 1, []);
    SumThree(r, a, b);
    assert Path(calls, 0) == [r];
    PathStep(calls, 0);
    PathStep(calls, 1);
    PathStep(calls, 2);
    assert Path(calls, 2) == [r, a, b];
    assert Path(calls, 3) == [r, c];
    assert Sum([r, c]) == 10 + Sum([c]);
  }
}
