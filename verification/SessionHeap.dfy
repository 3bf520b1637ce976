/**
 The binary min-heap of session jobs: the four methods the job slice supplies
 (Less, Swap, Push, Pop) and the algorithms of Go's container/heap that run on them
 (up, down, Push, Pop, Fix). Jobs are heap-allocated objects that store their own slot.
 */
module SessionHeap {
  import opened SchedulerCore

  // ---------- heap order, on the sequence of due times ----------

  predicate Edge(p: nat, c: nat) {
    c == 2 * p + 1 || c == 2 * p + 2
  }

  // The first n entries are in heap order.
  ghost predicate Ordered(r: seq<int>, n: nat)
    requires n <= |r|
  {
    forall p, c :: 0 <= p < c < n && Edge(p, c) ==> r[p] <= r[c]
  }

  // In heap order, but for the key at slot i, which may be anything.
  ghost predicate OrderedBut(r: seq<int>, n: nat, i: nat)
    requires n <= |r|
  {
    && (forall p, c :: 0 <= p < c < n && Edge(p, c) && p != i && c != i ==> r[p] <= r[c])
    && Bridged(r, n, i)
  }

  // In heap order, but slot j may be smaller than its parent.
  ghost predicate OrderedButUp(r: seq<int>, n: nat, j: nat)
    requires n <= |r|
  {
    && (forall p, c :: 0 <= p < c < n && Edge(p, c) && c != j ==> r[p] <= r[c])
    && Bridged(r, n, j)
  }

  // The parent of slot i is no larger than the children of slot i.
  ghost predicate Bridged(r: seq<int>, n: nat, i: nat)
    requires n <= |r|
  {
    forall g, c :: 0 <= g < i < c < n && Edge(g, i) && Edge(i, c) ==> r[g] <= r[c]
  }

  lemma {:induction false} RootIsLeast(r: seq<int>, n: nat, k: nat)
    requires k < n <= |r| && Ordered(r, n)
    ensures r[0] <= r[k]
    decreases k
  {
    if k > 0 {
      var p := (k - 1) / 2;
      assert Edge(p, k);
      RootIsLeast(r, n, p);
    }
  }

  // Changing the key of one slot of a heap leaves it ordered but for that slot.
  lemma KeyChange(r: seq<int>, r': seq<int>, i: nat)
    requires |r| == |r'| && i < |r| && Ordered(r, |r|)
    requires forall k :: 0 <= k < |r| && k != i ==> r'[k] == r[k]
    ensures OrderedBut(r', |r'|, i)
  {
    forall g, c | 0 <= g < i < c < |r'| && Edge(g, i) && Edge(i, c) ensures r'[g] <= r'[c] {
      assert r[g] <= r[i] <= r[c];
    }
  }

  // ---------- the objects ----------

  class SessionJob {
    const token: string
    var claims: Claims
    var runAt: int
    var canceled: bool
    var index: int // slot in the heap; -1 once popped

    constructor (token: string, claims: Claims, runAt: int)
      ensures this.token == token && this.claims == claims && this.runAt == runAt
      ensures !canceled && index == 0
    {
      this.token := token;
      this.claims := claims;
      this.runAt := runAt;
      canceled := false;
      index := 0;
    }
  }

  class SessionJobHeap {
    var h: seq<SessionJob>

    // Every job knows its slot. Hence no job occurs twice.
    ghost predicate Indexed()
      reads this, h
    {
      forall k :: 0 <= k < |h| ==> h[k].index == k
    }

    ghost function Times(): (r: seq<int>)
      reads this, h
      ensures |r| == |h|
      ensures forall k :: 0 <= k < |h| ==> r[k] == h[k].runAt
    {
      seq(|h|, k requires 0 <= k < |h| reads this, h => h[k].runAt)
    }

    ghost function Members(): set<SessionJob>
      reads this
    {
      set j | j in h
    }

    ghost predicate Valid()
      reads this, h
    {
      Indexed() && Ordered(Times(), |h|)
    }

    constructor ()
      ensures h == [] && Valid()
    {
      h := [];
    }

    predicate Less(i: nat, j: nat)
      requires i < |h| && j < |h|
      reads this, h
    {
      h[i].runAt < h[j].runAt
    }

    method Swap(i: nat, j: nat)
      requires Indexed() && i < |h| && j < |h|
      modifies this, h`index
      ensures Indexed()
      ensures h == old(h)[i := old(h)[j]][j := old(h)[i]]
      ensures Members() == old(Members()) && forall x :: x in h ==> x in old(h)
      ensures Times() == old(Times())[i := old(Times())[j]][j := old(Times())[i]]
    {
      ghost var was, r := h, Times();
      h := h[i := h[j]][j := h[i]];
      h[i].index := i;
      h[j].index := j;
      assert forall k :: 0 <= k < |h| && k != i && k != j ==> h[k] == was[k];
      assert was[i] == h[j] && was[j] == h[i];
      assert Times() == r[i := r[j]][j := r[i]];
    }

    method Push(job: SessionJob)
      requires Indexed() && job !in h
      modifies this, job`index
      ensures Indexed()
      ensures h == old(h) + [job]
    {
      job.index := |h|;
      h := h + [job];
    }

    method Pop() returns (job: SessionJob)
      requires Indexed() && h != []
      modifies this, h`index
      ensures Indexed()
      ensures old(h) == h + [job]
      ensures job.index == -1 && job !in h
      ensures Members() == old(Members()) - {job}
      ensures Times() == old(Times())[..|h|]
    {
      var n := |h|;
      job := h[n - 1];
      assert forall k :: 0 <= k < n - 1 ==> h[k] != job;
      job.index := -1;
      h := h[..n - 1];
    }

    // ---------- container/heap ----------

    method Up(j0: nat)
      requires Indexed() && j0 < |h| && OrderedButUp(Times(), |h|, j0)
      modifies this, h`index
      ensures Valid()
      ensures |h| == |old(h)| && Members() == old(Members())
    {
      var j: nat := j0;
      while true
        invariant Indexed() && j < |h| == |old(h)|
        invariant Members() == old(Members()) && forall k :: 0 <= k < |h| ==> h[k] in old(h)
        invariant OrderedButUp(Times(), |h|, j)
        decreases j
      {
        var i := if j == 0 then 0 else (j - 1) / 2; // Go's (j-1)/2 truncates toward zero
        if i == j || !Less(j, i) {
          assert forall p :: 0 <= p < j && Edge(p, j) ==> p == i;
          break;
        }
        ghost var r := Times();
        assert Edge(i, j);
        Swap(i, j);
        SwapUp(r, Times(), i, j);
        j := i;
      }
    }

    // One level of `down`: swaps slot i with its smaller child if that child is smaller.
    method DownLevel(i: nat, n: nat) returns (j: nat)
      requires Indexed() && i < |h| && n <= |h|
      requires OrderedBut(Times(), n, i) || OrderedButDown(Times(), n, i)
      modifies this, h`index
      ensures Indexed() && i <= j < |h| == |old(h)|
      ensures Members() == old(Members()) && forall k :: 0 <= k < |h| ==> h[k] in old(h)
      ensures h[n..] == old(h[n..])
      ensures j == i ==> h == old(h) && ChildrenOk(Times(), n, i)
      ensures j > i ==> j < n && OrderedButDown(Times(), n, j)
    {
      ghost var r := Times();
      var j1 := 2 * i + 1;
      if j1 >= n { return i; }
      j := j1;
      var j2 := j1 + 1;
      if j2 < n && Less(j2, j1) { j := j2; }
      Select(r, n, i, j);
      if !Less(j, i) { return i; }
      Swap(i, j);
      SwapDown(r, Times(), n, i, j);
    }

    /** The boolean says whether the job moved. If it did not, nothing changed and slot i0 is
        no larger than its children. */
    method Down(i0: nat, n: nat) returns (moved: bool)
      requires Indexed() && i0 < |h| && n <= |h| && OrderedBut(Times(), n, i0)
      modifies this, h`index
      ensures Indexed()
      ensures |h| == |old(h)| && Members() == old(Members()) && h[n..] == old(h[n..])
      ensures forall k :: 0 <= k < |h| ==> h[k] in old(h)
      ensures moved ==> Ordered(Times(), n)
      ensures !moved ==> h == old(h) && OrderedButUp(Times(), n, i0)
    {
      var i := i0;
      while true
        invariant Indexed() && i0 <= i < |h| == |old(h)|
        invariant Members() == old(Members())
        invariant h[n..] == old(h[n..])
        invariant i == i0 ==> h == old(h) && OrderedBut(Times(), n, i)
        invariant i > i0 ==> OrderedButDown(Times(), n, i)
        decreases |h| - i
      {
        assert forall k :: 0 <= k < |h| ==> h[k] in Members();
        var j := DownLevel(i, n);
        if j == i { break; }
        i := j;
      }
      Settled(Times(), n, i, i0);
      moved := i > i0;
    }

    method HeapPush(job: SessionJob)
      requires Valid() && job !in h
      modifies this, job`index, h`index
      ensures Valid()
      ensures |h| == |old(h)| + 1 && Members() == old(Members()) + {job}
    {
      ghost var r := Times();
      Push(job);
      assert Times()[..|r|] == r;
      Up(|h| - 1);
    }

    method HeapPop() returns (job: SessionJob)
      requires Valid() && h != []
      modifies this, h`index
      ensures Valid()
      ensures job == old(h[0]) && job.index == -1
      ensures |h| == |old(h)| - 1 && Members() == old(Members()) - {job}
    {
      var n := |h| - 1;
      ghost var r := Times();
      Swap(0, n);
      SwapToLast(r, Times());
      var _ := Down(0, n);
      assert h[n] == h[n..][0] == old(h[0]);
      ghost var s := Times();
      job := Pop();
      OrderedPrefix(s, Times());
    }

    /** Restores the heap after the key of slot i was changed to anything. */
    method Fix(i: nat)
      requires Indexed() && i < |h| && OrderedBut(Times(), |h|, i)
      modifies this, h`index
      ensures Valid()
      ensures |h| == |old(h)| && Members() == old(Members())
    {
      var moved := Down(i, |h|);
      if !moved {
        Up(i);
      }
    }
  }

  // After i > i0: only the edges below slot i may be out of order.
  ghost predicate OrderedButDown(r: seq<int>, n: nat, i: nat)
    requires n <= |r|
  {
    && (forall p, c :: 0 <= p < c < n && Edge(p, c) && p != i ==> r[p] <= r[c])
    && Bridged(r, n, i)
  }

  ghost predicate ChildrenOk(r: seq<int>, n: nat, i: nat)
    requires i < |r| && n <= |r|
  {
    forall c :: i < c < n && Edge(i, c) ==> r[i] <= r[c]
  }

  ghost predicate LeastChild(r: seq<int>, n: nat, i: nat, j: nat)
    requires j < n <= |r|
  {
    Edge(i, j) && forall c :: i < c < n && Edge(i, c) ==> r[j] <= r[c]
  }

  // The child that `Down` picks is the smaller one.
  lemma Select(r: seq<int>, n: nat, i: nat, j: nat)
    requires 2 * i + 1 < n <= |r|
    requires j == if 2 * i + 2 < n && r[2 * i + 2] < r[2 * i + 1] then 2 * i + 2 else 2 * i + 1
    ensures LeastChild(r, n, i, j)
  {
  }

  lemma Settled(r: seq<int>, n: nat, i: nat, i0: nat)
    requires i0 <= i < |r| && n <= |r|
    requires ChildrenOk(r, n, i)
    requires if i == i0 then OrderedBut(r, n, i) else OrderedButDown(r, n, i)
    ensures if i == i0 then OrderedButUp(r, n, i) else Ordered(r, n)
  {
  }

  lemma SwapUp(r: seq<int>, r': seq<int>, i: nat, j: nat)
    requires |r| == |r'| && i < j < |r| && Edge(i, j) && OrderedButUp(r, |r|, j) && r[j] < r[i]
    requires r' == r[i := r[j]][j := r[i]]
    ensures OrderedButUp(r', |r'|, i)
  {
    forall p, c | 0 <= p < c < |r'| && Edge(p, c) && c != i ensures r'[p] <= r'[c] {
      if c == j { assert p == i; }
      else if p == i { assert r[i] <= r[c]; }
      else if p == j { assert r[i] <= r[c]; }
    }
    forall g, c | 0 <= g < i < c < |r'| && Edge(g, i) && Edge(i, c) ensures r'[g] <= r'[c] {
      assert r[g] <= r[i];
      if c != j { assert r[i] <= r[c]; }
    }
  }

  lemma SwapDown(r: seq<int>, r': seq<int>, n: nat, i: nat, j: nat)
    requires |r| == |r'| && i < j < n <= |r| && LeastChild(r, n, i, j) && r[j] < r[i]
    requires OrderedBut(r, n, i) || OrderedButDown(r, n, i)
    requires r' == r[i := r[j]][j := r[i]]
    ensures OrderedButDown(r', n, j)
  {
    forall p, c | 0 <= p < c < n && Edge(p, c) && p != j ensures r'[p] <= r'[c] {
      if p == i { if c != j { assert r[j] <= r[c]; } }
      else if c == i { assert Edge(p, i) && Edge(i, j) && r[p] <= r[j]; }
      else { assert c != j && r[p] <= r[c]; }
    }
    forall g, c | 0 <= g < j < c < n && Edge(g, j) && Edge(j, c) ensures r'[g] <= r'[c] {
      assert g == i && r[j] <= r[c];
    }
  }

  lemma OrderedPrefix(r: seq<int>, r': seq<int>)
    requires |r'| <= |r| && r' == r[..|r'|] && Ordered(r, |r'|)
    ensures Ordered(r', |r'|)
  {
  }

  // Swapping root and last leaves the shorter heap ordered but for its root.
  lemma SwapToLast(r: seq<int>, r': seq<int>)
    requires |r| == |r'| > 0 && Ordered(r, |r|)
    requires r' == r[0 := r[|r| - 1]][|r| - 1 := r[0]]
    ensures OrderedBut(r', |r| - 1, 0)
  {
  }
}
