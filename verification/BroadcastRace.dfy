/**
 What a broadcast does when it is not one step. It takes the slice of subscribers under the
 read lock and walks along it afterwards, loading a slot and then sending to the channel it found
 there, while a cleanup shifts the same backing array in place: after removing slot p of n, slots
 p..n-2 hold what slots p+1..n-1 held, and the last slot keeps its old content.
 */
module BroadcastRace {
  import opened StreamRegistry

  // The backing array after the cleanup of slot p.
  function Shifted<S>(q: seq<S>, p: nat): (r: seq<S>)
    requires p < |q|
    ensures |r| == |q|
  {
    q[..p] + q[p + 1..] + [q[|q| - 1]]
  }

  // The channels sent to when the cleanup comes after `loaded` slots have been loaded.
  function SentTo<S>(q: seq<S>, p: nat, loaded: nat): (r: seq<S>)
    requires p < |q| && loaded <= |q|
    ensures |r| == |q|
  {
    q[..loaded] + Shifted(q, p)[loaded..]
  }

  /** The in-place removal of `append(subs[:p], subs[p+1:]...)`. */
  method ShiftInPlace<S>(a: array<S>, p: nat)
    requires p < a.Length
    modifies a
    ensures a[..] == Shifted(old(a[..]), p)
  {
    ghost var q := a[..];
    for i := p to a.Length - 1
      invariant forall k :: 0 <= k < p || i <= k < a.Length ==> a[k] == q[k]
      invariant forall k :: p <= k < i ==> a[k] == q[k + 1]
    {
      a[i] := a[i + 1];
    }
  }

  function Count<S(==)>(q: seq<S>, x: S): nat {
    if q == [] then 0 else (if q[0] == x then 1 else 0) + Count(q[1..], x)
  }

  ghost predicate OnceEach<S>(q: seq<S>, p: nat, loaded: nat)
    requires p < |q| && loaded <= |q|
  {
    forall k :: 0 <= k < |q| && k != p ==> Count(SentTo(q, p, loaded), q[k]) == 1
  }

  lemma {:induction false} CountIsPositions<S>(q: seq<S>, x: S)
    ensures Count(q, x) == 0 <==> x !in q
    ensures (exists i, j :: 0 <= i < j < |q| && q[i] == x && q[j] == x) <==> Count(q, x) >= 2
  {
    if q != [] {
      CountIsPositions(q[1..], x);
      if exists i, j :: 0 <= i < j < |q| && q[i] == x && q[j] == x {
        var i, j :| 0 <= i < j < |q| && q[i] == x && q[j] == x;
        assert q[1..][j - 1] == x;
        if i > 0 { assert q[1..][i - 1] == x; }
      }
      if Count(q, x) >= 2 {
        if q[0] == x {
          var j :| 0 <= j < |q| - 1 && q[1..][j] == x;
          assert q[0] == x && q[j + 1] == x;
        } else {
          var i, j :| 0 <= i < j < |q| - 1 && q[1..][i] == x && q[1..][j] == x;
          assert q[i + 1] == x && q[j + 1] == x;
        }
      }
    }
  }

  /** Every remaining subscriber gets the event exactly once if and only if the removed slot was
      the last, or at most one slot was left to load. Otherwise the last subscriber gets it twice. */
  lemma OnceEachIff<S>(q: seq<S>, p: nat, loaded: nat)
    requires NoDuplicates(q) && p < |q| && loaded <= |q|
    ensures OnceEach(q, p, loaded) <==> p == |q| - 1 || loaded >= |q| - 1
  {
    var n, r := |q|, SentTo(q, p, loaded);
    if p == n - 1 || loaded >= n - 1 {
      assert r == q by {
        forall k | 0 <= k < n ensures r[k] == q[k] {
          if k >= loaded { assert r[k] == Shifted(q, p)[k]; }
        }
      }
      forall k | 0 <= k < n && k != p ensures Count(r, q[k]) == 1 { CountIsPositions(q, q[k]); }
    } else {
      assert r[n - 2] == Shifted(q, p)[n - 2] == q[n - 1];
      assert r[n - 1] == Shifted(q, p)[n - 1] == q[n - 1];
      CountIsPositions(r, q[n - 1]);
      assert Count(r, q[n - 1]) >= 2;
    }
  }

  /** A send that comes after the cleanup, `sent` sends having been made before it, goes to the removed
      channel -- which its handler closes right afterwards, so that the send panics -- exactly when
      its slot had been loaded and not yet sent to, or it was the last slot and not yet loaded. */
  lemma ReachesRemovedIff<S>(q: seq<S>, p: nat, sent: nat, loaded: nat)
    requires NoDuplicates(q) && p < |q| && sent <= loaded <= sent + 1 && loaded <= |q|
    ensures q[p] in SentTo(q, p, loaded)[sent..] <==>
            (loaded == sent + 1 && p == sent) || (p == |q| - 1 && loaded < |q|)
  {
    var n, r := |q|, SentTo(q, p, loaded);
    var s := r[sent..];
    if loaded == sent + 1 { assert s[0] == r[sent] == q[sent]; }
    if p == n - 1 && loaded < n {
      assert s[n - 1 - sent] == r[n - 1] == q[p];
    } else {
      forall k | loaded <= k < n ensures r[k] != q[p] {
        assert r[k] == Shifted(q, p)[k] == if k < p then q[k] else if k < n - 1 then q[k + 1] else q[n - 1];
      }
    }
    if q[p] in s {
      var k :| 0 <= k < |s| && s[k] == q[p];
      assert r[k + sent] == q[p];
    }
  }

  /** Three subscribers, one slot loaded, the first cleaned up: the second misses the event and the
      third gets it twice. */
  lemma MissedAndDoubled()
    ensures SentTo([1, 2, 3], 0, 1) == [1, 3, 3]
    ensures Count(SentTo([1, 2, 3], 0, 1), 2) == 0 && Count(SentTo([1, 2, 3], 0, 1), 3) == 2
  {
    assert SentTo([1, 2, 3], 0, 1) == [1, 3, 3];
    CountIsPositions([1, 3, 3], 2);
    assert [1, 3, 3][1..] == [3, 3] && [3, 3][1..] == [3] && [3][1..] == [];
  }

  /** Two subscribers: the first is cleaned up between the load of its slot and the send, or the second
      after the first send; either way a send to the removed channel is still to come. */
  lemma RemovedIsReached()
    ensures SentTo([1, 2], 0, 1)[0..] == [1, 2] && SentTo([1, 2], 1, 1)[1..] == [2]
  {
    assert Shifted([1, 2], 0) == [2, 2] && Shifted([1, 2], 1) == [1, 2];
  }
}
