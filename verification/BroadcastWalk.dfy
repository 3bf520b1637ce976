/**
 A broadcast walking along a backing array while any number of cleanups and registrations change it:
 cleanups shift it in place, and a registration reuses the slot behind the list, or moves the list
 to a new array, which the walk does not follow.
 */
module BroadcastWalk {
  import opened BroadcastRace
  import opened Options
  import opened StreamRegistry

  // The backing array, the length of the list in it, and the walk: the slots before `next` are loaded,
  // `hand` is loaded but not sent to.
  datatype State<S(==)> = State(
    slots: seq<S>, len: nat, moved: bool, next: nat, hand: Option<S>, sent: seq<S>)

  datatype Step<S> =
    | Load
    | Send
    | Remove(p: nat)
    | Append(x: S)

  // `width` is the length of the list when the walk began.
  predicate Enabled<S(==)>(width: nat, s: State<S>, t: Step<S>) {
    match t
    case Load => s.hand.None? && width <= |s.slots| && s.next < width
    case Send => s.hand.Some?
    case Remove(p) => !s.moved && p < s.len <= |s.slots|
    case Append(_) => !s.moved && s.len <= |s.slots|
  }

  // Once the list has moved, what happens to it no longer concerns the walk.
  function Next<S(==)>(width: nat, s: State<S>, t: Step<S>): State<S>
    requires Enabled(width, s, t)
  {
    match t
    case Load => s.(hand := Some(s.slots[s.next]), next := s.next + 1)
    case Send => s.(hand := None, sent := s.sent + [s.hand.value])
    case Remove(p) => s.(slots := Shift(s.slots, p, s.len), len := s.len - 1)
    case Append(x) =>
      if s.len < |s.slots| then s.(slots := s.slots[s.len := x], len := s.len + 1) else s.(moved := true)
  }

  // Slot p goes, the rest of the list of length `len` moves down by one; what is behind it stays.
  function Shift<S>(a: seq<S>, p: nat, len: nat): (r: seq<S>)
    requires p < len <= |a|
    ensures |r| == |a|
  {
    seq(|a|, k requires 0 <= k < |a| => if p <= k < len - 1 then a[k + 1] else a[k])
  }

  ghost predicate Moves<S>(width: nat, s: State<S>, t: Step<S>, s': State<S>) {
    Enabled(width, s, t) && s' == Next(width, s, t)
  }

  ghost predicate Run<S>(width: nat, states: seq<State<S>>, steps: seq<Step<S>>) {
    && |states| == |steps| + 1 && width <= |states[0].slots| && states[0].next <= width
    && forall i :: 0 <= i < |steps| ==> Moves(width, states[i], steps[i], states[i + 1])
  }

  /** A registration moves the list to a new array exactly if the old one is full. */
  lemma MovesIff<S>(width: nat, s: State<S>, x: S)
    requires !s.moved && s.len <= |s.slots|
    ensures Enabled(width, s, Append(x))
    ensures Next(width, s, Append(x)).moved <==> s.len == |s.slots|
  {
  }

  /** From then on nothing that happens to the list reaches the walk. */
  lemma {:induction false} OutOfReach<S>(width: nat, states: seq<State<S>>, steps: seq<Step<S>>, i: nat, j: nat)
    requires Run(width, states, steps) && i <= j < |states| && states[i].moved
    ensures states[j].moved && states[j].slots == states[i].slots
    decreases j
  {
    if i < j {
      OutOfReach(width, states, steps, i, j - 1);
      assert Moves(width, states[j - 1], steps[j - 1], states[j]);
    }
  }

  // ---------- how often a channel is still to come ----------

  // In how many slots ahead of the walk a channel stands.
  function Ahead<S(==)>(width: nat, s: State<S>, x: S): nat {
    if s.next <= width <= |s.slots| then Count(s.slots[s.next..width], x) else 0
  }

  function Got<S(==)>(s: State<S>, x: S): nat {
    Count(s.sent, x) + if s.hand == Some(x) then 1 else 0
  }

  function Is<S(==)>(a: S, x: S): int {
    if a == x then 1 else 0
  }

  function Min(a: nat, b: nat): nat {
    if a < b then a else b
  }

  // What a shift changes in the slots from `from` up to `to`.
  function ShiftChange<S(==)>(a: seq<S>, p: nat, len: nat, from: nat, to: nat, x: S): int
    requires p < len <= |a| && to <= |a|
  {
    var first := if p < from then from else p;
    if first < Min(len, to) then Is(a[if len <= to then len - 1 else to], x) - Is(a[first], x) else 0
  }

  /** What a step changes for channel x. A removal takes away the first slot ahead of the walk that is
      part of the shifted stretch -- the removed one, or the next to be loaded if the removed one lies
      behind -- and leaves a second copy of the last subscriber, or brings in the one behind the end
      of the walk. A registration overwrites the slot behind the list, if that lies ahead. */
  function Change<S(==)>(width: nat, s: State<S>, t: Step<S>, x: S): int
    requires Enabled(width, s, t) && width <= |s.slots|
  {
    match t
    case Remove(p) => ShiftChange(s.slots, p, s.len, s.next, width, x)
    case Append(y) =>
      if s.next <= s.len < width then Is(y, x) - Is(s.slots[s.len], x) else 0
    case _ => 0
  }

  lemma {:induction false} CountConcat<S>(a: seq<S>, b: seq<S>, x: S)
    ensures Count(a + b, x) == Count(a, x) + Count(b, x)
    decreases |a|
  {
    if a == [] {
      assert a + b == b;
    } else {
      assert (a + b)[1..] == a[1..] + b;
      CountConcat(a[1..], b, x);
    }
  }

  lemma CountOne<S>(a: S, x: S)
    ensures Count([a], x) == Is(a, x)
  {
    assert [a][1..] == [];
  }

  // Replacing the first of some slots by one more at the end.
  lemma CountShifted<S>(w: seq<S>, y: S, x: S)
    requires w != []
    ensures Count(w[1..] + [y], x) == Count(w, x) - Is(w[0], x) + Is(y, x)
  {
    CountConcat(w[1..], [y], x);
    CountOne(y, x);
  }

  lemma CountSplit<S>(a: seq<S>, i: nat, j: nat, k: nat, l: nat, x: S)
    requires i <= j <= k <= l <= |a|
    ensures Count(a[i..l], x) == Count(a[i..j], x) + Count(a[j..k], x) + Count(a[k..l], x)
  {
    assert a[i..l] == a[i..j] + a[j..l] && a[j..l] == a[j..k] + a[k..l];
    CountConcat(a[i..j], a[j..l], x);
    CountConcat(a[j..k], a[k..l], x);
  }

  // Two arrays that differ in a stretch only, which lost its first slot and gained one at its end.
  lemma StretchShifted<S>(a: seq<S>, b: seq<S>, from: nat, first: nat, end: nat, to: nat, x: S)
    requires from <= first < end <= to <= |a| == |b|
    requires forall k :: from <= k < first || end <= k < to ==> b[k] == a[k]
    requires forall k :: first <= k < end - 1 ==> b[k] == a[k + 1]
    ensures Count(b[from..to], x) == Count(a[from..to], x) - Is(a[first], x) + Is(b[end - 1], x)
  {
    CountSplit(a, from, first, end, to, x);
    CountSplit(b, from, first, end, to, x);
    assert b[from..first] == a[from..first] && b[end..to] == a[end..to];
    assert b[first..end] == a[first..end][1..] + [b[end - 1]];
    CountShifted(a[first..end], b[end - 1], x);
  }

  lemma StretchKept<S>(a: seq<S>, b: seq<S>, from: nat, to: nat, x: S)
    requires from <= to <= |a| == |b| && forall k :: from <= k < to ==> b[k] == a[k]
    ensures Count(b[from..to], x) == Count(a[from..to], x)
  {
    assert b[from..to] == a[from..to];
  }

  // Slot n is overwritten.
  lemma SlotWritten<S>(a: seq<S>, y: S, from: nat, n: nat, to: nat, x: S)
    requires from <= n < to <= |a|
    ensures Count(a[n := y][from..to], x) == Count(a[from..to], x) - Is(a[n], x) + Is(y, x)
  {
    var b := a[n := y];
    CountSplit(a, from, n, n + 1, to, x);
    CountSplit(b, from, n, n + 1, to, x);
    StretchKept(a, b, from, n, x);
    StretchKept(a, b, n + 1, to, x);
    assert a[n..n + 1] == [a[n]] && b[n..n + 1] == [y];
    CountOne(a[n], x);
    CountOne(y, x);
  }

  lemma ShiftChanges<S>(a: seq<S>, p: nat, len: nat, from: nat, to: nat, x: S)
    requires p < len <= |a| && from <= to <= |a|
    ensures Count(Shift(a, p, len)[from..to], x) == Count(a[from..to], x) + ShiftChange(a, p, len, from, to, x)
  {
    var b, first, end := Shift(a, p, len), if p < from then from else p, Min(len, to);
    if first < end {
      StretchShifted(a, b, from, first, end, to, x);
    } else {
      StretchKept(a, b, from, to, x);
    }
  }

  lemma RemoveChanges<S>(width: nat, s: State<S>, p: nat, x: S)
    requires Enabled(width, s, Remove(p)) && s.next <= width <= |s.slots|
    ensures Ahead(width, Next(width, s, Remove(p)), x) == Ahead(width, s, x) + Change(width, s, Remove(p), x)
  {
    ShiftChanges(s.slots, p, s.len, s.next, width, x);
  }

  lemma AppendChanges<S>(width: nat, s: State<S>, y: S, x: S)
    requires Enabled(width, s, Append(y)) && s.next <= width <= |s.slots|
    ensures Ahead(width, Next(width, s, Append(y)), x) == Ahead(width, s, x) + Change(width, s, Append(y), x)
  {
    if s.next <= s.len < width {
      SlotWritten(s.slots, y, s.next, s.len, width, x);
    } else if s.len < |s.slots| {
      StretchKept(s.slots, s.slots[s.len := y], s.next, width, x);
    }
  }

  lemma StepChanges<S>(width: nat, s: State<S>, t: Step<S>, s': State<S>, x: S)
    requires Moves(width, s, t, s') && s.next <= width <= |s.slots|
    ensures s'.next <= width <= |s'.slots|
    ensures Got(s', x) + Ahead(width, s', x) == Got(s, x) + Ahead(width, s, x) + Change(width, s, t, x)
  {
    match t
    case Load =>
      assert s.slots[s.next..width][1..] == s.slots[s.next + 1..width];
    case Send =>
      CountConcat(s.sent, [s.hand.value], x);
      CountOne(s.hand.value, x);
    case Remove(p) => RemoveChanges(width, s, p, x);
    case Append(y) => AppendChanges(width, s, y, x);
  }

  // The changes of the steps from i up to n.
  function Balance<S(==)>(width: nat, states: seq<State<S>>, steps: seq<Step<S>>, i: nat, n: nat, x: S): int
    requires i <= n <= |steps| < |states|
    decreases n
  {
    if i == n then 0
    else
      var s, t := states[n - 1], steps[n - 1];
      Balance(width, states, steps, i, n - 1, x)
      + (if Enabled(width, s, t) && width <= |s.slots| then Change(width, s, t, x) else 0)
  }

  lemma {:induction false} RunChanges<S>(width: nat, states: seq<State<S>>, steps: seq<Step<S>>, i: nat, n: nat, x: S)
    requires Run(width, states, steps) && i <= n < |states|
    ensures states[n].next <= width <= |states[n].slots|
    ensures Got(states[n], x) + Ahead(width, states[n], x)
         == Got(states[i], x) + Ahead(width, states[i], x) + Balance(width, states, steps, i, n, x)
    decreases n, i
  {
    if i < n {
      RunChanges(width, states, steps, i, n - 1, x);
      assert Moves(width, states[n - 1], steps[n - 1], states[n]);
      StepChanges(width, states[n - 1], steps[n - 1], states[n], x);
    } else if n > 0 {
      RunChanges(width, states, steps, n - 1, n - 1, x);
      assert Moves(width, states[n - 1], steps[n - 1], states[n]);
      StepChanges(width, states[n - 1], steps[n - 1], states[n], x);
    }
  }

  // The walk is over.
  predicate Over<S>(width: nat, s: State<S>) {
    s.next == width && s.hand.None?
  }

  // The walk begins: the list fills the array up to its width, no channel twice.
  ghost predicate Begins<S>(width: nat, s: State<S>) {
    && s.len == width <= |s.slots| && s.next == 0 && s.hand == None && s.sent == [] && !s.moved
    && NoDuplicates(s.slots[..width])
  }

  /** Whatever cleanups and registrations fall into the walk, a channel gets the event once if it was
      subscribed when the walk began, plus the balance of the changes -- so a subscriber gets it
      exactly once exactly if the balance is zero, and misses it exactly if the balance is -1. */
  lemma WalkDelivers<S>(width: nat, states: seq<State<S>>, steps: seq<Step<S>>, x: S)
    requires Run(width, states, steps) && Begins(width, states[0]) && Over(width, states[|steps|])
    ensures Count(states[|steps|].sent, x)
         == (if x in states[0].slots[..width] then 1 else 0) + Balance(width, states, steps, 0, |steps|, x)
  {
    var q := states[0].slots[..width];
    RunChanges(width, states, steps, 0, |steps|, x);
    CountIsPositions(q, x);
    assert states[0].slots[0..width] == q;
    assert states[|steps|].slots[width..width] == [];
  }

  /** From any moment on, for instance from the cleanup of a channel, the sends to it that are still to
      come are the one in hand, the copies ahead, and the balance of the changes that follow. */
  lemma SendsToCome<S>(width: nat, states: seq<State<S>>, steps: seq<Step<S>>, i: nat, x: S)
    requires Run(width, states, steps) && i < |states| && Over(width, states[|steps|])
    ensures Count(states[|steps|].sent, x) - Count(states[i].sent, x)
         == (if states[i].hand == Some(x) then 1 else 0) + Ahead(width, states[i], x)
            + Balance(width, states, steps, i, |steps|, x)
  {
    RunChanges(width, states, steps, i, |steps|, x);
    assert states[|steps|].slots[width..width] == [];
  }

  lemma {:induction false} NoRemovalNoChange<S>(width: nat, states: seq<State<S>>, steps: seq<Step<S>>, n: nat, x: S)
    requires Run(width, states, steps) && Begins(width, states[0]) && n < |states|
    requires forall k :: 0 <= k < |steps| ==> !steps[k].Remove?
    ensures width <= states[n].len && Balance(width, states, steps, 0, n, x) == 0
  {
    if n > 0 {
      NoRemovalNoChange(width, states, steps, n - 1, x);
      assert Moves(width, states[n - 1], steps[n - 1], states[n]);
    }
  }

  /** Registrations alone do no harm: without a cleanup in the walk, exactly the channels subscribed when
      it began get the event, each of them once. */
  lemma RegistrationsAreHarmless<S>(width: nat, states: seq<State<S>>, steps: seq<Step<S>>, x: S)
    requires Run(width, states, steps) && Begins(width, states[0]) && Over(width, states[|steps|])
    requires forall k :: 0 <= k < |steps| ==> !steps[k].Remove?
    ensures Count(states[|steps|].sent, x) == if x in states[0].slots[..width] then 1 else 0
  {
    NoRemovalNoChange(width, states, steps, |steps|, x);
    WalkDelivers(width, states, steps, x);
  }

  // Two subscribers; after the first send the first is cleaned up and a third registers.
  function Scene(k: nat): State<nat> {
    match k
    case 0 => State([1, 2], 2, false, 0, None, [])
    case 1 => State([1, 2], 2, false, 1, Some(1), [])
    case 2 => State([1, 2], 2, false, 1, None, [1])
    case 3 => State([2, 2], 1, false, 1, None, [1])
    case 4 => State([2, 3], 2, false, 1, None, [1])
    case 5 => State([2, 3], 2, false, 2, Some(3), [1])
    case _ => State([2, 3], 2, false, 2, None, [1, 3])
  }

  lemma SceneMoves(steps: seq<Step<nat>>, k: nat)
    requires steps == [Load, Send, Remove(0), Append(3), Load, Send] && k < 6
    ensures Moves(2, Scene(k), steps[k], Scene(k + 1))
  {
    if k == 2 { assert Shift([1, 2], 0, 2) == [2, 2]; }
  }

  /** In this run the walk goes on to the newcomer, and subscriber 2 misses the event. */
  lemma NewcomerInstead() returns (states: seq<State<nat>>, steps: seq<Step<nat>>)
    ensures Run(2, states, steps) && Begins(2, states[0]) && states[0].slots == [1, 2]
    ensures Over(2, states[|steps|]) && states[|steps|].sent == [1, 3]
  {
    steps := [Load, Send, Remove(0), Append(3), Load, Send];
    states := seq(7, k requires 0 <= k < 7 => Scene(k));
    forall k | 0 <= k < 6 ensures Moves(2, states[k], steps[k], states[k + 1]) { SceneMoves(steps, k); }
  }
}
