/**
 The poll loop of the monitor: once a second a contract's goroutine compares the head of the chain
 with the cursor of that chain and fetches the blocks between them in batches of five. Block
 numbers are 64-bit unsigned; one cursor per chain is shared by all contracts.
 */
module Polling {
  import opened EventStore
  import opened Numerals

  const BATCH: nat := 5

  // Unsigned 64-bit wrap-around.
  function Wrap(n: nat): nat {
    n % TWO_64
  }

  // The batches of one poll, as long as no number wraps around.
  function Batches(from: nat, head: nat): seq<Window>
    decreases if from > head then 0 else head - from + 1
  {
    if from > head then []
    else [Window(from, if from + BATCH - 1 > head then head else from + BATCH - 1)] + Batches(from + BATCH, head)
  }

  function Count(from: nat, head: nat): nat {
    if from > head then 0 else (head - from) / BATCH + 1
  }

  lemma {:induction false} BatchCount(from: nat, head: nat)
    ensures |Batches(from, head)| == Count(from, head)
    decreases if from > head then 0 else head - from + 1
  {
    if from <= head { BatchCount(from + BATCH, head); }
  }

  /** The k-th batch of a poll, outright. */
  lemma {:induction false} BatchAt(from: nat, head: nat, k: nat)
    requires k < Count(from, head)
    ensures |Batches(from, head)| == Count(from, head)
    ensures from + k * BATCH <= head
    ensures Batches(from, head)[k] ==
            Window(from + k * BATCH, if from + k * BATCH + BATCH - 1 > head then head else from + k * BATCH + BATCH - 1)
    decreases k
  {
    BatchCount(from, head);
    if k > 0 { BatchAt(from + BATCH, head, k - 1); }
  }

  // The loop variable after the last batch, computed without wrap-around.
  function Beyond(from: nat, head: nat): nat {
    from + Count(from, head) * BATCH
  }

  /** The loop variable of the source after k rounds. */
  function Position(from: nat, k: nat): nat {
    if k == 0 then from else Wrap(Position(from, k - 1) + BATCH)
  }

  /** Exactly when the block after the last batch fits into 64 bits, the loop stops after its last
      batch; otherwise it goes on with one of the first five blocks of the chain. */
  lemma LoopStopsIff(from: nat, head: nat)
    requires from <= head < TWO_64
    ensures Position(from, Count(from, head)) > head <==> Beyond(from, head) < TWO_64
    ensures Beyond(from, head) >= TWO_64 ==> Position(from, Count(from, head)) < BATCH
  {
    var n := Count(from, head);
    BatchAt(from, head, n - 1);
    PositionBeforeEnd(from, head, n - 1);
    assert Position(from, n) == Wrap(from + (n - 1) * BATCH + BATCH);
  }

  lemma {:induction false} PositionBeforeEnd(from: nat, head: nat, k: nat)
    requires from <= head < TWO_64 && k < Count(from, head)
    ensures Position(from, k) == from + k * BATCH <= head
  {
    BatchAt(from, head, k);
    if k > 0 { PositionBeforeEnd(from, head, k - 1); }
  }

  /** For instance, from the block before the last representable one the loop goes on at block 3. */
  lemma WrapsAround()
    ensures Position(TWO_64 - 2, 1) == 3 <= TWO_64 - 1
  {
    assert Position(TWO_64 - 2, 0) == TWO_64 - 2;
  }

  /** Six blocks below the top of the range is always enough. */
  lemma HeadsBelowTopAreSafe(from: nat, head: nat)
    requires from <= head <= TWO_64 - 6
    ensures Beyond(from, head) < TWO_64
  {
    BatchAt(from, head, Count(from, head) - 1);
  }

  // The bounds reach the query as signed 64-bit numbers; they must still mean the same.
  predicate AskedAsMeant(w: Window) {
    w.from >= 0 && w.to >= 0 && ToInt(w.from) == w.from && ToInt(w.to) == w.to
  }

  /** All queries of a poll ask for the blocks that are meant, exactly when the head is below 2^63. */
  lemma QueriesAreTrueIff(from: nat, head: nat)
    requires from <= head < TWO_64
    ensures (forall w :: w in Batches(from, head) ==> AskedAsMeant(w)) <==> head < TWO_63
  {
    var n, ws := Count(from, head), Batches(from, head);
    BatchAt(from, head, n - 1);
    if head < TWO_63 {
      forall w | w in ws ensures AskedAsMeant(w) {
        var k :| 0 <= k < |ws| && ws[k] == w;
        BatchAt(from, head, k);
      }
    } else {
      assert ws[n - 1] in ws && ws[n - 1].to == head;
    }
  }

  /** At head 2^63 the query asks for block -2^63. */
  lemma HeadTooHigh()
    ensures Batches(TWO_63, TWO_63) == [Window(TWO_63, TWO_63)]
    ensures ToInt(TWO_63) == 0 - TWO_63 && !AskedAsMeant(Window(TWO_63, TWO_63))
  {
    assert Batches(TWO_63 + BATCH, TWO_63) == [];
  }

  // ---------- one poll ----------

  // The batches whose query succeeded.
  function Good(ws: seq<Window>, ok: nat -> bool): seq<Window> {
    if ws == [] then []
    else Good(ws[..|ws| - 1], ok) + (if ok(|ws| - 1) then [ws[|ws| - 1]] else [])
  }

  function Advance(cursor: nat, good: seq<Window>): int {
    if good == [] then cursor else good[|good| - 1].to
  }

  class Monitor {
    var lastBlocks: map<int, nat>

    constructor ()
      ensures lastBlocks == map[] && forall chain :: Cursor(chain) == 0
    {
      lastBlocks := map[];
    }

    function Cursor(chain: int): nat
      reads this
    {
      if chain in lastBlocks then lastBlocks[chain] else 0
    }

    /** A contract that starts being monitored sets the cursor of its chain only if there is none. */
    method Begin(chain: int, latest: nat)
      modifies this
      ensures lastBlocks == if chain in old(lastBlocks) then old(lastBlocks) else old(lastBlocks)[chain := latest]
    {
      if chain !in lastBlocks { lastBlocks := lastBlocks[chain := latest]; }
    }

    /** One tick: the batches above the cursor are fetched in order, a failed one is skipped, and
        the cursor ends at the last one that succeeded. */
    method Poll(chain: int, head: nat, ok: nat -> bool) returns (fetched: seq<Window>)
      requires head < TWO_64 && Cursor(chain) < TWO_64
      requires head > Cursor(chain) ==> Beyond(Cursor(chain) + 1, head) < TWO_64
      modifies this
      ensures fetched == Done(old(Cursor(chain)), Tick(head, ok))
      ensures Cursor(chain) == Next(old(Cursor(chain)), Tick(head, ok))
      ensures forall c :: c != chain ==> Cursor(c) == old(Cursor(c))
    {
      var last := Cursor(chain);
      fetched := [];
      if head > last { fetched := FetchBatches(chain, head, ok); }
    }

    method FetchBatches(chain: int, head: nat, ok: nat -> bool) returns (fetched: seq<Window>)
      requires Cursor(chain) < head < TWO_64 && Beyond(Cursor(chain) + 1, head) < TWO_64
      modifies this
      ensures fetched == Good(Batches(old(Cursor(chain)) + 1, head), ok)
      ensures Cursor(chain) == Advance(old(Cursor(chain)), fetched)
      ensures forall c :: c != chain ==> Cursor(c) == old(Cursor(c))
    {
      var last := Cursor(chain);
      var from: nat := Wrap(last + 1);
      var k: nat := 0;
      ghost var ws := Batches(last + 1, head);
      fetched := [];
      FirstRound(last + 1, head);
      while from <= head
        invariant At(last + 1, head, k, from)
        invariant fetched == Good(ws[..k], ok)
        invariant Cursor(chain) == Advance(last, fetched)
        invariant forall c :: c != chain ==> Cursor(c) == old(Cursor(c))
        decreases |ws| - k
      {
        PollRound(last + 1, head, k, from, ok);
        var to := Wrap(from + BATCH - 1);
        if to > head { to := head; }
        if ok(k) {
          fetched := fetched + [Window(from, to)];
          lastBlocks := lastBlocks[chain := to];
        }
        from := Wrap(from + BATCH);
        k := k + 1;
      }
      assert ws[..k] == ws;
    }
  }

  // The loop of a poll stands before round k.
  ghost predicate At(first: nat, head: nat, k: nat, from: nat) {
    && k <= |Batches(first, head)| && from == first + k * BATCH < TWO_64
    && (from <= head <==> k < |Batches(first, head)|)
  }

  lemma FirstRound(first: nat, head: nat)
    requires first <= head < TWO_64
    ensures Wrap(first) == first && At(first, head, 0, first)
  {
    BatchCount(first, head);
  }

  lemma PollRound(first: nat, head: nat, k: nat, from: nat, ok: nat -> bool)
    requires At(first, head, k, from) && from <= head < TWO_64 && Beyond(first, head) < TWO_64
    ensures At(first, head, k + 1, Wrap(from + BATCH))
    ensures
      var ws, to := Batches(first, head), if Wrap(from + BATCH - 1) > head then head else Wrap(from + BATCH - 1);
      Good(ws[..k + 1], ok) == Good(ws[..k], ok) + (if ok(k) then [Window(from, to)] else [])
  {
    var ws := Batches(first, head);
    BatchCount(first, head);
    BatchAt(first, head, k);
    NoWrap(first, head, k);
    assert ws[..k + 1][..k] == ws[..k];
  }

  lemma NoWrap(first: nat, head: nat, k: nat)
    requires k < Count(first, head) && Beyond(first, head) < TWO_64
    ensures
      var next := first + k * BATCH + BATCH;
      && next < TWO_64 && Wrap(next) == next && Wrap(next - 1) == next - 1
      && (next <= head <==> k + 1 < Count(first, head))
  {
  }

  // ---------- whole runs of one contract ----------

  // One tick: the head seen, and which of its batches succeed.
  datatype Tick = Tick(head: nat, ok: nat -> bool)

  function Done(cursor: nat, t: Tick): seq<Window> {
    Good(Batches(cursor + 1, t.head), t.ok)
  }

  function Next(cursor: nat, t: Tick): nat {
    var a := Advance(cursor, Done(cursor, t));
    if a >= 0 then a else 0
  }

  function CursorAfter(cursor: nat, ticks: seq<Tick>): nat
    decreases |ticks|
  {
    if ticks == [] then cursor else CursorAfter(Next(cursor, ticks[0]), ticks[1..])
  }

  function Polled(cursor: nat, ticks: seq<Tick>): seq<Window>
    decreases |ticks|
  {
    if ticks == [] then [] else Done(cursor, ticks[0]) + Polled(Next(cursor, ticks[0]), ticks[1..])
  }

  // Windows of at most five blocks that follow each other and tile the blocks after `low` up to `high`.
  ghost predicate Tiles(ws: seq<Window>, low: int, high: int) {
    && (forall i :: 0 <= i < |ws| ==> ws[i].from <= ws[i].to < ws[i].from + BATCH)
    && (forall i :: 0 < i < |ws| ==> ws[i].from == ws[i - 1].to + 1)
    && (if ws == [] then low == high else ws[0].from == low + 1 && ws[|ws| - 1].to == high)
  }

  function Highest(cursor: nat, ticks: seq<Tick>): nat
    decreases |ticks|
  {
    if ticks == [] then cursor
    else Highest(if ticks[0].head > cursor then ticks[0].head else cursor, ticks[1..])
  }

  lemma {:induction false} AllGood(ws: seq<Window>, ok: nat -> bool)
    requires forall k :: 0 <= k < |ws| ==> ok(k)
    ensures Good(ws, ok) == ws
    decreases |ws|
  {
    if ws != [] { AllGood(ws[..|ws| - 1], ok); }
  }

  lemma BatchesTile(from: nat, head: nat)
    requires from <= head + 1
    ensures Tiles(Batches(from, head), from - 1, head)
  {
    var ws, n := Batches(from, head), Count(from, head);
    BatchCount(from, head);
    forall i | 0 <= i < n
      ensures ws[i].from == from + i * BATCH && ws[i].from <= ws[i].to < ws[i].from + BATCH
      ensures ws[i].to == if i + 1 < n then from + i * BATCH + BATCH - 1 else head
    {
      BatchAt(from, head, i);
      if i + 1 < n { BatchAt(from, head, i + 1); }
    }
  }

  lemma TilesConcat(a: seq<Window>, b: seq<Window>, low: int, mid: int, high: int)
    requires Tiles(a, low, mid) && Tiles(b, mid, high)
    ensures Tiles(a + b, low, high)
  {
  }

  lemma TickTiles(cursor: nat, t: Tick)
    requires forall k :: 0 <= k ==> t.ok(k)
    ensures Next(cursor, t) == (if t.head > cursor then t.head else cursor)
    ensures Tiles(Done(cursor, t), cursor, Next(cursor, t))
  {
    AllGood(Batches(cursor + 1, t.head), t.ok);
    if t.head > cursor { BatchesTile(cursor + 1, t.head); }
  }

  /** Without failing queries and whatever heads are seen, going up or down, the windows fetched
      over a whole run are consecutive, at most five blocks each, and tile exactly the blocks
      after the initial one up to the cursor, which is the highest head seen so far. */
  lemma {:induction false} PollsTile(cursor: nat, ticks: seq<Tick>)
    requires forall i, k :: 0 <= i < |ticks| && 0 <= k ==> ticks[i].ok(k)
    ensures CursorAfter(cursor, ticks) == Highest(cursor, ticks)
    ensures Tiles(Polled(cursor, ticks), cursor, CursorAfter(cursor, ticks))
    decreases |ticks|
  {
    if ticks != [] {
      var t := ticks[0];
      TickTiles(cursor, t);
      PollsTile(Next(cursor, t), ticks[1..]);
      TilesConcat(Done(cursor, t), Polled(Next(cursor, t), ticks[1..]), cursor, Next(cursor, t), CursorAfter(cursor, ticks));
    }
  }

  /** A tiling contains each block exactly once. */
  lemma {:induction false} TilesOnce(ws: seq<Window>, low: int, high: int, b: int)
    requires Tiles(ws, low, high)
    ensures low <= high
    ensures low < b <= high <==> Covered(ws, b)
    ensures forall i, j :: 0 <= i < j < |ws| && ws[i].from <= b <= ws[i].to ==> !(ws[j].from <= b <= ws[j].to)
    decreases |ws|
  {
    if ws != [] {
      var n := |ws| - 1;
      var rest := ws[..n];
      TilesOnce(rest, low, ws[n].from - 1, b);
      assert forall i :: 0 <= i < n ==> rest[i] == ws[i];
      if Covered(rest, b) {
        var i :| 0 <= i < n && rest[i].from <= b <= rest[i].to;
        assert ws[i].from <= b <= ws[i].to;
      }
      assert ws[n].from <= b <= ws[n].to ==> Covered(ws, b);
      forall i, j | 0 <= i < j < |ws| && ws[i].from <= b <= ws[i].to ensures !(ws[j].from <= b <= ws[j].to) {
        if j < n { assert rest[i] == ws[i] && rest[j] == ws[j]; } else { assert Covered(rest, b) by { assert rest[i] == ws[i]; } }
      }
    }
  }

  // ---------- failing queries ----------

  // No batch of this tick fails before one that succeeds.
  ghost predicate NoneSkipped(cursor: nat, t: Tick) {
    forall i, j :: 0 <= i < j < Count(cursor + 1, t.head) && t.ok(j) ==> t.ok(i)
  }

  ghost predicate NeverSkips(cursor: nat, ticks: seq<Tick>)
    decreases |ticks|
  {
    ticks == [] || (NoneSkipped(cursor, ticks[0]) && NeverSkips(Next(cursor, ticks[0]), ticks[1..]))
  }

  lemma {:induction false} GoodCovered(ws: seq<Window>, ok: nat -> bool, b: int)
    ensures Covered(Good(ws, ok), b) <==> exists k :: 0 <= k < |ws| && ok(k) && ws[k].from <= b <= ws[k].to
    decreases |ws|
  {
    if ws != [] {
      var n := |ws| - 1;
      GoodCovered(ws[..n], ok, b);
      var g, tail := Good(ws[..n], ok), if ok(n) then [ws[n]] else [];
      CoveredConcat(g, tail, b);
      assert Covered([ws[n]], b) <==> ws[n].from <= b <= ws[n].to by {
        if ws[n].from <= b <= ws[n].to { assert [ws[n]][0] == ws[n]; }
      }
      if k :| 0 <= k < |ws| && ok(k) && ws[k].from <= b <= ws[k].to {
        if k < n { assert ws[..n][k] == ws[k]; }
      }
      if k :| 0 <= k < n && ok(k) && ws[..n][k].from <= b <= ws[..n][k].to {
        assert ws[k] == ws[..n][k];
      }
    }
  }

  lemma CoveredConcat(a: seq<Window>, c: seq<Window>, b: int)
    ensures Covered(a + c, b) <==> Covered(a, b) || Covered(c, b)
  {
    var s := a + c;
    if Covered(a, b) {
      var i :| 0 <= i < |a| && a[i].from <= b <= a[i].to;
      assert s[i] == a[i];
    }
    if Covered(c, b) {
      var i :| 0 <= i < |c| && c[i].from <= b <= c[i].to;
      assert s[|a| + i] == c[i];
    }
    if Covered(s, b) {
      var i :| 0 <= i < |s| && s[i].from <= b <= s[i].to;
      assert s[i] == if i < |a| then a[i] else c[i - |a|];
    }
  }

  ghost predicate Inside(ws: seq<Window>, low: int, high: int) {
    forall b :: Covered(ws, b) ==> low < b <= high
  }

  ghost predicate Full(ws: seq<Window>, low: int, high: int) {
    forall b :: low < b <= high ==> Covered(ws, b)
  }

  lemma FullConcat(a: seq<Window>, c: seq<Window>, low: int, mid: int, high: int)
    requires low <= mid <= high && Inside(a, low, mid) && Inside(c, mid, high)
    ensures Inside(a + c, low, high)
    ensures Full(a + c, low, high) <==> Full(a, low, mid) && Full(c, mid, high)
  {
    forall b ensures Covered(a + c, b) <==> Covered(a, b) || Covered(c, b) { CoveredConcat(a, c, b); }
    if Full(a + c, low, high) {
      forall b | low < b <= mid ensures Covered(a, b) { assert Covered(a + c, b); }
      forall b | mid < b <= high ensures Covered(c, b) { assert Covered(a + c, b); }
    }
  }

  // The last batch that succeeded decides the cursor.
  lemma {:induction false} LastGood(ws: seq<Window>, ok: nat -> bool) returns (m: int)
    ensures -1 <= m < |ws|
    ensures forall k :: m < k < |ws| ==> !ok(k)
    ensures Good(ws, ok) == [] <==> m == -1
    ensures m >= 0 ==> ok(m) && Good(ws, ok)[|Good(ws, ok)| - 1] == ws[m]
    decreases |ws|
  {
    if ws == [] {
      m := -1;
    } else if ok(|ws| - 1) {
      m := |ws| - 1;
    } else {
      m := LastGood(ws[..|ws| - 1], ok);
    }
  }

  // What one tick fetches lies between the old and the new cursor.
  lemma TickStaysInside(cursor: nat, t: Tick, b: int)
    ensures cursor <= Next(cursor, t)
    ensures Covered(Done(cursor, t), b) ==> cursor < b <= Next(cursor, t)
  {
    var ws := Batches(cursor + 1, t.head);
    var m := LastGood(ws, t.ok);
    BatchCount(cursor + 1, t.head);
    GoodCovered(ws, t.ok, b);
    if m >= 0 { BatchAt(cursor + 1, t.head, m); }
    if k :| 0 <= k < |ws| && t.ok(k) && ws[k].from <= b <= ws[k].to {
      BatchAt(cursor + 1, t.head, k);
    }
  }

  // A batch that succeeds moves the cursor at least to its first block.
  lemma CursorPasses(cursor: nat, t: Tick, j: nat)
    requires j < Count(cursor + 1, t.head) && t.ok(j)
    ensures cursor + 1 + j * BATCH <= Next(cursor, t)
  {
    var ws := Batches(cursor + 1, t.head);
    BatchCount(cursor + 1, t.head);
    var m := LastGood(ws, t.ok);
    BatchAt(cursor + 1, t.head, m);
  }

  lemma SkippedBlock(cursor: nat, t: Tick, i: nat, j: nat)
    requires i < j < Count(cursor + 1, t.head) && t.ok(j) && !t.ok(i)
    ensures
      var b := cursor + 1 + i * BATCH;
      cursor < b <= Next(cursor, t) && !Covered(Done(cursor, t), b)
  {
    var ws, b := Batches(cursor + 1, t.head), cursor + 1 + i * BATCH;
    CursorPasses(cursor, t, j);
    BatchCount(cursor + 1, t.head);
    GoodCovered(ws, t.ok, b);
    forall k | 0 <= k < |ws| && t.ok(k) ensures !(ws[k].from <= b <= ws[k].to) {
      BatchAt(cursor + 1, t.head, k);
      Apart(cursor + 1, i, k);
    }
  }

  lemma Apart(first: nat, i: nat, k: nat)
    requires i != k
    ensures first + i * BATCH < first + k * BATCH || first + k * BATCH + BATCH - 1 < first + i * BATCH
  {
  }

  lemma NothingSkipped(cursor: nat, t: Tick, b: int)
    requires NoneSkipped(cursor, t) && cursor < b <= Next(cursor, t)
    ensures Covered(Done(cursor, t), b)
  {
    var ws, k := Batches(cursor + 1, t.head), (b - cursor - 1) / BATCH;
    var m := LastGood(ws, t.ok);
    BatchCount(cursor + 1, t.head);
    BatchAt(cursor + 1, t.head, m);
    BatchAt(cursor + 1, t.head, k);
    GoodCovered(ws, t.ok, b);
    assert ws[k].from <= b <= ws[k].to && t.ok(k);
  }

  lemma TickFullIff(cursor: nat, t: Tick)
    ensures cursor <= Next(cursor, t)
    ensures Inside(Done(cursor, t), cursor, Next(cursor, t))
    ensures Full(Done(cursor, t), cursor, Next(cursor, t)) <==> NoneSkipped(cursor, t)
  {
    TickStaysInside(cursor, t, 0);
    forall b | Covered(Done(cursor, t), b) ensures cursor < b <= Next(cursor, t) { TickStaysInside(cursor, t, b); }
    if NoneSkipped(cursor, t) {
      forall b | cursor < b <= Next(cursor, t) ensures Covered(Done(cursor, t), b) { NothingSkipped(cursor, t, b); }
    } else {
      var i, j :| 0 <= i < j < Count(cursor + 1, t.head) && t.ok(j) && !t.ok(i);
      SkippedBlock(cursor, t, i, j);
    }
  }

  /** With failing queries, the blocks up to the cursor have all been fetched exactly when, in every
      poll, no batch failed before one that succeeded: such a batch is never asked for again. */
  lemma {:induction false} FetchedAllIff(cursor: nat, ticks: seq<Tick>)
    ensures cursor <= CursorAfter(cursor, ticks)
    ensures Inside(Polled(cursor, ticks), cursor, CursorAfter(cursor, ticks))
    ensures Full(Polled(cursor, ticks), cursor, CursorAfter(cursor, ticks)) <==> NeverSkips(cursor, ticks)
    decreases |ticks|
  {
    if ticks != [] {
      var next := Next(cursor, ticks[0]);
      TickFullIff(cursor, ticks[0]);
      FetchedAllIff(next, ticks[1..]);
      FullConcat(Done(cursor, ticks[0]), Polled(next, ticks[1..]), cursor, next, CursorAfter(cursor, ticks));
    }
  }

  lemma SecondBatchOnly()
    ensures
      var t := Tick(7, k => k == 1);
      Done(0, t) == [Window(6, 7)] && Next(0, t) == 7
  {
    var t, ws := Tick(7, k => k == 1), [Window(1, 5), Window(6, 7)];
    assert Batches(6, 7) == [Window(6, 7)] + Batches(11, 7) == [Window(6, 7)];
    assert Batches(1, 7) == [Window(1, 5)] + Batches(6, 7) == ws;
    assert ws[..1] == [Window(1, 5)] && ws[..1][..0] == [];
    assert Good(ws[..1], t.ok) == [] && Good(ws, t.ok) == Good(ws[..1], t.ok) + [Window(6, 7)];
  }

  /** For instance: the head at 7, the first of two batches fails. Block 1 is never asked for again. */
  lemma FirstBatchFails(ticks: seq<Tick>)
    ensures
      var run := [Tick(7, k => k == 1)] + ticks;
      CursorAfter(0, run) >= 7 && !Covered(Polled(0, run), 1)
  {
    var t := Tick(7, k => k == 1);
    SecondBatchOnly();
    FetchedAllIff(7, ticks);
    CoveredConcat(Done(0, t), Polled(7, ticks), 1);
    assert ([t] + ticks)[1..] == ticks;
  }

  // ---------- several contracts, one cursor ----------

  // A poll of one contract, all queries succeeding.
  datatype Turn = Turn(contract: string, head: nat)

  function Plain(turn: Turn): Tick {
    Tick(turn.head, _ => true)
  }

  function SharedCursor(cursor: nat, turns: seq<Turn>): nat
    decreases |turns|
  {
    if turns == [] then cursor else SharedCursor(Next(cursor, Plain(turns[0])), turns[1..])
  }

  // What contract c fetches in this turn.
  function Own(c: string, cursor: nat, turn: Turn): seq<Window> {
    if turn.contract == c then Done(cursor, Plain(turn)) else []
  }

  function OwnWindows(c: string, cursor: nat, turns: seq<Turn>): seq<Window>
    decreases |turns|
  {
    if turns == [] then []
    else
      Own(c, cursor, turns[0]) + OwnWindows(c, Next(cursor, Plain(turns[0])), turns[1..])
  }

  // Whenever the shared cursor moved, it was this contract that moved it.
  predicate AlwaysMoves(c: string, cursor: nat, turns: seq<Turn>)
    decreases |turns|
  {
    turns == [] ||
    ((turns[0].head > cursor ==> turns[0].contract == c) && AlwaysMoves(c, Next(cursor, Plain(turns[0])), turns[1..]))
  }

  lemma TilesFull(ws: seq<Window>, low: int, high: int)
    requires Tiles(ws, low, high)
    ensures low <= high && Inside(ws, low, high) && Full(ws, low, high)
  {
    TilesOnce(ws, low, high, 0);
    forall b ensures Covered(ws, b) <==> low < b <= high { TilesOnce(ws, low, high, b); }
  }

  lemma TurnFullIff(c: string, cursor: nat, turn: Turn)
    ensures cursor <= Next(cursor, Plain(turn))
    ensures Inside(Own(c, cursor, turn), cursor, Next(cursor, Plain(turn)))
    ensures Full(Own(c, cursor, turn), cursor, Next(cursor, Plain(turn)))
            <==> (turn.head > cursor ==> turn.contract == c)
  {
    var next := Next(cursor, Plain(turn));
    TickTiles(cursor, Plain(turn));
    TilesFull(Done(cursor, Plain(turn)), cursor, next);
    if turn.contract != c {
      assert Own(c, cursor, turn) == [];
      assert !Covered(Own(c, cursor, turn), next);
    }
  }

  /** A contract has seen all blocks up to the cursor of its chain exactly when no other contract of
      that chain ever moved the cursor. */
  lemma {:induction false} SeesEverythingIff(c: string, cursor: nat, turns: seq<Turn>)
    ensures cursor <= SharedCursor(cursor, turns)
    ensures Inside(OwnWindows(c, cursor, turns), cursor, SharedCursor(cursor, turns))
    ensures Full(OwnWindows(c, cursor, turns), cursor, SharedCursor(cursor, turns)) <==> AlwaysMoves(c, cursor, turns)
    decreases |turns|
  {
    if turns != [] {
      var next := Next(cursor, Plain(turns[0]));
      TurnFullIff(c, cursor, turns[0]);
      SeesEverythingIff(c, next, turns[1..]);
      FullConcat(Own(c, cursor, turns[0]), OwnWindows(c, next, turns[1..]), cursor, next, SharedCursor(cursor, turns));
    }
  }

  /** For instance: one contract polls up to block 3, then another comes with the same head. */
  lemma ComesTooLate()
    ensures
      var turns := [Turn("a", 3), Turn("b", 3)];
      SharedCursor(0, turns) == 3 && !Covered(OwnWindows("b", 0, turns), 3)
  {
    var turns, rest := [Turn("a", 3), Turn("b", 3)], [Turn("b", 3)];
    assert turns[1..] == rest && rest[1..] == [];
    TickTiles(0, Plain(turns[0]));
    TickTiles(3, Plain(rest[0]));
    assert Own("b", 0, turns[0]) == [] && Done(3, Plain(rest[0])) == [];
    assert OwnWindows("b", 0, turns) == [] + OwnWindows("b", 3, rest);
    assert OwnWindows("b", 3, rest) == [] + OwnWindows("b", 3, []);
  }
}
