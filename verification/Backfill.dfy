/**
 The backfill loop of the event listener: it asks for chunks of 2001 blocks from the start
 block to the head of the chain, passes their logs on, and publishes how far it got.
 */
module Backfill {
  import opened EventStore
  import opened Numerals
  import opened Options

  const CHUNK: int := 2000

  function Min(a: int, b: int): int {
    if a < b then a else b
  }

  // The windows the loop asks for: it runs while current < end, with inclusive windows.
  function Windows(start: int, end: int): seq<Window>
    decreases if end < start then 0 else end - start + 1
  {
    if start >= end then []
    else
      var to := Min(start + CHUNK, end);
      [Window(start, to)] + Windows(to + 1, end)
  }

  // ---------- the tiling, in closed form ----------

  function Pieces(start: int, end: int): nat {
    if start >= end then 0 else (end - start + CHUNK) / (CHUNK + 1)
  }

  /** The loop makes ceil((end - start) / 2001) windows, and the k-th is known outright: windows
      ascend, follow each other without gap or overlap, and span at most 2001 blocks. */
  lemma {:induction false} WindowsClosedForm(start: int, end: int, k: nat)
    requires k < |Windows(start, end)|
    ensures |Windows(start, end)| == Pieces(start, end)
    ensures Windows(start, end)[k] == Window(start + k * (CHUNK + 1), Min(start + k * (CHUNK + 1) + CHUNK, end))
    decreases if end < start then 0 else end - start + 1
  {
    var to := Min(start + CHUNK, end);
    WindowCount(start, end);
    if k > 0 { WindowsClosedForm(to + 1, end, k - 1); }
  }

  lemma {:induction false} WindowCount(start: int, end: int)
    ensures |Windows(start, end)| == Pieces(start, end)
    decreases if end < start then 0 else end - start + 1
  {
    if start < end { WindowCount(Min(start + CHUNK, end) + 1, end); }
  }

  /** The blocks covered are those from start to end -- except that the last one is missed exactly
      when end - start is a multiple of 2001. */
  lemma {:induction false} CoverageIff(start: int, end: int, b: int)
    requires start <= end
    ensures Covered(Windows(start, end), b) <==>
            start <= b <= end && !(b == end && (end - start) % (CHUNK + 1) == 0)
    decreases end - start
  {
    if start < end {
      var to := Min(start + CHUNK, end);
      var rest := Windows(to + 1, end);
      CoveredCons(Window(start, to), rest, b);
      if to + 1 <= end {
        assert end - (to + 1) == end - start - (CHUNK + 1);
        CoverageIff(to + 1, end, b);
      } else {
        assert rest == [];
      }
    }
  }

  /** For instance, a backfill from block 0 with the head at 2001 never asks for block 2001. */
  lemma HeadMissed()
    ensures Windows(0, 2001) == [Window(0, 2000)] && !Covered(Windows(0, 2001), 2001)
  {
    CoverageIff(0, 2001, 2001);
    assert Windows(2001, 2001) == [];
  }

  lemma CoveredCons(w: Window, ws: seq<Window>, b: int)
    ensures Covered([w] + ws, b) <==> w.from <= b <= w.to || Covered(ws, b)
  {
    if Covered(ws, b) {
      var i :| 0 <= i < |ws| && ws[i].from <= b <= ws[i].to;
      assert ([w] + ws)[i + 1] == ws[i];
    }
    if w.from <= b <= w.to { assert ([w] + ws)[0] == w; }
  }

  // Windows already done, and where the loop stands after them.
  ghost predicate Prefix(start: int, end: int, done: seq<Window>, current: int) {
    && Windows(start, end) == done + Windows(current, end)
    && current == (if done == [] then start else done[|done| - 1].to + 1)
  }

  lemma PrefixGrows(start: int, end: int, done: seq<Window>, current: int)
    requires Prefix(start, end, done, current) && current < end
    ensures Prefix(start, end, done + [Window(current, Min(current + CHUNK, end))], Min(current + CHUNK, end) + 1)
  {
    var w, rest := Window(current, Min(current + CHUNK, end)), Windows(Min(current + CHUNK, end) + 1, end);
    assert done + ([w] + rest) == done + [w] + rest;
  }

  /** Windows done so far cover exactly the blocks from the start up to the position of the loop. */
  lemma {:induction false} DoneCovers(start: int, end: int, done: seq<Window>, current: int)
    requires Prefix(start, end, done, current)
    ensures start <= current
    ensures forall b :: Covered(done, b) <==> start <= b < current
    decreases |done|
  {
    if done != [] {
      var to, rest := Min(start + CHUNK, end), done[1..];
      assert |Windows(start, end)| > 0;
      assert done[0] == Windows(start, end)[0] == Window(start, to);
      assert Windows(to + 1, end) == Windows(start, end)[1..] == rest + Windows(current, end);
      DoneCovers(to + 1, end, rest, current);
      assert done == [done[0]] + rest;
      forall b ensures Covered(done, b) <==> start <= b < current {
        CoveredCons(done[0], rest, b);
      }
    }
  }

  // ---------- the listener ----------

  // What happens to one chunk: it goes through, or the context is cancelled before it, the query
  // fails, or the context is cancelled after some of its logs were sent.
  datatype Outcome = Through | CanceledBefore | QueryFails | CanceledSending(sent: nat)

  class EventListener {
    const startBlock: int
    var status: map<string, int> // the backfill cache shared with the status endpoint

    constructor (startBlock: int)
      ensures this.startBlock == startBlock && status == map[]
    {
      this.startBlock := startBlock;
      status := map[];
    }

    /** The chunk loop. Without a head nothing happens. Otherwise it succeeds exactly if every chunk
        goes through, and the status entry is then gone; if not, the entry holds the end of what was
        completely sent. */
    method Backfill(key: string, latest: Option<nat>, logs: Window -> seq<Log>, outcome: nat -> Outcome)
      returns (ok: bool, done: seq<Window>, fetched: seq<Window>, sent: seq<Log>)
      modifies this
      ensures latest.None? ==> !ok && done == fetched == [] && sent == [] && status == old(status)
      ensures latest.Some? ==>
        if ok then AllSent(logs, outcome, startBlock, ToInt(latest.value), done, fetched, sent)
        else key in status && Stopped(logs, outcome, startBlock, ToInt(latest.value), done, fetched, sent, status[key])
      ensures latest.Some? ==>
        if ok then status == old(status) - {key} else key in status && status == old(status)[key := status[key]]
    {
      if latest.None? { return false, [], [], []; }
      ok, done, fetched, sent := Chunks(key, ToInt(latest.value), logs, outcome);
    }

    method Chunks(key: string, end: int, logs: Window -> seq<Log>, outcome: nat -> Outcome)
      returns (ok: bool, done: seq<Window>, fetched: seq<Window>, sent: seq<Log>)
      modifies this
      ensures if ok then AllSent(logs, outcome, startBlock, end, done, fetched, sent)
              else key in status && Stopped(logs, outcome, startBlock, end, done, fetched, sent, status[key])
      ensures if ok then status == old(status) - {key} else key in status && status == old(status)[key := status[key]]
    {
      ghost var before := status;
      var current := startBlock;
      Publish(key, current);
      done, fetched, sent := [], [], [];
      LoopBegins(logs, outcome, startBlock, end);
      while current < end
        invariant LoopAt(logs, outcome, startBlock, end, done, sent, current)
        invariant fetched == done
        invariant status == old(status)[key := current]
        decreases end - current
      {
        var w := Window(current, Min(current + CHUNK, end));
        var through, batch, part := Chunk(w, logs, outcome(|done|));
        if !through {
          LoopStops(logs, outcome, startBlock, end, done, sent, current, batch, part);
          return false, done, done + batch, sent + part;
        }
        LoopGoesOn(logs, outcome, startBlock, end, done, sent, current);
        fetched, sent, done := fetched + [w], sent + part, done + [w];
        Overwritten(before, key, current, w.to + 1);
        current := w.to + 1;
        Publish(key, current);
      }
      LoopEnds(logs, outcome, startBlock, end, done, sent, current);
      Overwritten(before, key, current, current);
      Clear(key);
      ok := true;
    }

    method Publish(key: string, current: int)
      modifies this
      ensures status == old(status)[key := current]
    {
      status := status[key := current];
    }

    method Clear(key: string)
      modifies this
      ensures status == old(status) - {key}
    {
      status := status - {key};
    }

    // One chunk: what was fetched of it, and what was sent.
    static method Chunk(w: Window, logs: Window -> seq<Log>, o: Outcome)
      returns (through: bool, batch: seq<Window>, part: seq<Log>)
      ensures through <==> Passes(logs, w, o)
      ensures through ==> batch == [w] && part == logs(w)
      ensures o.CanceledBefore? || o.QueryFails? ==> batch == [] && part == []
      ensures o.CanceledSending? && o.sent < |logs(w)| ==> batch == [w] && part == logs(w)[..o.sent]
    {
      if o.CanceledBefore? { return false, [], []; }
      if o.QueryFails? { return false, [], []; }
      var all := logs(w);
      for i := 0 to |all|
        invariant o.CanceledSending? ==> i <= o.sent
      {
        if o.CanceledSending? && o.sent == i { return false, [w], all[..i]; }
      }
      return true, [w], all;
    }
  }

  lemma Overwritten(m: map<string, int>, key: string, a: int, b: int)
    ensures m[key := a][key := b] == m[key := b] && m[key := a] - {key} == m - {key}
  {
  }

  // The state of the loop: what is done goes through and was sent, and nothing else was.
  ghost predicate LoopAt(
    logs: Window -> seq<Log>, outcome: nat -> Outcome, start: int, end: int, done: seq<Window>, sent: seq<Log>, current: int)
  {
    Prefix(start, end, done, current) && AllPass(logs, outcome, done) && sent == SentBy(logs, done)
  }

  // The windows fetched are all of `Windows`, each went through, and exactly their logs were sent.
  ghost predicate AllSent(
    logs: Window -> seq<Log>, outcome: nat -> Outcome, start: int, end: int,
    done: seq<Window>, fetched: seq<Window>, sent: seq<Log>)
  {
    fetched == done == Windows(start, end) && AllPass(logs, outcome, done) && sent == SentBy(logs, done)
  }

  // The loop stopped at the first window that did not go through. What it completely sent are the
  // blocks below `reached`. Of that window nothing was fetched if the context was cancelled before it or
  // its query failed; otherwise it was fetched and as many of its logs were sent as the outcome says.
  ghost predicate Stopped(
    logs: Window -> seq<Log>, outcome: nat -> Outcome, start: int, end: int,
    done: seq<Window>, fetched: seq<Window>, sent: seq<Log>, reached: int)
  {
    && AllPass(logs, outcome, done) && StopsAt(logs, outcome, Windows(start, end), |done|)
    && done <= Windows(start, end)
    && done <= fetched && SentBy(logs, done) <= sent
    && PartOf(logs, Windows(start, end)[|done|], outcome(|done|), fetched[|done|..], sent[|SentBy(logs, done)|..])
    && forall b :: Covered(done, b) <==> start <= b < reached
  }

  // What is fetched and sent of a window that does not go through.
  ghost predicate PartOf(logs: Window -> seq<Log>, w: Window, o: Outcome, batch: seq<Window>, part: seq<Log>) {
    match o
    case CanceledSending(n) => n < |logs(w)| && batch == [w] && part == logs(w)[..n]
    case _ => batch == [] && part == []
  }

  // The k-th chunk is fetched and all its logs are sent.
  predicate Passes(logs: Window -> seq<Log>, w: Window, o: Outcome) {
    o.Through? || (o.CanceledSending? && o.sent >= |logs(w)|)
  }

  ghost predicate AllPass(logs: Window -> seq<Log>, outcome: nat -> Outcome, ws: seq<Window>) {
    forall k :: 0 <= k < |ws| ==> Passes(logs, ws[k], outcome(k))
  }

  ghost predicate StopsAt(logs: Window -> seq<Log>, outcome: nat -> Outcome, ws: seq<Window>, k: nat) {
    k < |ws| && !Passes(logs, ws[k], outcome(k))
  }

  lemma LoopBegins(logs: Window -> seq<Log>, outcome: nat -> Outcome, start: int, end: int)
    ensures LoopAt(logs, outcome, start, end, [], [], start)
  {
    assert [] + Windows(start, end) == Windows(start, end);
  }

  lemma LoopGoesOn(
    logs: Window -> seq<Log>, outcome: nat -> Outcome, start: int, end: int, done: seq<Window>, sent: seq<Log>, current: int)
    requires LoopAt(logs, outcome, start, end, done, sent, current) && current < end
    requires Passes(logs, Window(current, Min(current + CHUNK, end)), outcome(|done|))
    ensures
      var w := Window(current, Min(current + CHUNK, end));
      LoopAt(logs, outcome, start, end, done + [w], sent + logs(w), w.to + 1)
  {
    PrefixGrows(start, end, done, current);
    SentAppend(logs, done, Window(current, Min(current + CHUNK, end)));
  }

  lemma LoopStops(
    logs: Window -> seq<Log>, outcome: nat -> Outcome, start: int, end: int, done: seq<Window>, sent: seq<Log>, current: int,
    batch: seq<Window>, part: seq<Log>)
    requires LoopAt(logs, outcome, start, end, done, sent, current) && current < end
    requires !Passes(logs, Window(current, Min(current + CHUNK, end)), outcome(|done|))
    requires PartOf(logs, Window(current, Min(current + CHUNK, end)), outcome(|done|), batch, part)
    ensures Stopped(logs, outcome, start, end, done, done + batch, sent + part, current)
  {
    var w := Window(current, Min(current + CHUNK, end));
    DoneCovers(start, end, done, current);
    PrefixGrows(start, end, done, current);
    SentAppend(logs, done, w);
    assert done + [w] <= Windows(start, end);
    assert done + [] == done && sent + [] == sent;
  }

  lemma LoopEnds(
    logs: Window -> seq<Log>, outcome: nat -> Outcome, start: int, end: int, done: seq<Window>, sent: seq<Log>, current: int)
    requires LoopAt(logs, outcome, start, end, done, sent, current) && current >= end
    ensures AllSent(logs, outcome, start, end, done, done, sent)
  {
    assert done + [] == done;
  }

  function SentBy(logs: Window -> seq<Log>, ws: seq<Window>): seq<Log> {
    if ws == [] then [] else SentBy(logs, ws[..|ws| - 1]) + logs(ws[|ws| - 1])
  }

  lemma SentAppend(logs: Window -> seq<Log>, ws: seq<Window>, w: Window)
    ensures SentBy(logs, ws + [w]) == SentBy(logs, ws) + logs(w)
  {
    assert (ws + [w])[..|ws|] == ws;
  }
}
