/**
 Several contracts of one chain polling at the same time. The head is read without the lock, the
 cursor is read and written under it, and a query, which may fail, runs in between; so the loops
 interleave at every one of these points and each of them overwrites the one cursor they share.
 */
module PollingMachine {
  import opened EventStore
  import opened Numerals
  import opened Polling

  // Where the goroutine of a contract stands; `skipped` says that a batch of this poll has failed.
  datatype Poller =
    | Idle
    | Seen(head: nat)
    | Looping(from: nat, head: nat, skipped: bool)
    | Fetched(from: nat, to: nat, head: nat, skipped: bool)

  // A batch that a contract has fetched, processed and recorded in the cursor.
  datatype Batch = Batch(contract: string, window: Window)

  // What a poll went by: the cursor it read, the head it saw, and the first blocks of the batches whose
  // query failed.
  datatype Poll = Poll(cursor: nat, head: nat, failed: set<nat>)

  // The batches done and the polls of each contract are records.
  datatype State = State(cursor: nat, pollers: map<string, Poller>, done: seq<Batch>, polls: map<string, seq<Poll>>)

  datatype Move =
    | See(head: nat)  // the head of the chain arrives
    | Load            // the cursor is read
    | Fetch(ok: bool) // a batch is fetched, or its query fails
    | Store           // the cursor is written

  datatype Step = Step(contract: string, move: Move)

  function Of(s: State, c: string): Poller {
    if c in s.pollers then s.pollers[c] else Idle
  }

  function PollsOf(s: State, c: string): seq<Poll> {
    if c in s.polls then s.polls[c] else []
  }

  // The query of the batch from `from` on has failed in the last of the polls.
  function Failing(polls: seq<Poll>, from: nat): seq<Poll> {
    if polls == [] then []
    else
      var n := |polls| - 1;
      polls[..n] + [polls[n].(failed := polls[n].failed + {from})]
  }

  predicate Enabled(s: State, t: Step) {
    var p := Of(s, t.contract);
    match t.move
    case See(head) => p.Idle? && head <= TWO_64 - 6
    case Load => p.Seen?
    case Fetch(_) => p.Looping?
    case Store => p.Fetched?
  }

  function Next(s: State, t: Step): State
    requires Enabled(s, t)
  {
    var c, p := t.contract, Of(s, t.contract);
    match t.move
    case See(head) => s.(pollers := s.pollers[c := Seen(head)])
    case Load =>
      s.(pollers := s.pollers[c := Continue(s.cursor + 1, p.head, false)],
         polls := s.polls[c := PollsOf(s, c) + [Poll(s.cursor, p.head, {})]])
    case Fetch(true) => s.(pollers := s.pollers[c := Fetches(p)])
    case Fetch(false) =>
      s.(pollers := s.pollers[c := Continue(p.from + BATCH, p.head, true)],
         polls := s.polls[c := Failing(PollsOf(s, c), p.from)])
    case Store =>
      s.(cursor := p.to, pollers := s.pollers[c := Continue(p.to + 1, p.head, p.skipped)],
         done := s.done + [Batch(c, Window(p.from, p.to))])
  }

  function Continue(from: nat, head: nat, skipped: bool): Poller {
    if from <= head then Looping(from, head, skipped) else Idle
  }

  function Fetches(p: Poller): Poller
    requires p.Looping?
  {
    Fetched(p.from, if p.from + BATCH - 1 > p.head then p.head else p.from + BATCH - 1, p.head, p.skipped)
  }

  /** The heads taken here are exactly those at which no poll loop, wherever it begins, wraps around. */
  lemma HeadsThatFitIff(s: State, c: string, head: nat)
    requires Of(s, c).Idle?
    ensures Enabled(s, Step(c, See(head))) <==> forall from: nat :: from <= head ==> Beyond(from, head) < TWO_64
  {
    if head <= TWO_64 - 6 {
      forall from: nat | from <= head ensures Beyond(from, head) < TWO_64 { HeadsBelowTopAreSafe(from, head); }
    } else {
      assert Beyond(head, head) == head + BATCH;
    }
  }

  ghost predicate Moves(s: State, t: Step, s': State) {
    Enabled(s, t) && s' == Next(s, t)
  }

  ghost predicate Run(initial: nat, states: seq<State>, steps: seq<Step>) {
    && |states| == |steps| + 1 && states[0] == State(initial, map[], [], map[])
    && forall i :: 0 <= i < |steps| ==> Moves(states[i], steps[i], states[i + 1])
  }

  // ---------- when the cursor goes back ----------

  // The contract reads the cursor or writes it.
  predicate Touches(t: Step, c: string) {
    t.contract == c && (t.move.Load? || t.move.Store?)
  }

  ghost predicate Untouched(steps: seq<Step>, c: string, j: nat, i: nat) {
    forall k :: j < k < i && k < |steps| ==> !Touches(steps[k], c)
  }

  // Step j writes the cursor between the last access of the contract of step i and step i, a write
  // of another contract.
  ghost predicate Interferes(steps: seq<Step>, j: nat, i: nat) {
    && j < i < |steps| && steps[j].move.Store? && steps[i].move.Store?
    && steps[j].contract != steps[i].contract && Untouched(steps, steps[i].contract, j, i)
  }

  ghost predicate LastWrite(steps: seq<Step>, j: nat, i: nat) {
    j < i <= |steps| && steps[j].move.Store? && forall k :: j < k < i ==> !steps[k].move.Store?
  }

  // What a Store step writes.
  function Wrote(s: State, t: Step): int {
    var p := Of(s, t.contract);
    if p.Fetched? then p.to else -1
  }

  // A poller is ahead of the cursor as it was when its contract last read or wrote it.
  ghost predicate Ahead(p: Poller, cursor: nat) {
    match p
    case Looping(from, head, _) => cursor < from <= head
    case Fetched(from, to, head, _) => cursor < from <= to <= head
    case _ => true
  }

  lemma MoveKeepsAhead(s: State, t: Step, s': State, c: string, cursor: nat)
    requires Moves(s, t, s') && !Touches(t, c) && Ahead(Of(s, c), cursor)
    ensures Ahead(Of(s', c), cursor)
  {
  }

  lemma TouchIsAhead(s: State, t: Step, s': State, c: string)
    requires Moves(s, t, s') && Touches(t, c)
    ensures Ahead(Of(s', c), s'.cursor)
  {
  }

  lemma {:induction false} LastTouch(initial: nat, states: seq<State>, steps: seq<Step>, i: nat, c: string) returns (k: nat)
    requires Run(initial, states, steps) && i < |states|
    requires Of(states[i], c).Looping? || Of(states[i], c).Fetched?
    ensures k < i && Touches(steps[k], c) && Untouched(steps, c, k, i)
    ensures Ahead(Of(states[i], c), states[k + 1].cursor)
  {
    assert i > 0;
    assert Moves(states[i - 1], steps[i - 1], states[i]);
    if Touches(steps[i - 1], c) {
      k := i - 1;
      TouchIsAhead(states[i - 1], steps[i - 1], states[i], c);
    } else {
      k := LastTouch(initial, states, steps, i - 1, c);
      MoveKeepsAhead(states[i - 1], steps[i - 1], states[i], c, states[k + 1].cursor);
    }
  }

  lemma {:induction false} CursorStays(initial: nat, states: seq<State>, steps: seq<Step>, j: nat, i: nat)
    requires Run(initial, states, steps) && j <= i < |states|
    requires forall k :: j <= k < i ==> !steps[k].move.Store?
    ensures states[i].cursor == states[j].cursor && states[i].done == states[j].done
  {
    if j < i {
      CursorStays(initial, states, steps, j, i - 1);
      assert Moves(states[i - 1], steps[i - 1], states[i]);
    }
  }

  // The last write in a stretch of steps, if any.
  lemma {:induction false} FindLastWrite(steps: seq<Step>, k: nat, i: nat) returns (found: bool, j: nat)
    requires k < i <= |steps|
    ensures found ==> k < j && LastWrite(steps, j, i)
    ensures !found ==> forall x :: k < x < i ==> !steps[x].move.Store?
    decreases i
  {
    if i == k + 1 {
      found, j := false, 0;
    } else if steps[i - 1].move.Store? {
      found, j := true, i - 1;
    } else {
      found, j := FindLastWrite(steps, k, i - 1);
    }
  }

  /** A write makes the cursor go back exactly if another contract has written it since the writing
      contract last read or wrote it, and the last such write was above its own. */
  lemma CursorGoesBackIff(initial: nat, states: seq<State>, steps: seq<Step>, i: nat)
    requires Run(initial, states, steps) && i < |steps| && steps[i].move.Store?
    ensures states[i + 1].cursor < states[i].cursor <==>
      exists j: nat :: LastWrite(steps, j, i) && Interferes(steps, j, i) && Wrote(states[j], steps[j]) > Wrote(states[i], steps[i])
  {
    var c := steps[i].contract;
    assert Moves(states[i], steps[i], states[i + 1]);
    var k := LastTouch(initial, states, steps, i, c);
    var found, j := FindLastWrite(steps, k, i);
    if found {
      assert Moves(states[j], steps[j], states[j + 1]);
      CursorStays(initial, states, steps, j + 1, i);
      assert Interferes(steps, j, i);
      assert forall x :: LastWrite(steps, x, i) ==> x == j;
    } else {
      CursorStays(initial, states, steps, k + 1, i);
      assert forall x :: LastWrite(steps, x, i) ==> x <= k;
    }
  }

  // No contract writes the cursor between another's access and its next write.
  ghost predicate Exclusive(steps: seq<Step>) {
    forall i, j :: !Interferes(steps, j, i)
  }

  lemma ExclusiveWriteRaises(initial: nat, states: seq<State>, steps: seq<Step>, i: nat)
    requires Run(initial, states, steps) && Exclusive(steps) && i < |steps| && steps[i].move.Store?
    ensures
      var p := Of(states[i], steps[i].contract);
      p.Fetched? && states[i].cursor < p.from <= p.to == states[i + 1].cursor
  {
    var c := steps[i].contract;
    assert Moves(states[i], steps[i], states[i + 1]);
    var k := LastTouch(initial, states, steps, i, c);
    var found, j := FindLastWrite(steps, k, i);
    if found {
      assert Interferes(steps, j, i);
    } else {
      CursorStays(initial, states, steps, k + 1, i);
    }
  }

  /** Without such a write in between the cursor never goes back. */
  lemma {:induction false} CursorGrows(initial: nat, states: seq<State>, steps: seq<Step>, i: nat, j: nat)
    requires Run(initial, states, steps) && Exclusive(steps) && i <= j < |states|
    ensures initial <= states[i].cursor <= states[j].cursor
  {
    if i < j {
      CursorGrows(initial, states, steps, i, j - 1);
      assert Moves(states[j - 1], steps[j - 1], states[j]);
      if steps[j - 1].move.Store? { ExclusiveWriteRaises(initial, states, steps, j - 1); }
    } else if i > 0 {
      CursorGrows(initial, states, steps, i - 1, i - 1);
      assert Moves(states[i - 1], steps[i - 1], states[i]);
      if steps[i - 1].move.Store? { ExclusiveWriteRaises(initial, states, steps, i - 1); }
    }
  }

  /** Two contracts that start from one cursor can move it back. */
  lemma CursorGoesBackRun() returns (states: seq<State>, steps: seq<Step>)
    ensures Run(0, states, steps)
    ensures exists i :: 0 <= i < |steps| && states[i + 1].cursor < states[i].cursor
  {
    var a, b := "a", "b";
    var s0 := State(0, map[], [], map[]);
    steps := [Step(a, See(3)), Step(b, See(9)), Step(a, Load), Step(b, Load), Step(a, Fetch(true)), Step(b, Fetch(true)),
              Step(b, Store), Step(a, Store)];
    var s1 := Next(s0, steps[0]);
    var s2 := Next(s1, steps[1]);
    var s3 := Next(s2, steps[2]);
    var s4 := Next(s3, steps[3]);
    var s5 := Next(s4, steps[4]);
    var s6 := Next(s5, steps[5]);
    var s7 := Next(s6, steps[6]);
    var s8 := Next(s7, steps[7]);
    states := [s0, s1, s2, s3, s4, s5, s6, s7, s8];
    assert states[7].cursor == 5 && states[8].cursor == 3;
    assert states[7 + 1].cursor < states[7].cursor;
  }

  // ---------- what the contracts have seen ----------

  function WindowsOf(done: seq<Batch>): seq<Window> {
    if done == [] then [] else WindowsOf(done[..|done| - 1]) + [done[|done| - 1].window]
  }

  function DoneBy(done: seq<Batch>, c: string): seq<Window> {
    if done == [] then []
    else
      DoneBy(done[..|done| - 1], c)
      + (if done[|done| - 1].contract == c then [done[|done| - 1].window] else [])
  }

  lemma WindowsAppend(done: seq<Batch>, b: Batch, c: string)
    ensures WindowsOf(done + [b]) == WindowsOf(done) + [b.window]
    ensures DoneBy(done + [b], c) == DoneBy(done, c) + (if b.contract == c then [b.window] else [])
  {
    assert (done + [b])[..|done|] == done;
  }

  // Step k records a batch of contract c that begins right above the cursor: no batch failed before.
  ghost predicate Continues(s: State, t: Step, c: string) {
    t.move.Store? ==> t.contract == c && Of(s, c).Fetched? && Of(s, c).from == s.cursor + 1
  }

  ghost predicate AlwaysContinues(states: seq<State>, steps: seq<Step>, i: nat, c: string)
    requires i <= |steps| < |states|
  {
    forall k :: 0 <= k < i ==> Continues(states[k], steps[k], c)
  }

  // The contract has seen every block up to the cursor.
  ghost predicate SeesAll(initial: nat, s: State, c: string) {
    Full(DoneBy(s.done, c), initial, s.cursor)
  }

  ghost predicate SeesInside(initial: nat, s: State, c: string) {
    initial <= s.cursor && Inside(DoneBy(s.done, c), initial, s.cursor)
  }

  /** If no contract interferes with another, a contract has seen every block up to the cursor
      exactly if all writes of the cursor were its own and each recorded a batch that began right
      above the cursor, that is, no query failed in between. */
  lemma {:induction false} SeesAllIff(initial: nat, states: seq<State>, steps: seq<Step>, i: nat, c: string)
    requires Run(initial, states, steps) && Exclusive(steps) && i < |states|
    ensures SeesInside(initial, states[i], c)
    ensures SeesAll(initial, states[i], c) <==> AlwaysContinues(states, steps, i, c)
  {
    if i > 0 {
      SeesAllIff(initial, states, steps, i - 1, c);
      if steps[i - 1].move.Store? { ExclusiveWriteRaises(initial, states, steps, i - 1); }
      MoveSeenIff(initial, states[i - 1], steps[i - 1], states[i], c);
      assert AlwaysContinues(states, steps, i, c)
        <==> AlwaysContinues(states, steps, i - 1, c) && Continues(states[i - 1], steps[i - 1], c);
    }
  }

  lemma MoveSeenIff(initial: nat, s: State, t: Step, s': State, c: string)
    requires Moves(s, t, s') && SeesInside(initial, s, c)
    requires t.move.Store? ==> s.cursor < Of(s, t.contract).from <= Of(s, t.contract).to
    ensures SeesInside(initial, s', c)
    ensures SeesAll(initial, s', c) <==> SeesAll(initial, s, c) && Continues(s, t, c)
  {
    if t.move.Store? { WriteSeenIff(initial, s, t, s', c); }
  }

  lemma WriteSeenIff(initial: nat, s: State, t: Step, s': State, c: string)
    requires Moves(s, t, s') && t.move.Store? && initial <= s.cursor < Of(s, t.contract).from <= Of(s, t.contract).to
    requires Inside(DoneBy(s.done, c), initial, s.cursor)
    ensures Inside(DoneBy(s'.done, c), initial, s'.cursor)
    ensures Full(DoneBy(s'.done, c), initial, s'.cursor)
       <==> Full(DoneBy(s.done, c), initial, s.cursor) && Continues(s, t, c)
  {
    var p := Of(s, t.contract);
    var w := Window(p.from, p.to);
    WindowsAppend(s.done, Batch(t.contract, w), c);
    OneMore(DoneBy(s.done, c), w, t.contract == c, initial, s.cursor);
  }

  // One more window above the cursor, or none.
  lemma OneMore(own: seq<Window>, w: Window, mine: bool, low: int, mid: int)
    requires low <= mid < w.from <= w.to && Inside(own, low, mid)
    ensures
      var more := own + (if mine then [w] else []);
      && Inside(more, low, w.to)
      && (Full(more, low, w.to) <==> Full(own, low, mid) && mine && w.from == mid + 1)
  {
    var added: seq<Window> := if mine then [w] else [];
    OneWindow(w);
    assert forall b :: Covered(added, b) ==> w.from <= b <= w.to;
    if !(mine && w.from == mid + 1) { assert !Covered(added, mid + 1); }
    FullConcat(own, added, low, mid, w.to);
  }

  lemma OneWindow(w: Window)
    ensures forall b :: Covered([w], b) <==> w.from <= b <= w.to
  {
    forall b ensures Covered([w], b) <==> w.from <= b <= w.to { assert [w][0] == w; }
  }

  // ---------- what all contracts together have seen ----------

  // Everything below the next batch of a poll without failures has been seen by someone.
  ghost predicate PollerOk(initial: nat, p: Poller, done: seq<Batch>) {
    match p
    case Looping(from, head, skipped) => !skipped ==> initial < from <= head && Full(WindowsOf(done), initial, from - 1)
    case Fetched(from, to, head, skipped) =>
      !skipped ==> initial < from <= to <= head && Full(WindowsOf(done), initial, from - 1)
    case _ => true
  }

  ghost predicate Ok(initial: nat, s: State) {
    && initial <= s.cursor && Full(WindowsOf(s.done), initial, s.cursor)
    && forall c :: c in s.pollers ==> PollerOk(initial, s.pollers[c], s.done)
  }

  lemma FullStays(done: seq<Batch>, b: Batch, low: int, high: int)
    requires Full(WindowsOf(done), low, high)
    ensures Full(WindowsOf(done + [b]), low, high)
    ensures b.window.from == high + 1 ==> Full(WindowsOf(done + [b]), low, b.window.to)
  {
    WindowsAppend(done, b, b.contract);
    OneWindow(b.window);
    forall x | low < x <= high || b.window.from <= x <= b.window.to ensures Covered(WindowsOf(done + [b]), x) {
      CoveredConcat(WindowsOf(done), [b.window], x);
    }
  }

  lemma PollerStays(initial: nat, p: Poller, done: seq<Batch>, b: Batch)
    requires PollerOk(initial, p, done)
    ensures PollerOk(initial, p, done + [b])
  {
    match p
    case Looping(from, _, skipped) => if !skipped { FullStays(done, b, initial, from - 1); }
    case Fetched(from, _, _, skipped) => if !skipped { FullStays(done, b, initial, from - 1); }
    case _ =>
  }

  lemma StoreKeepsOk(initial: nat, s: State, t: Step, s': State)
    requires Ok(initial, s) && Moves(s, t, s') && t.move.Store? && !Of(s, t.contract).skipped
    ensures Ok(initial, s')
  {
    var c, p := t.contract, Of(s, t.contract);
    var b := Batch(c, Window(p.from, p.to));
    assert PollerOk(initial, p, s.done);
    FullStays(s.done, b, initial, p.from - 1);
    assert PollerOk(initial, s'.pollers[c], s'.done);
    forall d | d in s'.pollers && d != c ensures PollerOk(initial, s'.pollers[d], s'.done) {
      PollerStays(initial, s.pollers[d], s.done, b);
    }
  }

  lemma StepKeepsOk(initial: nat, s: State, t: Step, s': State)
    requires Ok(initial, s) && Moves(s, t, s') && (t.move.Store? ==> !Of(s, t.contract).skipped)
    ensures Ok(initial, s')
  {
    if t.move.Store? {
      StoreKeepsOk(initial, s, t, s');
    } else {
      assert PollerOk(initial, Of(s, t.contract), s.done);
    }
  }

  /** In every interleaving of any number of contracts, as long as no poll records a batch after one
      that failed, every block up to the shared cursor has been seen by at least one of them. */
  lemma {:induction false} NoBlockIsLost(initial: nat, states: seq<State>, steps: seq<Step>, i: nat)
    requires Run(initial, states, steps) && i < |states|
    requires forall k :: 0 <= k < |steps| && steps[k].move.Store? ==> StoresUnskipped(states[k], steps[k])
    ensures Ok(initial, states[i])
    ensures forall b :: initial < b <= states[i].cursor ==> Covered(WindowsOf(states[i].done), b)
  {
    if i > 0 {
      NoBlockIsLost(initial, states, steps, i - 1);
      assert Moves(states[i - 1], steps[i - 1], states[i]);
      StepKeepsOk(initial, states[i - 1], steps[i - 1], states[i]);
    }
  }

  predicate StoresUnskipped(s: State, t: Step) {
    Of(s, t.contract).Fetched? && !Of(s, t.contract).skipped
  }
}
