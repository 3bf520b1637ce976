/**
 One backfill task of the worker: a producer goroutine (the event listener) and a consumer loop,
 joined by a channel of 100 logs, a done channel and a context. Every choice that `select`, the
 scheduler, the chain node or the database may make is a step of its own.
 */
module Handoff {
  import opened Backfill
  import opened EventStore
  import opened Numerals
  import opened Options

  const CAPACITY: nat := 100

  // How the listener ended.
  datatype Exit = Completed | NoHead | Interrupted

  datatype Producer =
    | Starting
    | Chunk(current: int)
    | Querying(current: int, to: int)
    | Filtering(current: int, to: int, stored: nat)
    | Sending(current: int, to: int, sent: nat)
    | Closing
    | Leaving(exit: Exit)
    | Marking(exit: Exit)
    | Gone(exit: Exit)

  datatype Consumer = Selecting | Looking(log: Log) | Adding(log: Log) | Canceling | Stopped(canceled: bool)

  // What a backfill is about: the block the chain node reports, its logs, the contract row.
  datatype Task = Task(start: int, head: nat, chain: seq<Log>, env: Env, contract: string)

  // `fetched`, `passed`, `sent` and `taken` record what has happened so far.
  datatype State = State(
    producer: Producer, consumer: Consumer,
    buffer: seq<Log>, closed: bool, done: bool, ctx: bool,
    db: Db, flag: bool, status: Option<int>,
    fetched: seq<Window>, passed: seq<Window>, sent: seq<Log>, taken: seq<Log>)

  datatype Label =
    | Head | HeadFails
    | Check | StopAtCheck | Query | QueryFails
    | StoreLog(faults: Faults) | Filtered
    | Send | StopSending | NextChunk
    | Finish | Close | CloseDone | Mark
    | Take | SeeClosed | SeeDone | SeeCancel | MarkCanceled
    | Lookup(ok: bool) | Add(ok: bool)
    | Cancel

  predicate OfConsumer(l: Label) {
    l.Take? || l.SeeClosed? || l.SeeDone? || l.SeeCancel? || l.MarkCanceled? || l.Lookup? || l.Add?
  }

  function End(task: Task): int {
    ToInt(task.head)
  }

  // The logs of the window at hand.
  function Batch(task: Task, current: int, to: int): seq<Log> {
    LogsIn(task.chain, Window(current, to))
  }

  function Init(db: Db, stale: Option<int>): State {
    State(Starting, Selecting, [], false, false, false, db, true, stale, [], [], [], [])
  }

  // ---------- the steps ----------

  predicate CanTurn(task: Task, p: Producer, ctx: bool, l: Label) {
    match l
    case Head => p.Starting?
    case HeadFails => p.Starting?
    case Check => p.Chunk? && p.current < End(task) && !ctx
    case StopAtCheck => p.Chunk? && p.current < End(task) && ctx
    case Query => p.Querying?
    case QueryFails => p.Querying?
    case StoreLog(_) => p.Filtering? && p.stored < |Batch(task, p.current, p.to)|
    case Filtered => p.Filtering? && p.stored >= |Batch(task, p.current, p.to)|
    case Send => p.Sending? && p.sent < |Batch(task, p.current, p.to)|
    case StopSending => p.Sending? && p.sent < |Batch(task, p.current, p.to)| && ctx
    case NextChunk => p.Sending? && p.sent >= |Batch(task, p.current, p.to)|
    case Finish => p.Chunk? && p.current >= End(task)
    case Close => p.Closing?
    case CloseDone => p.Leaving?
    case Mark => p.Marking?
    case _ => false
  }

  // Where the producer goes.
  function Turn(task: Task, p: Producer, ctx: bool, l: Label): Producer
    requires CanTurn(task, p, ctx, l)
  {
    match l
    case Head => Chunk(task.start)
    case HeadFails => Leaving(NoHead)
    case Check => Querying(p.current, Min(p.current + CHUNK, End(task)))
    case StopAtCheck => Leaving(Interrupted)
    case Query => Filtering(p.current, p.to, 0)
    case QueryFails => Leaving(Interrupted)
    case StoreLog(_) => Filtering(p.current, p.to, p.stored + 1)
    case Filtered => Sending(p.current, p.to, 0)
    case Send => Sending(p.current, p.to, p.sent + 1)
    case StopSending => Leaving(Interrupted)
    case NextChunk => Chunk(p.to + 1)
    case Finish => Closing
    case Close => Leaving(Completed)
    case CloseDone => Marking(p.exit)
    case Mark => Gone(p.exit)
  }

  // What the step does to everything else.
  function Effect(task: Task, s: State, l: Label): State
    requires CanTurn(task, s.producer, s.ctx, l)
  {
    var p := s.producer;
    match l
    case Head => s.(status := Some(task.start))
    case StoreLog(f) => s.(db := Process(s.db, task.env, Batch(task, p.current, p.to)[p.stored], f))
    case Filtered => s.(fetched := s.fetched + [Window(p.current, p.to)])
    case Send =>
      var x := Batch(task, p.current, p.to)[p.sent];
      s.(buffer := s.buffer + [x], sent := s.sent + [x])
    case NextChunk => s.(status := Some(p.to + 1), passed := s.passed + [Window(p.current, p.to)])
    case Finish => s.(status := None)
    case Close => s.(closed := true)
    case CloseDone => s.(done := true)
    case Mark => s.(flag := false)
    case _ => s
  }

  predicate ProducerEnabled(task: Task, s: State, l: Label) {
    CanTurn(task, s.producer, s.ctx, l) && (l.Send? ==> |s.buffer| < CAPACITY)
  }

  function ProducerStep(task: Task, s: State, l: Label): State
    requires ProducerEnabled(task, s, l)
  {
    Effect(task, s, l).(producer := Turn(task, s.producer, s.ctx, l))
  }

  // The consumer looks a log up without its contract.
  predicate HasLog(rows: seq<Row>, l: Log) {
    exists i :: 0 <= i < |rows| && rows[i].block == ToInt(l.block) && rows[i].txHash == l.txHash
                && rows[i].index == ToInt(l.index)
  }

  predicate ConsumerEnabled(s: State, l: Label) {
    match l
    case Take => s.consumer.Selecting? && s.buffer != []
    case SeeClosed => s.consumer.Selecting? && s.buffer == [] && s.closed
    case SeeDone => s.consumer.Selecting? && s.done
    case SeeCancel => s.consumer.Selecting? && s.ctx
    case MarkCanceled => s.consumer.Canceling?
    case Lookup(_) => s.consumer.Looking?
    case Add(_) => s.consumer.Adding?
    case _ => false
  }

  function ConsumerStep(task: Task, s: State, l: Label): State
    requires ConsumerEnabled(s, l)
  {
    match l
    case Take => s.(consumer := Looking(s.buffer[0]), buffer := s.buffer[1..], taken := s.taken + [s.buffer[0]])
    case SeeClosed => s.(consumer := Stopped(false))
    case SeeDone => s.(consumer := Stopped(false))
    case SeeCancel => s.(consumer := Canceling)
    case MarkCanceled => s.(consumer := Stopped(true), flag := false)
    case Lookup(ok) =>
      s.(consumer := if ok && HasLog(s.db.rows, s.consumer.log) then Selecting else Adding(s.consumer.log))
    case Add(ok) =>
      s.(consumer := Selecting, db := Insert(s.db, RowOf(task.env, task.contract, s.consumer.log), ok))
  }

  predicate Enabled(task: Task, s: State, l: Label) {
    if l.Cancel? then !s.ctx else if OfConsumer(l) then ConsumerEnabled(s, l) else ProducerEnabled(task, s, l)
  }

  function Step(task: Task, s: State, l: Label): State
    requires Enabled(task, s, l)
  {
    if l.Cancel? then s.(ctx := true)
    else if OfConsumer(l) then ConsumerStep(task, s, l)
    else ProducerStep(task, s, l)
  }

  // A run: states[i + 1] follows states[i] by labels[i].
  ghost predicate Run(task: Task, states: seq<State>, labels: seq<Label>) {
    && |states| == |labels| + 1
    && forall i :: 0 <= i < |labels| ==> Moved(task, states, labels, i)
  }

  ghost predicate Moved(task: Task, states: seq<State>, labels: seq<Label>, i: nat)
    requires i < |labels| && |states| == |labels| + 1
  {
    Moves(task, states[i], labels[i], states[i + 1])
  }

  ghost predicate Moves(task: Task, s: State, l: Label, t: State) {
    Enabled(task, s, l) && t == Step(task, s, l)
  }

  lemma MoveAt(task: Task, states: seq<State>, labels: seq<Label>, i: nat)
    requires Run(task, states, labels) && i < |labels|
    ensures Moves(task, states[i], labels[i], states[i + 1])
  {
    assert Moved(task, states, labels, i);
  }

  // ---------- the invariant of every run ----------

  predicate Over(p: Producer) {
    p.Leaving? || p.Marking? || p.Gone?
  }

  predicate Running(p: Producer) {
    p.Chunk? || p.Querying? || p.Filtering? || p.Sending?
  }

  // The windows of the loop, where it stands, and what it published.
  ghost predicate LoopOk(task: Task, s: State) {
    var p := s.producer;
    && (Running(p) ==> s.status == Some(p.current))
    && (Running(p) || (Over(p) && p.exit == Interrupted) ==>
          s.status.Some? && Prefix(task.start, End(task), s.passed, s.status.value))
    && (p.Querying? || p.Filtering? || p.Sending? ==>
          p.current < End(task) && p.to == Min(p.current + CHUNK, End(task)))
    && (p.Closing? || (Over(p) && p.exit == Completed) ==>
          s.status == None && s.passed == Windows(task.start, End(task)))
    && (p.Starting? || (Over(p) && p.exit == NoHead) ==> s.passed == [])
  }

  // What was fetched and sent, in terms of the windows.
  ghost predicate TrafficOk(task: Task, s: State) {
    var p := s.producer;
    && s.passed <= s.fetched
    && Fetched(task.chain, s.passed) <= s.sent
    && (!(Over(p) && p.exit == Interrupted) ==>
          s.fetched == s.passed + (if p.Sending? then [Window(p.current, p.to)] else []))
    && (!p.Sending? && !(Over(p) && p.exit == Interrupted) ==> s.sent == Fetched(task.chain, s.passed))
    && (p.Sending? ==> p.sent <= |Batch(task, p.current, p.to)|)
    && (p.Sending? ==> s.sent == Fetched(task.chain, s.passed) + Batch(task, p.current, p.to)[..p.sent])
    && (p.Filtering? ==> p.stored <= |Batch(task, p.current, p.to)|)
  }

  // The channels, the context and the flag.
  ghost predicate ChannelsOk(s: State) {
    var p := s.producer;
    && s.sent == s.taken + s.buffer && |s.buffer| <= CAPACITY
    && (s.closed <==> Over(p) && p.exit == Completed)
    && (s.done <==> p.Marking? || p.Gone?)
    && (s.consumer.Canceling? || s.consumer == Stopped(true) ==> s.ctx)
    && (s.consumer == Stopped(false) ==> s.closed || s.done)
    && (s.consumer.Looking? || s.consumer.Adding? ==> s.consumer.log in s.taken)
    && (s.flag <==> !p.Gone? && s.consumer != Stopped(true))
  }

  ghost predicate Ok(task: Task, s: State) {
    LoopOk(task, s) && TrafficOk(task, s) && ChannelsOk(s)
  }

  lemma {:induction false} FetchedAppend(chain: seq<Log>, ws: seq<Window>, w: Window)
    ensures Fetched(chain, ws + [w]) == Fetched(chain, ws) + LogsIn(chain, w)
  {
    if ws == [] {
      assert [w][1..] == [];
    } else {
      assert (ws + [w])[1..] == ws[1..] + [w];
      FetchedAppend(chain, ws[1..], w);
      Reassociate(LogsIn(chain, ws[0]), Fetched(chain, ws[1..]), LogsIn(chain, w));
    }
  }

  // Steps that leave the producer and its records alone.
  predicate Quiet(l: Label) {
    OfConsumer(l) || l.Cancel?
  }

  predicate Ends(l: Label) {
    l.HeadFails? || l.StopAtCheck? || l.QueryFails? || l.StopSending? || l.Finish? || l.Close? || l.CloseDone? || l.Mark?
  }

  lemma QuietStep(task: Task, s: State, l: Label)
    requires Enabled(task, s, l) && Quiet(l)
    ensures
      var s' := Step(task, s, l);
      && s'.producer == s.producer && s'.status == s.status && s'.passed == s.passed
      && s'.fetched == s.fetched && s'.sent == s.sent && s'.closed == s.closed && s'.done == s.done
  {
  }

  lemma LoopEndStep(task: Task, s: State, l: Label)
    requires LoopOk(task, s) && ProducerEnabled(task, s, l) && Ends(l)
    ensures LoopOk(task, ProducerStep(task, s, l))
  {
    if l.Finish? { assert Windows(s.producer.current, End(task)) == []; }
  }

  lemma NextChunkStep(task: Task, s: State)
    requires LoopOk(task, s) && ProducerEnabled(task, s, NextChunk)
    ensures LoopOk(task, ProducerStep(task, s, NextChunk))
  {
    PrefixGrows(task.start, End(task), s.passed, s.producer.current);
  }

  lemma HeadStep(task: Task, s: State)
    requires LoopOk(task, s) && ProducerEnabled(task, s, Head)
    ensures LoopOk(task, ProducerStep(task, s, Head))
  {
    assert s.passed + Windows(task.start, End(task)) == Windows(task.start, End(task));
  }

  lemma LoopWorkStep(task: Task, s: State, l: Label)
    requires LoopOk(task, s) && ProducerEnabled(task, s, l) && !Ends(l) && !l.Head? && !l.NextChunk?
    ensures LoopOk(task, ProducerStep(task, s, l))
  {
  }

  lemma LoopStep(task: Task, s: State, l: Label)
    requires LoopOk(task, s) && Enabled(task, s, l)
    ensures LoopOk(task, Step(task, s, l))
  {
    if Quiet(l) {
      QuietStep(task, s, l);
    } else if Ends(l) {
      LoopEndStep(task, s, l);
    } else if l.NextChunk? {
      NextChunkStep(task, s);
    } else if l.Head? {
      HeadStep(task, s);
    } else {
      LoopWorkStep(task, s, l);
    }
  }

  lemma TrafficSendStep(task: Task, s: State)
    requires TrafficOk(task, s) && ProducerEnabled(task, s, Send)
    ensures TrafficOk(task, ProducerStep(task, s, Send))
  {
    var p, batch := s.producer, Batch(task, s.producer.current, s.producer.to);
    assert batch[..p.sent + 1] == batch[..p.sent] + [batch[p.sent]];
    Reassociate(Fetched(task.chain, s.passed), batch[..p.sent], [batch[p.sent]]);
  }

  lemma TrafficNextStep(task: Task, s: State)
    requires TrafficOk(task, s) && ProducerEnabled(task, s, NextChunk)
    ensures TrafficOk(task, ProducerStep(task, s, NextChunk))
  {
    var p, batch := s.producer, Batch(task, s.producer.current, s.producer.to);
    FetchedAppend(task.chain, s.passed, Window(p.current, p.to));
    assert batch[..p.sent] == batch;
  }

  lemma TrafficEndStep(task: Task, s: State, l: Label)
    requires TrafficOk(task, s) && ProducerEnabled(task, s, l) && Ends(l)
    ensures TrafficOk(task, ProducerStep(task, s, l))
  {
  }

  lemma TrafficWorkStep(task: Task, s: State, l: Label)
    requires TrafficOk(task, s) && ProducerEnabled(task, s, l) && !Ends(l) && !l.Send? && !l.NextChunk?
    ensures TrafficOk(task, ProducerStep(task, s, l))
  {
  }

  lemma TrafficStep(task: Task, s: State, l: Label)
    requires TrafficOk(task, s) && Enabled(task, s, l)
    ensures TrafficOk(task, Step(task, s, l))
  {
    if Quiet(l) {
      QuietStep(task, s, l);
    } else if Ends(l) {
      TrafficEndStep(task, s, l);
    } else if l.Send? {
      TrafficSendStep(task, s);
    } else if l.NextChunk? {
      TrafficNextStep(task, s);
    } else {
      TrafficWorkStep(task, s, l);
    }
  }

  lemma ChannelsProducerStep(task: Task, s: State, l: Label)
    requires ChannelsOk(s) && ProducerEnabled(task, s, l)
    ensures ChannelsOk(ProducerStep(task, s, l))
  {
  }

  lemma ChannelsStep(task: Task, s: State, l: Label)
    requires ChannelsOk(s) && Enabled(task, s, l)
    ensures ChannelsOk(Step(task, s, l))
  {
    if !Quiet(l) {
      ChannelsProducerStep(task, s, l);
    } else if l.Take? {
      assert s.taken + s.buffer == s.taken + [s.buffer[0]] + s.buffer[1..];
    }
  }

  lemma {:induction false} RunIsOk(task: Task, db: Db, stale: Option<int>, states: seq<State>, labels: seq<Label>, i: nat)
    requires Run(task, states, labels) && states[0] == Init(db, stale) && i < |states|
    ensures Ok(task, states[i])
  {
    if i > 0 {
      RunIsOk(task, db, stale, states, labels, i - 1);
      MoveAt(task, states, labels, i - 1);
      MoveKeepsOk(task, states[i - 1], labels[i - 1], states[i]);
    }
  }

  lemma MoveKeepsOk(task: Task, s: State, l: Label, t: State)
    requires Ok(task, s) && Moves(task, s, l, t)
    ensures Ok(task, t)
  {
    LoopStep(task, s, l);
    TrafficStep(task, s, l);
    ChannelsStep(task, s, l);
  }

  // ---------- channels, deadlock, termination ----------

  /** A channel is never sent on or closed after it was closed, in any run. */
  lemma NeverSendsOnClosed(task: Task, db: Db, stale: Option<int>, states: seq<State>, labels: seq<Label>, i: nat)
    requires Run(task, states, labels) && states[0] == Init(db, stale) && i < |labels|
    ensures labels[i].Send? || labels[i].Close? ==> !states[i].closed
    ensures labels[i].CloseDone? ==> !states[i].done
  {
    RunIsOk(task, db, stale, states, labels, i);
    MoveAt(task, states, labels, i);
  }

  // Nothing goes wrong in this step: no cancellation, no failing query, no failing lookup or insertion.
  predicate Clean(l: Label) {
    match l
    case Cancel | HeadFails | QueryFails => false
    case StoreLog(f) => f == NO_FAULTS
    case Lookup(ok) => ok
    case Add(ok) => ok
    case _ => true
  }

  predicate Finished(s: State) {
    s.producer.Gone? && s.consumer.Stopped?
  }

  /** No deadlock: until both sides have ended, one of them can move, with no help from outside. */
  lemma NeverStuck(task: Task, s: State)
    requires Ok(task, s) && !Finished(s)
    ensures exists l :: Clean(l) && Enabled(task, s, l)
  {
    if !s.producer.Gone? && !(s.producer.Sending? && |s.buffer| >= CAPACITY) {
      ProducerCanMove(task, s);
    } else if s.consumer.Stopped? {
      assert Enabled(task, s, StopSending) || Enabled(task, s, NextChunk);
    } else {
      ConsumerCanMove(task, s);
    }
  }

  // What the producer does next, if nothing fails.
  function NextTurn(task: Task, p: Producer, ctx: bool): Label {
    match p
    case Starting => Head
    case Chunk(c) => if c >= End(task) then Finish else if ctx then StopAtCheck else Check
    case Querying(_, _) => Query
    case Filtering(c, to, n) => if n < |Batch(task, c, to)| then StoreLog(NO_FAULTS) else Filtered
    case Sending(c, to, n) => if n < |Batch(task, c, to)| then Send else NextChunk
    case Closing => Close
    case Leaving(_) => CloseDone
    case _ => Mark
  }

  lemma TurnExists(task: Task, p: Producer, ctx: bool)
    requires !p.Gone?
    ensures CanTurn(task, p, ctx, NextTurn(task, p, ctx)) && Clean(NextTurn(task, p, ctx))
    ensures !Quiet(NextTurn(task, p, ctx)) && (NextTurn(task, p, ctx).Send? ==> p.Sending?)
  {
  }

  lemma ProducerCanMove(task: Task, s: State)
    requires !s.producer.Gone? && !(s.producer.Sending? && |s.buffer| >= CAPACITY)
    ensures exists l :: Clean(l) && Enabled(task, s, l)
  {
    TurnExists(task, s.producer, s.ctx);
    assert Enabled(task, s, NextTurn(task, s.producer, s.ctx));
  }

  lemma ConsumerCanMove(task: Task, s: State)
    requires Ok(task, s) && !s.consumer.Stopped? && (s.buffer != [] || s.done)
    ensures exists l :: Clean(l) && Enabled(task, s, l)
  {
    var l := match s.consumer
      case Selecting => if s.buffer != [] then Take else SeeDone
      case Looking(_) => Lookup(true)
      case Adding(_) => Add(true)
      case _ => MarkCanceled;
    assert Clean(l) && Enabled(task, s, l);
  }

  // An upper bound on the steps that the windows ahead still take.
  function Cost(chain: seq<Log>, ws: seq<Window>): nat {
    if ws == [] then 0 else 4 + 5 * |LogsIn(chain, ws[0])| + Cost(chain, ws[1..])
  }

  function Ahead(task: Task, current: int): nat {
    Cost(task.chain, Windows(current, End(task)))
  }

  function Rest(logs: seq<Log>, n: nat): nat {
    if n < |logs| then |logs| - n else 0
  }

  function ProducerRank(task: Task, p: Producer): nat {
    match p
    case Starting => 9 + Ahead(task, task.start)
    case Chunk(c) => 8 + Ahead(task, c)
    case Querying(_, to) => 11 + 5 * |Batch(task, p.current, to)| + Ahead(task, to + 1)
    case Filtering(_, to, n) =>
      10 + Rest(Batch(task, p.current, to), n) + 4 * |Batch(task, p.current, to)| + Ahead(task, to + 1)
    case Sending(_, to, n) => 9 + 4 * Rest(Batch(task, p.current, to), n) + Ahead(task, to + 1)
    case Closing => 7
    case Leaving(_) => 6
    case Marking(_) => 5
    case Gone(_) => 0
  }

  function ConsumerRank(c: Consumer): nat {
    match c
    case Selecting => 3
    case Looking(_) => 5
    case Adding(_) => 4
    case Canceling => 2
    case Stopped(_) => 0
  }

  function Rank(task: Task, s: State): nat {
    ProducerRank(task, s.producer) + ConsumerRank(s.consumer) + 3 * |s.buffer| + (if s.ctx then 0 else 1)
  }

  lemma CheckRankDecreases(task: Task, current: int)
    requires current < End(task)
    ensures ProducerRank(task, Querying(current, Min(current + CHUNK, End(task)))) < ProducerRank(task, Chunk(current))
  {
    var to := Min(current + CHUNK, End(task));
    var ws := Windows(current, End(task));
    assert ws[0] == Window(current, to) && ws[1..] == Windows(to + 1, End(task));
  }

  lemma BatchRankDecreases(task: Task, current: int, to: int, n: nat)
    ensures
      var batch := |Batch(task, current, to)|;
      && ProducerRank(task, Filtering(current, to, 0)) < ProducerRank(task, Querying(current, to))
      && (n < batch ==>
            && ProducerRank(task, Filtering(current, to, n + 1)) < ProducerRank(task, Filtering(current, to, n))
            && ProducerRank(task, Sending(current, to, n + 1)) + 4 <= ProducerRank(task, Sending(current, to, n)))
      && ProducerRank(task, Sending(current, to, 0)) < ProducerRank(task, Filtering(current, to, n))
      && ProducerRank(task, Chunk(to + 1)) < ProducerRank(task, Sending(current, to, n))
  {
  }

  lemma EndTurnDecreases(task: Task, p: Producer, ctx: bool, l: Label)
    requires CanTurn(task, p, ctx, l) && Ends(l)
    ensures ProducerRank(task, Turn(task, p, ctx, l)) < ProducerRank(task, p)
  {
  }

  lemma QueryTurnDecreases(task: Task, p: Producer, ctx: bool, l: Label)
    requires CanTurn(task, p, ctx, l) && l.Query?
    ensures ProducerRank(task, Turn(task, p, ctx, l)) < ProducerRank(task, p)
  {
    BatchRankDecreases(task, p.current, p.to, 0);
  }

  lemma StoreTurnDecreases(task: Task, p: Producer, ctx: bool, l: Label)
    requires CanTurn(task, p, ctx, l) && l.StoreLog?
    ensures ProducerRank(task, Turn(task, p, ctx, l)) < ProducerRank(task, p)
  {
    BatchRankDecreases(task, p.current, p.to, p.stored);
  }

  lemma FilterTurnDecreases(task: Task, p: Producer, ctx: bool, l: Label)
    requires CanTurn(task, p, ctx, l) && l.Filtered?
    ensures ProducerRank(task, Turn(task, p, ctx, l)) < ProducerRank(task, p)
  {
    BatchRankDecreases(task, p.current, p.to, p.stored);
  }

  lemma SendTurnDecreases(task: Task, p: Producer, ctx: bool, l: Label)
    requires CanTurn(task, p, ctx, l) && l.Send?
    ensures ProducerRank(task, Turn(task, p, ctx, l)) + 4 <= ProducerRank(task, p)
  {
    BatchRankDecreases(task, p.current, p.to, p.sent);
  }

  lemma NextTurnDecreases(task: Task, p: Producer, ctx: bool, l: Label)
    requires CanTurn(task, p, ctx, l) && l.NextChunk?
    ensures ProducerRank(task, Turn(task, p, ctx, l)) < ProducerRank(task, p)
  {
    BatchRankDecreases(task, p.current, p.to, p.sent);
  }

  lemma TurnDecreases(task: Task, p: Producer, ctx: bool, l: Label)
    requires CanTurn(task, p, ctx, l)
    ensures ProducerRank(task, Turn(task, p, ctx, l)) + (if l.Send? then 4 else 1) <= ProducerRank(task, p)
  {
    if Ends(l) {
      EndTurnDecreases(task, p, ctx, l);
    } else if l.Check? {
      CheckRankDecreases(task, p.current);
    } else if l.Query? {
      QueryTurnDecreases(task, p, ctx, l);
    } else if l.StoreLog? {
      StoreTurnDecreases(task, p, ctx, l);
    } else if l.Filtered? {
      FilterTurnDecreases(task, p, ctx, l);
    } else if l.Send? {
      SendTurnDecreases(task, p, ctx, l);
    } else if l.NextChunk? {
      NextTurnDecreases(task, p, ctx, l);
    }
  }

  lemma EffectKeepsConsumer(task: Task, s: State, l: Label)
    requires ProducerEnabled(task, s, l)
    ensures
      var s' := Effect(task, s, l);
      && s'.consumer == s.consumer && s'.taken == s.taken && s'.ctx == s.ctx
      && |s'.buffer| == |s.buffer| + (if l.Send? then 1 else 0)
  {
  }

  lemma ProducerKeepsConsumer(task: Task, s: State, l: Label)
    requires ProducerEnabled(task, s, l)
    ensures
      var s' := ProducerStep(task, s, l);
      && s'.producer == Turn(task, s.producer, s.ctx, l)
      && s'.consumer == s.consumer && s'.taken == s.taken && s'.ctx == s.ctx
      && |s'.buffer| == |s.buffer| + (if l.Send? then 1 else 0)
  {
    EffectKeepsConsumer(task, s, l);
  }

  lemma RankDecreases(task: Task, s: State, l: Label)
    requires Enabled(task, s, l)
    ensures Rank(task, Step(task, s, l)) < Rank(task, s)
  {
    if Quiet(l) {
      QuietStep(task, s, l);
    } else {
      ProducerKeepsConsumer(task, s, l);
      TurnDecreases(task, s.producer, s.ctx, l);
    }
  }

  lemma MoveDecreases(task: Task, s: State, l: Label, t: State)
    requires Moves(task, s, l, t)
    ensures Rank(task, t) < Rank(task, s)
  {
    RankDecreases(task, s, l);
  }

  /** Every step uses up a bounded supply, so every run, whatever is chosen, is at most as long as
      its starting rank; together with `NeverStuck`, a backfill always comes to an end. */
  lemma {:induction false} EveryRunEnds(
    task: Task, db: Db, stale: Option<int>, states: seq<State>, labels: seq<Label>, i: nat)
    requires Run(task, states, labels) && states[0] == Init(db, stale) && i < |states|
    ensures i + Rank(task, states[i]) <= Rank(task, states[0])
    ensures i == |labels| && (forall l :: Enabled(task, states[i], l) ==> !Clean(l)) ==> Finished(states[i])
  {
    RunIsOk(task, db, stale, states, labels, i);
    if i > 0 {
      EveryRunEnds(task, db, stale, states, labels, i - 1);
      MoveAt(task, states, labels, i - 1);
      MoveDecreases(task, states[i - 1], labels[i - 1], states[i]);
    }
    if !Finished(states[i]) { NeverStuck(task, states[i]); }
  }

  // ---------- published progress ----------

  // The producer has published a position.
  predicate Published(s: State) {
    !s.producer.Starting? && !(Over(s.producer) && s.producer.exit.NoHead?)
  }

  /** Whatever the status entry says is true: below it every block was fetched and every log of
      those blocks was sent. The entry disappears exactly when the loop completes. */
  lemma StatusIsTrue(task: Task, db: Db, stale: Option<int>, states: seq<State>, labels: seq<Label>, i: nat)
    requires Run(task, states, labels) && states[0] == Init(db, stale) && i < |states|
    requires Published(states[i])
    ensures
      var s := states[i];
      && (s.status.None? <==> s.producer.Closing? || (Over(s.producer) && s.producer.exit.Completed?))
      && (s.status.Some? ==>
            && task.start <= s.status.value
            && (forall b :: task.start <= b < s.status.value ==> Covered(s.fetched, b))
            && forall x :: x in task.chain && task.start <= x.block < s.status.value ==> x in s.sent)
  {
    RunIsOk(task, db, stale, states, labels, i);
    var s := states[i];
    if s.status.Some? {
      DoneCovers(task.start, End(task), s.passed, s.status.value);
      FetchedMeaning(task.chain, s.passed);
      forall b | task.start <= b < s.status.value ensures Covered(s.fetched, b) {
        assert Covered(s.passed, b);
        var k :| 0 <= k < |s.passed| && s.passed[k].from <= b <= s.passed[k].to;
        assert s.fetched[k] == s.passed[k];
      }
      forall x | x in task.chain && task.start <= x.block < s.status.value ensures x in s.sent {
        assert x in Fetched(task.chain, s.passed);
      }
    }
  }

  // From s to t the position was not lost and did not go back.
  ghost predicate Advanced(s: State, t: State) {
    && Published(s) && Published(t)
    && (t.status.Some? ==> s.status.Some? && s.status.value <= t.status.value)
  }

  lemma StatusStep(task: Task, s: State, l: Label)
    requires LoopOk(task, s) && Published(s) && Enabled(task, s, l)
    ensures Advanced(s, Step(task, s, l))
  {
    if Quiet(l) { QuietStep(task, s, l); }
  }

  lemma AdvancedFurther(task: Task, r: State, s: State, l: Label, t: State)
    requires Ok(task, s) && Advanced(r, s) && Moves(task, s, l, t)
    ensures Advanced(r, t)
  {
    StatusStep(task, s, l);
  }

  /** Progress never goes back: between two states of a run that show an entry of this run, the
      later one is at least the earlier one. */
  lemma {:induction false} StatusGrows(
    task: Task, db: Db, stale: Option<int>, states: seq<State>, labels: seq<Label>, i: nat, j: nat)
    requires Run(task, states, labels) && states[0] == Init(db, stale) && i <= j < |states|
    requires Published(states[i])
    ensures Advanced(states[i], states[j])
  {
    if i < j {
      StatusGrows(task, db, stale, states, labels, i, j - 1);
      RunIsOk(task, db, stale, states, labels, j - 1);
      MoveAt(task, states, labels, j - 1);
      AdvancedFurther(task, states[i], states[j - 1], labels[j - 1], states[j]);
    }
  }
}
