/**
 What either side of a backfill task may do at each moment of a run, in terms of what has happened before
 and of what has been sent and taken, and what each step adds to the records.
 */
module HandoffChoices {
  import opened Backfill
  import opened EventStore
  import opened Handoff
  import opened Options

  ghost predicate Happened(labels: seq<Label>, i: nat, l: Label) {
    exists k :: 0 <= k < i <= |labels| && labels[k] == l
  }

  lemma EffectSignals(task: Task, s: State, l: Label)
    requires CanTurn(task, s.producer, s.ctx, l)
    ensures
      var t := Effect(task, s, l);
      t.closed == (s.closed || l == Close) && t.done == (s.done || l == CloseDone) && t.ctx == s.ctx
  {
  }

  lemma ConsumerSignals(task: Task, s: State, l: Label)
    requires ConsumerEnabled(s, l)
    ensures
      var t := ConsumerStep(task, s, l);
      t.closed == s.closed && t.done == s.done && t.ctx == s.ctx
  {
  }

  lemma SignalStep(task: Task, s: State, l: Label, t: State)
    requires Moves(task, s, l, t)
    ensures t.closed == (s.closed || l == Close) && t.done == (s.done || l == CloseDone) && t.ctx == (s.ctx || l == Cancel)
  {
    if OfConsumer(l) { ConsumerSignals(task, s, l); } else if !l.Cancel? { EffectSignals(task, s, l); }
  }

  lemma OneStepMore(labels: seq<Label>, i: nat, l: Label)
    requires 0 < i <= |labels|
    ensures Happened(labels, i, l) <==> Happened(labels, i - 1, l) || labels[i - 1] == l
  {
  }

  /** The channel is closed, the done channel is closed, the context is cancelled exactly if the step that
      does it has happened. */
  lemma {:induction false} SignalsIff(
    task: Task, db: Db, stale: Option<int>, states: seq<State>, labels: seq<Label>, i: nat)
    requires Run(task, states, labels) && states[0] == Init(db, stale) && i < |states|
    ensures states[i].closed <==> Happened(labels, i, Close)
    ensures states[i].done <==> Happened(labels, i, CloseDone)
    ensures states[i].ctx <==> Happened(labels, i, Cancel)
  {
    if i > 0 {
      SignalsIff(task, db, stale, states, labels, i - 1);
      MoveAt(task, states, labels, i - 1);
      SignalStep(task, states[i - 1], labels[i - 1], states[i]);
      OneStepMore(labels, i, Close);
      OneStepMore(labels, i, CloseDone);
      OneStepMore(labels, i, Cancel);
    }
  }

  /** In its select the consumer can take a log exactly if one has been sent that was not taken; it can stop
      on the closed channel exactly if it has taken all and the channel has been closed; on the done
      channel exactly if that has been closed; and it can see a cancellation exactly if there was one. */
  lemma ConsumerChoices(task: Task, db: Db, stale: Option<int>, states: seq<State>, labels: seq<Label>, i: nat)
    requires Run(task, states, labels) && states[0] == Init(db, stale) && i < |states|
    requires states[i].consumer.Selecting?
    ensures
      var s := states[i];
      && (Enabled(task, s, Take) <==> |s.taken| < |s.sent|)
      && (Enabled(task, s, SeeClosed) <==> s.taken == s.sent && Happened(labels, i, Close))
      && (Enabled(task, s, SeeDone) <==> Happened(labels, i, CloseDone))
      && (Enabled(task, s, SeeCancel) <==> Happened(labels, i, Cancel))
  {
    RunIsOk(task, db, stale, states, labels, i);
    SignalsIff(task, db, stale, states, labels, i);
    SelectHere(task, states[i]);
  }

  lemma SelectHere(task: Task, s: State)
    requires s.sent == s.taken + s.buffer && s.consumer.Selecting?
    ensures Enabled(task, s, Take) <==> |s.taken| < |s.sent|
    ensures Enabled(task, s, SeeClosed) <==> s.taken == s.sent && s.closed
    ensures Enabled(task, s, SeeDone) <==> s.done
    ensures Enabled(task, s, SeeCancel) <==> s.ctx
  {
  }

  /** Between two chunks the producer goes on exactly if blocks are left and nothing was cancelled, it gives up
      exactly if blocks are left and something was, and it completes exactly if none are left. */
  lemma ChunkChoices(task: Task, db: Db, stale: Option<int>, states: seq<State>, labels: seq<Label>, i: nat)
    requires Run(task, states, labels) && states[0] == Init(db, stale) && i < |states|
    requires states[i].producer.Chunk?
    ensures
      var s, canceled, left := states[i], Happened(labels, i, Cancel), states[i].passed != Windows(task.start, End(task));
      && (Enabled(task, s, Check) <==> left && !canceled)
      && (Enabled(task, s, StopAtCheck) <==> left && canceled)
      && (Enabled(task, s, Finish) <==> !left)
  {
    RunIsOk(task, db, stale, states, labels, i);
    SignalsIff(task, db, stale, states, labels, i);
    ChunkHere(task, states[i]);
  }

  lemma ChunkHere(task: Task, s: State)
    requires LoopOk(task, s) && s.producer.Chunk?
    ensures
      var left := s.passed != Windows(task.start, End(task));
      && (Enabled(task, s, Check) <==> left && !s.ctx)
      && (Enabled(task, s, StopAtCheck) <==> left && s.ctx)
      && (Enabled(task, s, Finish) <==> !left)
  {
    var current := s.producer.current;
    assert Windows(task.start, End(task)) == s.passed + Windows(current, End(task));
    if current < End(task) {
      assert |Windows(current, End(task))| > 0;
    } else {
      assert s.passed + [] == s.passed;
    }
  }

  /** While it sends, it can send exactly if a fetched log is left and fewer than a hundred are waiting; it can
      give up exactly if a log is left and something was cancelled; it goes on exactly if none is left. */
  lemma SendChoices(task: Task, db: Db, stale: Option<int>, states: seq<State>, labels: seq<Label>, i: nat)
    requires Run(task, states, labels) && states[0] == Init(db, stale) && i < |states|
    requires states[i].producer.Sending?
    ensures
      var s, left := states[i], states[i].sent != Fetched(task.chain, states[i].fetched);
      && |s.sent| <= |s.taken| + 100
      && (Enabled(task, s, Send) <==> left && |s.sent| < |s.taken| + 100)
      && (Enabled(task, s, StopSending) <==> left && Happened(labels, i, Cancel))
      && (Enabled(task, s, NextChunk) <==> !left)
  {
    RunIsOk(task, db, stale, states, labels, i);
    SignalsIff(task, db, stale, states, labels, i);
    SendHere(task, states[i]);
  }

  lemma SendHere(task: Task, s: State)
    requires TrafficOk(task, s) && ChannelsOk(s) && s.producer.Sending?
    ensures
      var left := s.sent != Fetched(task.chain, s.fetched);
      && |s.sent| <= |s.taken| + 100
      && (Enabled(task, s, Send) <==> left && |s.sent| < |s.taken| + 100)
      && (Enabled(task, s, StopSending) <==> left && s.ctx)
      && (Enabled(task, s, NextChunk) <==> !left)
  {
    LeftToSend(task, s);
  }

  lemma LeftToSend(task: Task, s: State)
    requires TrafficOk(task, s) && s.producer.Sending?
    ensures
      var p := s.producer;
      s.sent == Fetched(task.chain, s.fetched) <==> p.sent == |Batch(task, p.current, p.to)|
  {
    var p := s.producer;
    var batch := Batch(task, p.current, p.to);
    FetchedAppend(task.chain, s.passed, Window(p.current, p.to));
    if p.sent == |batch| { assert batch[..p.sent] == batch; }
  }

  /** A head or a query may fail whenever it is asked for, and a cancellation may come once at any time. */
  lemma FailuresCanHappen(task: Task, db: Db, stale: Option<int>, states: seq<State>, labels: seq<Label>, i: nat)
    requires Run(task, states, labels) && states[0] == Init(db, stale) && i < |states|
    ensures
      var s := states[i];
      && (Enabled(task, s, HeadFails) <==> Enabled(task, s, Head))
      && (Enabled(task, s, Label.QueryFails) <==> Enabled(task, s, Query))
      && (Enabled(task, s, Cancel) <==> !Happened(labels, i, Cancel))
  {
    SignalsIff(task, db, stale, states, labels, i);
  }

  // ---------- the records ----------

  function One(b: bool): nat {
    if b then 1 else 0
  }

  // How often a kind of step has happened.
  function Sends(labels: seq<Label>): nat {
    if labels == [] then 0 else Sends(labels[..|labels| - 1]) + One(labels[|labels| - 1].Send?)
  }

  function TakesOf(labels: seq<Label>): nat {
    if labels == [] then 0 else TakesOf(labels[..|labels| - 1]) + One(labels[|labels| - 1].Take?)
  }

  function Queries(labels: seq<Label>): nat {
    if labels == [] then 0 else Queries(labels[..|labels| - 1]) + One(labels[|labels| - 1].Filtered?)
  }

  function Chunks(labels: seq<Label>): nat {
    if labels == [] then 0 else Chunks(labels[..|labels| - 1]) + One(labels[|labels| - 1].NextChunk?)
  }

  ghost predicate Recorded(s: State, labels: seq<Label>) {
    && |s.sent| == Sends(labels) && |s.taken| == TakesOf(labels)
    && |s.fetched| == Queries(labels) && |s.passed| == Chunks(labels)
  }

  lemma EffectRecords(task: Task, s: State, l: Label)
    requires CanTurn(task, s.producer, s.ctx, l)
    ensures
      var t := Effect(task, s, l);
      && |t.sent| == |s.sent| + One(l.Send?) && t.taken == s.taken
      && |t.fetched| == |s.fetched| + One(l.Filtered?) && |t.passed| == |s.passed| + One(l.NextChunk?)
  {
  }

  lemma ConsumerRecords(task: Task, s: State, l: Label)
    requires ConsumerEnabled(s, l)
    ensures
      var t := ConsumerStep(task, s, l);
      |t.taken| == |s.taken| + One(l.Take?) && t.sent == s.sent && t.fetched == s.fetched && t.passed == s.passed
  {
  }

  lemma RecordStep(task: Task, s: State, l: Label, t: State)
    requires Moves(task, s, l, t)
    ensures |t.sent| == |s.sent| + One(l.Send?) && |t.taken| == |s.taken| + One(l.Take?)
    ensures |t.fetched| == |s.fetched| + One(l.Filtered?) && |t.passed| == |s.passed| + One(l.NextChunk?)
  {
    if OfConsumer(l) { ConsumerRecords(task, s, l); } else if !l.Cancel? { EffectRecords(task, s, l); }
  }

  /** Every log sent or taken, every window fetched or passed is one step of its kind; and what was sent is
      always the beginning of what was fetched, however the listener ended. */
  lemma {:induction false} RecordsAreSteps(
    task: Task, db: Db, stale: Option<int>, states: seq<State>, labels: seq<Label>, i: nat)
    requires Run(task, states, labels) && states[0] == Init(db, stale) && i < |states|
    ensures Recorded(states[i], labels[..i])
    ensures states[i].sent <= Fetched(task.chain, states[i].fetched)
  {
    if i > 0 {
      RecordsAreSteps(task, db, stale, states, labels, i - 1);
      RunIsOk(task, db, stale, states, labels, i - 1);
      MoveAt(task, states, labels, i - 1);
      RecordStep(task, states[i - 1], labels[i - 1], states[i]);
      assert labels[..i][..i - 1] == labels[..i - 1];
      SentStep(task, states[i - 1], labels[i - 1], states[i]);
    }
  }

  lemma SentStep(task: Task, s: State, l: Label, t: State)
    requires Ok(task, s) && Moves(task, s, l, t) && s.sent <= Fetched(task.chain, s.fetched)
    ensures t.sent <= Fetched(task.chain, t.fetched)
  {
    if l.Send? {
      SendStep(task, s, t);
    } else if l.Filtered? {
      FetchedAppend(task.chain, s.fetched, Window(s.producer.current, s.producer.to));
    } else {
      OtherSteps(task, s, l, t);
    }
  }

  lemma SendStep(task: Task, s: State, t: State)
    requires TrafficOk(task, s) && Moves(task, s, Send, t)
    ensures t.sent <= Fetched(task.chain, t.fetched)
  {
    var p := s.producer;
    var batch, before := Batch(task, p.current, p.to), Fetched(task.chain, s.passed);
    FetchedAppend(task.chain, s.passed, Window(p.current, p.to));
    assert t.fetched == s.fetched && t.sent == before + batch[..p.sent] + [batch[p.sent]];
    BatchPrefix(before, batch, p.sent);
  }

  lemma BatchPrefix(before: seq<Log>, batch: seq<Log>, n: nat)
    requires n < |batch|
    ensures before + batch[..n] + [batch[n]] <= before + batch
  {
  }

  lemma OtherSteps(task: Task, s: State, l: Label, t: State)
    requires Moves(task, s, l, t) && !l.Send? && !l.Filtered?
    ensures t.sent == s.sent && t.fetched == s.fetched
  {
    if Quiet(l) { QuietStep(task, s, l); } else { EffectKeepsTraffic(task, s, l); }
  }

  lemma EffectKeepsTraffic(task: Task, s: State, l: Label)
    requires CanTurn(task, s.producer, s.ctx, l) && !l.Send? && !l.Filtered?
    ensures Effect(task, s, l).sent == s.sent && Effect(task, s, l).fetched == s.fetched
  {
  }
}
