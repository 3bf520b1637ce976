/**
 What a backfill task does to the event table: exactly what its queries do, as long as nothing
 goes wrong; and which logs can be lost when lookups, insertions, headers or queries fail or the
 task is cancelled.
 */
module HandoffStore {
  import opened Backfill
  import opened EventStore
  import opened Handoff
  import opened Numerals
  import opened Options

  // ---------- the lookup of the consumer ----------

  // Some contract, this one or another, has a row for the log.
  ghost predicate AnyRow(rows: seq<Row>, x: Log) {
    exists c :: HasKey(rows, KeyOfLog(c, x))
  }

  lemma HasLogIff(rows: seq<Row>, x: Log)
    ensures HasLog(rows, x) <==> AnyRow(rows, x)
  {
    if HasLog(rows, x) {
      var i :| 0 <= i < |rows| && rows[i].block == ToInt(x.block) && rows[i].txHash == x.txHash
               && rows[i].index == ToInt(x.index);
      assert KeyOfRow(rows[i]) == KeyOfLog(rows[i].contract, x);
    }
    if c :| HasKey(rows, KeyOfLog(c, x)) {
      var i :| 0 <= i < |rows| && KeyOfRow(rows[i]) == KeyOfLog(c, x);
      assert rows[i].block == ToInt(x.block);
    }
  }

  /** The consumer skips a log exactly if its lookup succeeds and some contract has a row with the
      block, transaction and index of the log; otherwise it goes on to insert it. */
  lemma LookupSkipsIff(task: Task, s: State, ok: bool)
    requires s.consumer.Looking?
    ensures Enabled(task, s, Lookup(ok))
    ensures
      var x, t := s.consumer.log, Step(task, s, Lookup(ok));
      && (t.consumer == Selecting <==> ok && exists c :: HasKey(s.db.rows, KeyOfLog(c, x)))
      && (t.consumer == Selecting || t.consumer == Adding(x)) && t.(consumer := s.consumer) == s
  {
    HasLogIff(s.db.rows, s.consumer.log);
  }

  // ---------- the table, when nothing goes wrong ----------

  // The logs that the queries have put into the table so far.
  function StoredSoFar(task: Task, s: State): seq<Log> {
    var p := s.producer;
    Fetched(task.chain, s.fetched) +
    (if p.Filtering? && p.stored <= |Batch(task, p.current, p.to)| then Batch(task, p.current, p.to)[..p.stored] else [])
  }

  ghost predicate StoreOk(task: Task, db: Db, s: State) {
    && !s.ctx && !s.consumer.Adding? && (Over(s.producer) ==> s.producer.exit == Completed)
    && s.db == EventStore.Ingest(db, task.env, StoredSoFar(task, s))
  }

  ghost predicate Fit(task: Task) {
    task.env.contract.Some? && HeadersKnown(task.env)
  }

  lemma IngestedHaveRows(db: Db, env: Env, logs: seq<Log>, x: Log)
    requires env.contract.Some? && HeadersKnown(env) && x in logs
    ensures HasKey(EventStore.Ingest(db, env, logs).rows, KeyOfLog(env.contract.value, x))
  {
    var c := env.contract.value;
    var added := Added(db.rows, env, c, logs);
    var rows := EventStore.Ingest(db, env, logs).rows;
    IngestAdds(db, env, logs);
    AddedMeaning(db.rows, env, c, logs);
    if HasKey(db.rows, KeyOfLog(c, x)) {
      var i :| 0 <= i < |db.rows| && KeyOfRow(db.rows[i]) == KeyOfLog(c, x);
      assert rows[i] == db.rows[i];
    } else {
      var i :| 0 <= i < |added| && KeyOfLog(c, added[i]) == KeyOfLog(c, x);
      assert rows[|db.rows| + i] == RowOf(env, c, added[i]);
    }
  }

  lemma SentWasStored(task: Task, s: State, x: Log)
    requires TrafficOk(task, s) && x in s.sent && (Over(s.producer) ==> s.producer.exit == Completed)
    ensures x in StoredSoFar(task, s)
  {
    var p := s.producer;
    if p.Sending? {
      FetchedAppend(task.chain, s.passed, Window(p.current, p.to));
      assert x in Fetched(task.chain, s.passed) || x in Batch(task, p.current, p.to);
    } else {
      assert s.passed + [] == s.passed;
    }
  }

  lemma FilteredKeepsStored(task: Task, s: State)
    requires TrafficOk(task, s) && ProducerEnabled(task, s, Filtered)
    ensures StoredSoFar(task, ProducerStep(task, s, Filtered)) == StoredSoFar(task, s)
  {
    FetchedAppend(task.chain, s.fetched, Window(s.producer.current, s.producer.to));
  }

  lemma OtherStepsKeepStored(task: Task, s: State, l: Label)
    requires Enabled(task, s, l) && !l.StoreLog? && !l.Filtered?
    ensures StoredSoFar(task, Step(task, s, l)) == StoredSoFar(task, s)
  {
    if Quiet(l) { QuietStep(task, s, l); }
  }

  lemma StoreLogStep(task: Task, db: Db, s: State, f: Faults)
    requires StoreOk(task, db, s) && ProducerEnabled(task, s, StoreLog(f)) && f == NO_FAULTS
    ensures StoreOk(task, db, ProducerStep(task, s, StoreLog(f)))
  {
    var p := s.producer;
    var batch := Batch(task, p.current, p.to);
    assert batch[..p.stored + 1] == batch[..p.stored] + [batch[p.stored]];
    Reassociate(Fetched(task.chain, s.fetched), batch[..p.stored], [batch[p.stored]]);
    IngestConcat(db, task.env, StoredSoFar(task, s), [batch[p.stored]]);
  }

  /** As long as nothing has gone wrong, the contract has a row for every log the consumer looks up, and
      the lookup makes the consumer skip it. */
  lemma LookupFinds(task: Task, db: Db, s: State)
    requires TrafficOk(task, s) && ChannelsOk(s) && StoreOk(task, db, s) && Fit(task) && s.consumer.Looking?
    ensures HasKey(s.db.rows, KeyOfLog(task.env.contract.value, s.consumer.log))
    ensures Enabled(task, s, Lookup(true)) && Step(task, s, Lookup(true)) == s.(consumer := Selecting)
  {
    SentWasStored(task, s, s.consumer.log);
    IngestedHaveRows(db, task.env, StoredSoFar(task, s), s.consumer.log);
    LookupSkipsIff(task, s, true);
  }

  lemma QuietStepsKeepDb(task: Task, s: State, l: Label)
    requires Enabled(task, s, l) && OfConsumer(l) && Clean(l) && !s.consumer.Adding?
    requires l.Lookup? ==> Step(task, s, l) == s.(consumer := Selecting)
    ensures
      var s' := Step(task, s, l);
      s'.db == s.db && !s'.consumer.Adding? && s'.ctx == s.ctx && s'.producer == s.producer
  {
  }

  lemma ProducerStepsKeepDb(task: Task, s: State, l: Label)
    requires ProducerEnabled(task, s, l) && !l.StoreLog? && Clean(l) && !s.ctx
    ensures
      var s' := ProducerStep(task, s, l);
      && s'.db == s.db && s'.consumer == s.consumer && !s'.ctx
      && ((Over(s.producer) ==> s.producer.exit == Completed) ==> (Over(s'.producer) ==> s'.producer.exit == Completed))
  {
  }

  lemma StoreStep(task: Task, db: Db, s: State, l: Label)
    requires Ok(task, s) && StoreOk(task, db, s) && Fit(task) && Enabled(task, s, l) && Clean(l)
    ensures StoreOk(task, db, Step(task, s, l))
  {
    if l.StoreLog? {
      StoreLogStep(task, db, s, l.faults);
    } else {
      if l.Lookup? { LookupFinds(task, db, s); }
      if Quiet(l) { QuietStepsKeepDb(task, s, l); } else { ProducerStepsKeepDb(task, s, l); }
      if l.Filtered? { FilteredKeepsStored(task, s); } else { OtherStepsKeepStored(task, s, l); }
    }
  }

  /** While nothing goes wrong the table is what the queries alone have made of it: the consumer
      finds every log that reaches it and inserts nothing, wherever it is stopped. */
  lemma {:induction false} TableIsTheQueries(
    task: Task, db: Db, stale: Option<int>, states: seq<State>, labels: seq<Label>, i: nat)
    requires Run(task, states, labels) && states[0] == Init(db, stale) && i < |states|
    requires Fit(task) && forall k :: 0 <= k < |labels| ==> Clean(labels[k])
    ensures Ok(task, states[i]) && StoreOk(task, db, states[i])
  {
    if i == 0 {
      FirstStore(task, db, stale);
    } else {
      TableIsTheQueries(task, db, stale, states, labels, i - 1);
      MoveAt(task, states, labels, i - 1);
      StoreMove(task, db, states[i - 1], labels[i - 1], states[i]);
    }
    RunIsOk(task, db, stale, states, labels, i);
  }

  lemma StoreMove(task: Task, db: Db, s: State, l: Label, t: State)
    requires Ok(task, s) && StoreOk(task, db, s) && Fit(task) && Moves(task, s, l, t) && Clean(l)
    ensures StoreOk(task, db, t)
  {
    StoreStep(task, db, s, l);
  }

  lemma FirstStore(task: Task, db: Db, stale: Option<int>)
    ensures StoreOk(task, db, Init(db, stale))
  {
  }

  // The blocks of a backfill: from the start to the head, except a head at a multiple of 2001.
  predicate InReach(task: Task, b: int) {
    task.start <= b <= End(task) && !(b == End(task) && (End(task) - task.start) % (CHUNK + 1) == 0)
  }

  /** These are the blocks up to the head as the chain reports it, as long as that is below 2^63; from there
      on it reaches the loop as a negative number, and no block at all is asked for. */
  lemma ReachOfHead(task: Task, b: int)
    requires 0 <= task.start && task.head < TWO_64
    ensures task.head < TWO_63 ==>
      (InReach(task, b) <==> task.start <= b <= task.head && !(b == task.head && (task.head - task.start) % 2001 == 0))
    ensures task.head >= TWO_63 ==> !InReach(task, b) && Windows(task.start, End(task)) == []
  {
  }

  /** A backfill that completes leaves the table with unique keys, with all its old rows, and with a
      row for every log from the start block to the head -- the head block itself is missed exactly
      when its distance from the start is a multiple of 2001 -- whatever the interleaving and
      however many events the consumer left in the channel. */
  lemma BackfillIsExact(task: Task, db: Db, stale: Option<int>, states: seq<State>, labels: seq<Label>)
    requires Run(task, states, labels) && states[0] == Init(db, stale)
    requires Fit(task) && forall k :: 0 <= k < |labels| ==> Clean(labels[k])
    requires Consistent(task.chain, task.env.contract.value) && UniqueKeys(db.rows) && task.start <= End(task)
    requires states[|labels|].producer.Gone?
    ensures
      var s, c, ws := states[|labels|], task.env.contract.value, Windows(task.start, End(task));
      && s.db == IngestWindows(db, task.env, task.chain, ws) && !s.flag && s.status == None
      && UniqueKeys(s.db.rows) && db.rows <= s.db.rows
      && RowSet(s.db.rows) == RowSet(db.rows) + NewRows(db.rows, task.env, c, task.chain, ws)
      && forall x :: x in task.chain ==>
           (HasKey(s.db.rows, KeyOfLog(c, x)) <==>
            HasKey(db.rows, KeyOfLog(c, x)) || InReach(task, x.block))
  {
    var s, ws := states[|labels|], Windows(task.start, End(task));
    TableIsTheQueries(task, db, stale, states, labels, |labels|);
    assert s.fetched == ws && StoredSoFar(task, s) == Fetched(task.chain, ws);
    WindowsAreOneQuery(db, task.env, task.chain, ws);
    StoreIsTheUnion(db, task.env, task.chain, ws);
    forall x | x in task.chain
      ensures HasKey(s.db.rows, KeyOfLog(task.env.contract.value, x))
         <==> HasKey(db.rows, KeyOfLog(task.env.contract.value, x)) || InReach(task, x.block)
    {
      StoredIff(db, task.env, task.chain, ws, x);
      CoverageIff(task.start, End(task), x.block);
    }
  }

  // ---------- the table, whatever goes wrong ----------

  // The contract has a row for this log.
  predicate OwnRow(task: Task, rows: seq<Row>, x: Log) {
    HasKey(rows, KeyOfLog(task.contract, x))
  }

  // The log of a StoreLog step.
  function AtHand(task: Task, s: State): Option<Log> {
    var p := s.producer;
    if p.Filtering? && p.stored < |Batch(task, p.current, p.to)| then Some(Batch(task, p.current, p.to)[p.stored]) else None
  }

  // The step is an insertion for this log, by a query or by the consumer, and it goes through: the
  // database takes it, and the block header is found if the query needs it.
  predicate Writes(task: Task, s: State, l: Label, x: Log) {
    match l
    case StoreLog(f) =>
      && AtHand(task, s).Some? && task.env.contract.Some? && f.insertOk
      && var y := AtHand(task, s).value;
         KeyOfLog(task.env.contract.value, y) == KeyOfLog(task.contract, x)
         && (task.env.decodable(y) ==> task.env.time(y.block).Some?)
    case Add(ok) => s.consumer.Adding? && ok && KeyOfLog(task.contract, s.consumer.log) == KeyOfLog(task.contract, x)
    case _ => false
  }

  lemma ProcessRow(db: Db, env: Env, y: Log, f: Faults, k: RowKey)
    ensures HasKey(Process(db, env, y, f).rows, k) <==>
      || HasKey(db.rows, k)
      || (env.contract.Some? && f.insertOk && KeyOfLog(env.contract.value, y) == k
          && (env.decodable(y) ==> env.time(y.block).Some?))
  {
    if env.contract.Some? { HasKeyAppend(db.rows, RowOf(env, env.contract.value, y)); }
  }

  lemma StoreLogRow(task: Task, s: State, f: Faults, x: Log)
    requires ProducerEnabled(task, s, StoreLog(f))
    ensures OwnRow(task, ProducerStep(task, s, StoreLog(f)).db.rows, x)
       <==> OwnRow(task, s.db.rows, x) || Writes(task, s, StoreLog(f), x)
  {
    var y := AtHand(task, s).value;
    ProcessRow(s.db, task.env, y, f, KeyOfLog(task.contract, x));
    assert ProducerStep(task, s, StoreLog(f)).db == Process(s.db, task.env, y, f);
  }

  lemma AddRow(task: Task, s: State, ok: bool, x: Log)
    requires s.consumer.Adding?
    ensures OwnRow(task, ConsumerStep(task, s, Add(ok)).db.rows, x)
       <==> OwnRow(task, s.db.rows, x) || Writes(task, s, Add(ok), x)
  {
    HasKeyAppend(s.db.rows, RowOf(task.env, task.contract, s.consumer.log));
  }

  lemma ProducerKeepsRows(task: Task, s: State, l: Label)
    requires ProducerEnabled(task, s, l) && !l.StoreLog?
    ensures ProducerStep(task, s, l).db == s.db
  {
  }

  lemma OtherStepsKeepRows(task: Task, s: State, l: Label)
    requires Enabled(task, s, l) && !l.StoreLog? && !l.Add?
    ensures Step(task, s, l).db == s.db
  {
    if !Quiet(l) { ProducerKeepsRows(task, s, l); }
  }

  lemma RowStep(task: Task, s: State, l: Label, x: Log)
    requires Enabled(task, s, l)
    ensures OwnRow(task, Step(task, s, l).db.rows, x) <==> OwnRow(task, s.db.rows, x) || Writes(task, s, l, x)
  {
    if l.StoreLog? {
      StoreLogRow(task, s, l.faults, x);
    } else if l.Add? {
      AddRow(task, s, l.ok, x);
    } else {
      OtherStepsKeepRows(task, s, l);
    }
  }

  ghost predicate Written(task: Task, states: seq<State>, labels: seq<Label>, n: nat, x: Log)
    requires n <= |labels| < |states|
  {
    exists k :: 0 <= k < n && Writes(task, states[k], labels[k], x)
  }

  /** In every run a contract has a row for a log exactly if it had one before or some insertion
      for it went through. */
  lemma {:induction false} RowIff(
    task: Task, db: Db, stale: Option<int>, states: seq<State>, labels: seq<Label>, i: nat, x: Log)
    requires Run(task, states, labels) && states[0] == Init(db, stale) && i < |states|
    ensures OwnRow(task, states[i].db.rows, x) <==> OwnRow(task, db.rows, x) || Written(task, states, labels, i, x)
  {
    if i > 0 {
      RowIff(task, db, stale, states, labels, i - 1, x);
      MoveAt(task, states, labels, i - 1);
      RowStep(task, states[i - 1], labels[i - 1], x);
    }
  }

  // ---------- what becomes of the logs that were sent ----------

  predicate InHand(c: Consumer, x: Log) {
    (c.Looking? || c.Adding?) && c.log == x
  }

  // The consumer tried to insert the log and failed.
  ghost predicate AddFailed(states: seq<State>, labels: seq<Label>, n: nat, x: Log)
    requires n <= |labels| < |states|
  {
    exists k :: 0 <= k < n && labels[k] == Add(false) && states[k].consumer == Adding(x)
  }

  // A contract other than that of the backfill has a row for the log, under the same block, transaction
  // and index, and that of the backfill has none.
  ghost predicate OthersRow(task: Task, rows: seq<Row>, x: Log) {
    !HasKey(rows, KeyOfLog(task.contract, x)) && exists c :: HasKey(rows, KeyOfLog(c, x))
  }

  // The consumer's lookup, which ignores the contract, found the row of another contract.
  ghost predicate FoundOther(task: Task, states: seq<State>, labels: seq<Label>, n: nat, x: Log)
    requires n <= |labels| < |states|
  {
    exists k :: 0 <= k < n && Confused(task, states[k], labels[k], x)
  }

  ghost predicate Confused(task: Task, s: State, l: Label, x: Log) {
    l == Lookup(true) && s.consumer == Looking(x) && OthersRow(task, s.db.rows, x)
  }

  ghost predicate Accounted(task: Task, states: seq<State>, labels: seq<Label>, n: nat, x: Log)
    requires n <= |labels| < |states|
  {
    || OwnRow(task, states[n].db.rows, x) || InHand(states[n].consumer, x)
    || AddFailed(states, labels, n, x) || FoundOther(task, states, labels, n, x)
  }

  // What a step can do to a log in the hands of the consumer, and what it can put there.
  lemma HandStep(task: Task, s: State, l: Label, x: Log)
    requires Enabled(task, s, l)
    ensures
      var t := Step(task, s, l);
      && (InHand(s.consumer, x) && !InHand(t.consumer, x) ==>
            || (l == Lookup(true) && s.consumer == Looking(x) && AnyRow(s.db.rows, x))
            || (l.Add? && s.consumer == Adding(x)))
      && (x in t.taken ==> x in s.taken || InHand(t.consumer, x))
  {
    if !OfConsumer(l) { ProducerKeepsHand(task, s, l); }
    if l.Lookup? { LookupSkipsIff(task, s, l.ok); }
  }

  lemma ProducerKeepsHand(task: Task, s: State, l: Label)
    requires Enabled(task, s, l) && !OfConsumer(l)
    ensures Step(task, s, l).consumer == s.consumer && Step(task, s, l).taken == s.taken
  {
    if !l.Cancel? { ProducerKeepsConsumer(task, s, l); }
  }

  lemma {:induction false} TakenIsAccounted(
    task: Task, db: Db, stale: Option<int>, states: seq<State>, labels: seq<Label>, i: nat, x: Log)
    requires Run(task, states, labels) && states[0] == Init(db, stale) && i < |states| && x in states[i].taken
    ensures Accounted(task, states, labels, i, x)
  {
    if i > 0 {
      var s, l := states[i - 1], labels[i - 1];
      MoveAt(task, states, labels, i - 1);
      HandStep(task, s, l, x);
      RowStep(task, s, l, x);
      if x in s.taken {
        TakenIsAccounted(task, db, stale, states, labels, i - 1, x);
        AccountedStep(task, states, labels, i - 1, x);
      }
    }
  }

  lemma AccountedStep(task: Task, states: seq<State>, labels: seq<Label>, n: nat, x: Log)
    requires n < |labels| < |states| && Moves(task, states[n], labels[n], states[n + 1])
    requires Accounted(task, states, labels, n, x)
    ensures Accounted(task, states, labels, n + 1, x)
  {
    var s, l := states[n], labels[n];
    HandStep(task, s, l, x);
    RowStep(task, s, l, x);
    if AddFailed(states, labels, n, x) {
      assert AddFailed(states, labels, n + 1, x);
    } else if FoundOther(task, states, labels, n, x) {
      assert FoundOther(task, states, labels, n + 1, x);
    } else if InHand(s.consumer, x) && !InHand(states[n + 1].consumer, x) && !OwnRow(task, states[n + 1].db.rows, x) {
      assert l.Lookup? ==> Confused(task, s, l, x);
      assert l.Add? ==> l == Add(false);
    }
  }

  /** When the consumer has stopped, a log that was sent is lost -- its contract has no row for it --
      exactly if there was none before and every insertion for it failed, that of the query and that
      of the consumer, if the consumer came to it. And it came to nothing only if the log was
      abandoned in the channel, or its insertion failed there too, or the lookup took the row of
      another contract for it. */
  lemma LossIff(task: Task, db: Db, stale: Option<int>, states: seq<State>, labels: seq<Label>, x: Log)
    requires Run(task, states, labels) && states[0] == Init(db, stale)
    requires states[|labels|].consumer.Stopped? && x in states[|labels|].sent
    ensures
      var t, n := states[|labels|], |labels|;
      && (!OwnRow(task, t.db.rows, x) <==> !OwnRow(task, db.rows, x) && !Written(task, states, labels, n, x))
      && (!OwnRow(task, t.db.rows, x) ==>
            x in t.buffer || AddFailed(states, labels, n, x) || FoundOther(task, states, labels, n, x))
  {
    var t, n := states[|labels|], |labels|;
    RunIsOk(task, db, stale, states, labels, n);
    RowIff(task, db, stale, states, labels, n, x);
    if x in t.taken { TakenIsAccounted(task, db, stale, states, labels, n, x); }
  }

  /** If the consumer's insertions never fail and no lookup is confused, then, when the consumer has
      stopped, every log that was sent has its row exactly if every log left in the channel has. */
  lemma StoredIffBufferStored(task: Task, db: Db, stale: Option<int>, states: seq<State>, labels: seq<Label>)
    requires Run(task, states, labels) && states[0] == Init(db, stale) && states[|labels|].consumer.Stopped?
    requires forall k :: 0 <= k < |labels| ==> labels[k] != Add(false)
    requires forall k, x :: 0 <= k < |labels| && x in states[|labels|].sent ==> !Confused(task, states[k], labels[k], x)
    ensures
      var t := states[|labels|];
      (forall x :: x in t.sent ==> OwnRow(task, t.db.rows, x)) <==> (forall x :: x in t.buffer ==> OwnRow(task, t.db.rows, x))
  {
    var t := states[|labels|];
    RunIsOk(task, db, stale, states, labels, |labels|);
    forall x | x in t.sent && x !in t.buffer ensures OwnRow(task, t.db.rows, x) {
      LossIff(task, db, stale, states, labels, x);
    }
    assert forall x :: x in t.buffer ==> x in t.sent;
  }

  // ---------- the queries suffice ----------

  // What was sent has been fetched, and what was fetched has been stored.
  ghost predicate SentFetched(task: Task, s: State) {
    forall x :: x in s.sent ==> x in Fetched(task.chain, s.fetched)
  }

  ghost predicate AllStored(task: Task, s: State) {
    forall x :: x in StoredSoFar(task, s) ==> OwnRow(task, s.db.rows, x)
  }

  lemma SentStep(task: Task, s: State, l: Label)
    requires TrafficOk(task, s) && SentFetched(task, s) && Enabled(task, s, l)
    ensures SentFetched(task, Step(task, s, l))
  {
    var p := s.producer;
    if Quiet(l) {
      QuietStep(task, s, l);
    } else if l.Send? {
      FetchedAppend(task.chain, s.passed, Window(p.current, p.to));
      assert Batch(task, p.current, p.to)[p.sent] in Fetched(task.chain, s.fetched);
    } else if l.Filtered? {
      FetchedAppend(task.chain, s.fetched, Window(p.current, p.to));
    } else {
      OtherStepsSendNothing(task, s, l);
    }
  }

  lemma OtherStepsSendNothing(task: Task, s: State, l: Label)
    requires ProducerEnabled(task, s, l) && !l.Send? && !l.Filtered?
    ensures ProducerStep(task, s, l).sent == s.sent && ProducerStep(task, s, l).fetched == s.fetched
  {
  }

  lemma AllStoredStep(task: Task, s: State, l: Label)
    requires TrafficOk(task, s) && AllStored(task, s) && Enabled(task, s, l)
    requires Fit(task) && task.env.contract == Some(task.contract) && (l.StoreLog? ==> l.faults.insertOk)
    ensures AllStored(task, Step(task, s, l))
  {
    var p, t := s.producer, Step(task, s, l);
    if l.StoreLog? {
      var batch := Batch(task, p.current, p.to);
      assert batch[..p.stored + 1] == batch[..p.stored] + [batch[p.stored]];
      assert task.env.time(batch[p.stored].block).Some?;
    } else if l.Filtered? {
      FilteredKeepsStored(task, s);
    } else {
      OtherStepsKeepStored(task, s, l);
    }
    forall x | x in StoredSoFar(task, t) ensures OwnRow(task, t.db.rows, x) { RowStep(task, s, l, x); }
  }

  /** If the insertions of the queries go through, every log that was sent has its row, at every
      moment and whatever else is cancelled or fails. */
  lemma {:induction false} QueriesSuffice(
    task: Task, db: Db, stale: Option<int>, states: seq<State>, labels: seq<Label>, i: nat)
    requires Run(task, states, labels) && states[0] == Init(db, stale) && i < |states|
    requires Fit(task) && task.env.contract == Some(task.contract)
    requires forall k :: 0 <= k < |labels| && labels[k].StoreLog? ==> labels[k].faults.insertOk
    ensures SentFetched(task, states[i]) && AllStored(task, states[i])
    ensures forall x :: x in states[i].sent ==> OwnRow(task, states[i].db.rows, x)
  {
    if i > 0 {
      QueriesSuffice(task, db, stale, states, labels, i - 1);
      RunIsOk(task, db, stale, states, labels, i - 1);
      MoveAt(task, states, labels, i - 1);
      SentStep(task, states[i - 1], labels[i - 1]);
      AllStoredStep(task, states[i - 1], labels[i - 1]);
    }
  }

  // A run put together step by step.
  ghost predicate Leads(task: Task, s: State, labels: seq<Label>, t: State)
    decreases |labels|
  {
    if labels == [] then s == t else Enabled(task, s, labels[0]) && Leads(task, Step(task, s, labels[0]), labels[1..], t)
  }

  lemma {:induction false} Then(task: Task, s: State, labels: seq<Label>, m: State, l: Label) returns (longer: seq<Label>)
    requires Leads(task, s, labels, m) && Enabled(task, m, l)
    ensures longer == labels + [l] && Leads(task, s, longer, Step(task, m, l))
    decreases |labels|
  {
    longer := labels + [l];
    if labels == [] {
      assert longer[1..] == [];
    } else {
      var rest := Then(task, Step(task, s, labels[0]), labels[1..], m, l);
      assert longer[1..] == rest;
    }
  }

  // One log in the first block of a chain of two.
  ghost predicate OneLog(task: Task, x: Log) {
    && task.start == 0 && task.head == 1 && task.chain == [x] && x.block == 0
    && task.env.contract.Some? && !task.env.decodable(x)
  }

  lemma OneBatch(task: Task, x: Log)
    requires OneLog(task, x)
    ensures End(task) == 1 && Batch(task, 0, 1) == [x]
  {
    assert [x][1..] == [] && LogsIn([], Window(0, 1)) == [];
  }

  const NOTHING := Init(Db([], []), None)

  /** That does happen: the query fails to insert a log, and the consumer stops on the done channel
      before taking it. The backfill has completed, the log was fetched and sent, and has no row. */
  lemma LostLogRun(task: Task, x: Log) returns (labels: seq<Label>, t: State)
    requires OneLog(task, x)
    ensures Leads(task, NOTHING, labels, t)
    ensures Finished(t) && t.producer.exit == Completed
    ensures x in t.sent && t.buffer == [x] && t.db.rows == []
  {
    var p: State;
    labels, p := ListenerReturns(task, x);
    labels := Then(task, NOTHING, labels, p, SeeDone);
    p := Step(task, p, SeeDone);
    labels := Then(task, NOTHING, labels, p, Mark);
    t := Step(task, p, Mark);
  }

  lemma ListenerReturns(task: Task, x: Log) returns (labels: seq<Label>, p: State)
    requires OneLog(task, x)
    ensures Leads(task, NOTHING, labels, p)
    ensures p == State(Marking(Completed), Selecting, [x], true, true, false, Db([], []), true, None,
                       [Window(0, 1)], [Window(0, 1)], [x], [])
  {
    labels, p := LoopCompletes(task, x);
    labels := Then(task, NOTHING, labels, p, Close);
    p := Step(task, p, Close);
    labels := Then(task, NOTHING, labels, p, CloseDone);
    p := Step(task, p, CloseDone);
  }

  lemma LoopCompletes(task: Task, x: Log) returns (labels: seq<Label>, p: State)
    requires OneLog(task, x)
    ensures Leads(task, NOTHING, labels, p)
    ensures p == State(Closing, Selecting, [x], false, false, false, Db([], []), true, None,
                       [Window(0, 1)], [Window(0, 1)], [x], [])
  {
    OneBatch(task, x);
    labels, p := LogIsSent(task, x);
    labels := Then(task, NOTHING, labels, p, NextChunk);
    p := Step(task, p, NextChunk);
    labels := Then(task, NOTHING, labels, p, Finish);
    p := Step(task, p, Finish);
  }

  lemma LogIsSent(task: Task, x: Log) returns (labels: seq<Label>, p: State)
    requires OneLog(task, x)
    ensures Leads(task, NOTHING, labels, p)
    ensures p == State(Sending(0, 1, 1), Selecting, [x], false, false, false, Db([], []), true, Some(0),
                       [Window(0, 1)], [], [x], [])
  {
    OneBatch(task, x);
    labels, p := QueryFailsToInsert(task, x);
    labels := Then(task, NOTHING, labels, p, Filtered);
    p := Step(task, p, Filtered);
    labels := Then(task, NOTHING, labels, p, Send);
    p := Step(task, p, Send);
  }

  lemma QueryFailsToInsert(task: Task, x: Log) returns (labels: seq<Label>, p: State)
    requires OneLog(task, x)
    ensures Leads(task, NOTHING, labels, p)
    ensures p == State(Filtering(0, 1, 1), Selecting, [], false, false, false, Db([], []), true, Some(0), [], [], [], [])
  {
    var f := StoreLog(Faults(true, false));
    OneBatch(task, x);
    labels, p := FirstQuery(task, x);
    labels := Then(task, NOTHING, labels, p, f);
    p := Step(task, p, f);
  }

  lemma FirstQuery(task: Task, x: Log) returns (labels: seq<Label>, p: State)
    requires OneLog(task, x)
    ensures Leads(task, NOTHING, labels, p)
    ensures p == State(Filtering(0, 1, 0), Selecting, [], false, false, false, Db([], []), true, Some(0), [], [], [], [])
  {
    OneBatch(task, x);
    labels := Then(task, NOTHING, [], NOTHING, Head);
    p := Step(task, NOTHING, Head);
    labels := Then(task, NOTHING, labels, p, Check);
    p := Step(task, p, Check);
    labels := Then(task, NOTHING, labels, p, Query);
    p := Step(task, p, Query);
  }
}
