/**
 What a subscriber receives: the machine of module `StreamMachine` together with a record of
 all broadcasts, of those offered to each stream, and of what each handler dequeued. A
 broadcast is one step.
 */
module StreamDelivery {
  import opened StreamRegistry
  import opened StreamMachine

  // One event broadcast to the key of a stream while it was listed, and how many were queued.
  datatype Offered = Offered(event: Event, queued: nat)

  datatype History<S(==)> = History(
    log: seq<(string, Event)>,        // every broadcast, with its key
    since: map<S, nat>,               // length of the log at registration
    until: map<S, nat>,               // length of the log at cleanup
    offers: map<S, seq<Offered>>,
    taken: map<S, seq<Event>>)        // dequeued by the handler

  function Nothing<S(==)>(): History<S> {
    History([], map[], map[], map[], map[])
  }

  ghost function Record<S>(st: State<S>, h: History<S>, l: Step<S>): History<S>
    requires Enabled(st, l) && h.taken.Keys == st.reg.streams.Keys
  {
    match l
    case Open(s, _, _) =>
      h.(since := h.since[s := |h.log|], offers := h.offers[s := []], taken := h.taken[s := []])
    case Emit(key, e) =>
      h.(log := h.log + [(key, e)],
         offers := map s | s in h.offers ::
           if s in st.reg.streams && s in Listed(st.reg, key)
           then h.offers[s] + [Offered(e, |st.reg.streams[s].queue|)] else h.offers[s])
    case Take(s) => h.(taken := h.taken[s := h.taken[s] + [st.reg.streams[s].queue[0]]])
    case Cleanup(s) => h.(until := h.until[s := |h.log|])
    case _ => h
  }

  // The events accepted: those that found the queue below its capacity.
  function Kept(o: seq<Offered>): seq<Event> {
    if o == [] then []
    else Kept(o[..|o| - 1]) + if o[|o| - 1].queued < CAPACITY then [o[|o| - 1].event] else []
  }

  function Events(o: seq<Offered>): seq<Event> {
    if o == [] then [] else Events(o[..|o| - 1]) + [o[|o| - 1].event]
  }

  // The events a stretch of the log has for a key.
  function OfKey(key: string, log: seq<(string, Event)>): seq<Event> {
    if log == [] then []
    else OfKey(key, log[..|log| - 1]) + if log[|log| - 1].0 == key then [log[|log| - 1].1] else []
  }

  // ---------- the invariant, stream by stream ----------

  // All that concerns one stream.
  datatype Trace = Trace(
    key: string, listed: bool, queue: seq<Event>, log: seq<(string, Event)>,
    since: nat, ended: bool, until: nat, offers: seq<Offered>, taken: seq<Event>)

  ghost function Project<S>(st: State<S>, h: History<S>, s: S): Trace
    requires Covered(st, h, s)
  {
    Trace(st.reg.streams[s].key, IsListed(st.reg, s), st.reg.streams[s].queue, h.log, h.since[s],
          s in h.until, if s in h.until then h.until[s] else |h.log|, h.offers[s], h.taken[s])
  }

  ghost predicate Covered<S>(st: State<S>, h: History<S>, s: S) {
    s in st.reg.streams && s in h.since && s in h.offers && s in h.taken
  }

  ghost predicate TraceOk(t: Trace) {
    && (t.ended <==> !t.listed)
    && t.since <= t.until <= |t.log|
    && (t.listed ==> t.until == |t.log|)
    && |t.queue| <= CAPACITY
    && (forall i :: 0 <= i < |t.offers| ==> t.offers[i].queued <= CAPACITY)
    && t.taken + t.queue == Kept(t.offers)
    && Events(t.offers) == OfKey(t.key, t.log[t.since..t.until])
  }

  ghost predicate HistoryOk<S>(st: State<S>, h: History<S>) {
    && SameKeys(st, h)
    && forall s :: s in st.reg.streams ==> Covered(st, h, s) && TraceOk(Project(st, h, s))
  }

  ghost predicate SameKeys<S>(st: State<S>, h: History<S>) {
    && h.since.Keys == h.offers.Keys == h.taken.Keys == st.reg.streams.Keys
    && h.until.Keys <= st.reg.streams.Keys
  }

  function TraceEmit(t: Trace, key: string, e: Event): Trace {
    var t' := t.(log := t.log + [(key, e)], until := if t.listed then |t.log| + 1 else t.until);
    if t.listed && t.key == key then
      t'.(offers := t.offers + [Offered(e, |t.queue|)],
          queue := if |t.queue| < CAPACITY then t.queue + [e] else t.queue)
    else t'
  }

  lemma TraceEmitOk(t: Trace, key: string, e: Event)
    requires TraceOk(t)
    ensures TraceOk(TraceEmit(t, key, e))
  {
    var t' := TraceEmit(t, key, e);
    if t.listed {
      var w := t'.log[t'.since..t'.until];
      assert w == t.log[t.since..t.until] + [(key, e)];
      assert w[..|w| - 1] == t.log[t.since..t.until];
      if t.key == key { assert t'.offers[..|t.offers|] == t.offers; }
    } else {
      assert t'.log[t'.since..t'.until] == t.log[t.since..t.until];
    }
  }

  lemma TraceTakeOk(t: Trace)
    requires TraceOk(t) && t.queue != []
    ensures TraceOk(t.(queue := t.queue[1..], taken := t.taken + [t.queue[0]]))
  {
    assert t.taken + [t.queue[0]] + t.queue[1..] == t.taken + t.queue;
  }

  // In a sound registry a stream is in the list of a key exactly when it is listed and that is its key.
  lemma ListedIff<S>(r: Registry<S>, key: string, s: S)
    requires Inv(r) && s in r.streams
    ensures s in Listed(r, key) <==> IsListed(r, s) && r.streams[s].key == key
  {
    if key in r.subscribers { assert ListOk(r, key); }
  }

  lemma EmitProjects<S>(st: State<S>, h: History<S>, key: string, e: Event, s: S)
    requires Covered(st, h, s) && h.taken.Keys == st.reg.streams.Keys && TraceOk(Project(st, h, s))
    requires s in Listed(st.reg, key) <==> IsListed(st.reg, s) && st.reg.streams[s].key == key
    ensures Covered(Apply(st, Emit(key, e)), Record(st, h, Emit(key, e)), s)
    ensures Project(Apply(st, Emit(key, e)), Record(st, h, Emit(key, e)), s) == TraceEmit(Project(st, h, s), key, e)
  {
  }

  lemma TakeProjects<S>(st: State<S>, h: History<S>, x: S, s: S)
    requires Covered(st, h, s) && Enabled(st, Take(x)) && h.taken.Keys == st.reg.streams.Keys
    ensures Covered(Apply(st, Take(x)), Record(st, h, Take(x)), s)
    ensures
      var t := Project(st, h, s);
      Project(Apply(st, Take(x)), Record(st, h, Take(x)), s) ==
      if s == x && t.queue != [] then t.(queue := t.queue[1..], taken := t.taken + [t.queue[0]]) else t
  {
  }

  lemma OpenProjects<S>(st: State<S>, h: History<S>, l: Step<S>, s: S)
    requires l.Open? && Enabled(st, l) && h.taken.Keys == st.reg.streams.Keys && l.s !in h.until
    requires Covered(st, h, s) || s == l.s
    ensures Covered(Apply(st, l), Record(st, h, l), s)
    ensures Project(Apply(st, l), Record(st, h, l), s) ==
      if s == l.s then Trace(l.key, true, [], h.log, |h.log|, false, |h.log|, [], []) else Project(st, h, s)
  {
    if s == l.s { assert s == Listed(Apply(st, l).reg, l.key)[|Listed(st.reg, l.key)|]; }
  }

  lemma CleanupProjects<S>(st: State<S>, h: History<S>, x: S, s: S)
    requires Inv(st.reg) && Covered(st, h, s) && Enabled(st, Cleanup(x)) && h.taken.Keys == st.reg.streams.Keys
    ensures Covered(Apply(st, Cleanup(x)), Record(st, h, Cleanup(x)), s)
    ensures
      var t := Project(st, h, s);
      Project(Apply(st, Cleanup(x)), Record(st, h, Cleanup(x)), s) ==
      if s == x then t.(listed := false, ended := true, until := |h.log|) else t
  {
    UnlistKeepsInv(st.reg, x);
    UnlistSparesOthers(st.reg, x);
  }

  predicate Quiet<S>(l: Step<S>) {
    l.Leave? || l.Close? || l.Finish? || l.ReadConn? || l.CancelConn? || l.DeleteConn?
  }

  lemma QuietProjects<S>(st: State<S>, h: History<S>, l: Step<S>, s: S)
    requires Covered(st, h, s) && Quiet(l) && Enabled(st, l)
    ensures Covered(Apply(st, l), h, s) && Project(Apply(st, l), h, s) == Project(st, h, s)
  {
  }

  lemma TraceKeptByQueueStep<S>(st: State<S>, h: History<S>, l: Step<S>, s: S)
    requires Inv(st.reg) && Enabled(st, l) && h.taken.Keys == st.reg.streams.Keys && (l.Emit? || l.Take?)
    requires Covered(st, h, s) && TraceOk(Project(st, h, s))
    ensures Covered(Apply(st, l), Record(st, h, l), s)
    ensures TraceOk(Project(Apply(st, l), Record(st, h, l), s))
  {
    var t := Project(st, h, s);
    if l.Emit? {
      ListedIff(st.reg, l.key, s);
      EmitProjects(st, h, l.key, l.event, s);
      TraceEmitOk(t, l.key, l.event);
    } else {
      TakeProjects(st, h, l.s, s);
      if t.queue != [] { TraceTakeOk(t); }
    }
  }

  lemma TraceKept<S>(st: State<S>, h: History<S>, l: Step<S>, s: S)
    requires Inv(st.reg) && Enabled(st, l) && h.taken.Keys == st.reg.streams.Keys
    requires Covered(st, h, s) && TraceOk(Project(st, h, s))
    requires l.Cleanup? ==> IsListed(st.reg, l.s)
    requires l.Open? ==> l.s !in h.until
    ensures Covered(Apply(st, l), Record(st, h, l), s)
    ensures TraceOk(Project(Apply(st, l), Record(st, h, l), s))
  {
    if l.Emit? || l.Take? {
      TraceKeptByQueueStep(st, h, l, s);
    } else if l.Open? {
      OpenProjects(st, h, l, s);
    } else if l.Cleanup? {
      CleanupProjects(st, h, l.s, s);
    } else {
      QuietProjects(st, h, l, s);
    }
  }

  lemma StepKeepsKeys<S>(st: State<S>, h: History<S>, l: Step<S>)
    requires SameKeys(st, h) && Enabled(st, l)
    ensures SameKeys(Apply(st, l), Record(st, h, l))
    ensures Apply(st, l).reg.streams.Keys == st.reg.streams.Keys + if l.Open? then {l.s} else {}
  {
    if l.Emit? {
      EmitKeepsKeys(st, h, l);
    } else if l.Open? {
      assert Evict(st.reg, l.token).streams.Keys == st.reg.streams.Keys;
    } else if l.Cleanup? {
      assert Record(st, h, l).until.Keys == h.until.Keys + {l.s};
    } else {
      assert Apply(st, l).reg.streams.Keys == st.reg.streams.Keys;
      assert l.Take? ==> Record(st, h, l).taken.Keys == h.taken.Keys;
    }
  }

  lemma EmitKeepsKeys<S>(st: State<S>, h: History<S>, l: Step<S>)
    requires SameKeys(st, h) && l.Emit?
    ensures SameKeys(Apply(st, l), Record(st, h, l)) && Apply(st, l).reg.streams.Keys == st.reg.streams.Keys
  {
    assert Record(st, h, l).offers.Keys == h.offers.Keys;
  }

  lemma StepKeepsHistory<S>(st: State<S>, h: History<S>, l: Step<S>)
    requires Inv(st.reg) && HistoryOk(st, h) && Enabled(st, l)
    requires l.Cleanup? ==> IsListed(st.reg, l.s)
    ensures HistoryOk(Apply(st, l), Record(st, h, l))
  {
    var st', h' := Apply(st, l), Record(st, h, l);
    StepKeepsKeys(st, h, l);
    forall s | s in st'.reg.streams ensures Covered(st', h', s) && TraceOk(Project(st', h', s)) {
      if l.Open? && s == l.s {
        OpenProjects(st, h, l, s);
        assert h.log[|h.log|..|h.log|] == [];
      } else {
        TraceKept(st, h, l, s);
      }
    }
  }

  // ---------- runs ----------

  ghost predicate Recorded<S>(tr: seq<State<S>>, steps: seq<Step<S>>, hs: seq<History<S>>) {
    && IsRun(tr, steps)
    && |hs| == |tr| && hs[0] == Nothing()
    && forall i :: 0 <= i < |steps| ==> Recording(tr[i], hs[i], steps[i], hs[i + 1])
  }

  ghost predicate Recording<S>(st: State<S>, h: History<S>, l: Step<S>, h': History<S>) {
    Enabled(st, l) && h.taken.Keys == st.reg.streams.Keys && h' == Record(st, h, l)
  }

  lemma {:induction false} RunKeepsHistory<S>(tr: seq<State<S>>, steps: seq<Step<S>>, hs: seq<History<S>>, n: nat)
    requires Recorded(tr, steps, hs) && n < |tr|
    ensures Ok(tr[n]) && HistoryOk(tr[n], hs[n])
  {
    if n == 0 {
      InitialOk<S>();
    } else {
      RunKeepsHistory(tr, steps, hs, n - 1);
      assert Moves(tr[n - 1], steps[n - 1], tr[n]);
      assert Recording(tr[n - 1], hs[n - 1], steps[n - 1], hs[n]);
      MoveKeepsHistory(tr[n - 1], hs[n - 1], steps[n - 1], tr[n], hs[n]);
    }
  }

  lemma InitialOk<S>()
    ensures Ok(Initial<S>()) && HistoryOk(Initial<S>(), Nothing<S>())
  {
  }

  lemma MoveKeepsHistory<S>(st: State<S>, h: History<S>, l: Step<S>, st': State<S>, h': History<S>)
    requires Ok(st) && HistoryOk(st, h) && Moves(st, l, st') && Recording(st, h, l, h')
    ensures Ok(st') && HistoryOk(st', h')
  {
    StepKeepsOk(st, l);
    if l.Cleanup? { assert PhaseOk(st, l.s); }
    StepKeepsHistory(st, h, l);
  }

  // Strictly increasing positions into a sequence of the given length.
  ghost predicate Positions(pos: seq<nat>, length: nat) {
    && (forall i :: 0 <= i < |pos| ==> pos[i] < length)
    && (forall i, k :: 0 <= i < k < |pos| ==> pos[i] < pos[k])
  }

  // Where the kept events sit among the offered ones.
  function KeptAt(o: seq<Offered>): seq<nat> {
    if o == [] then []
    else KeptAt(o[..|o| - 1]) + if o[|o| - 1].queued < CAPACITY then [|o| - 1] else []
  }

  lemma {:induction false} KeptPositions(o: seq<Offered>)
    ensures Positions(KeptAt(o), |o|) && |KeptAt(o)| == |Kept(o)|
    ensures forall i :: 0 <= i < |KeptAt(o)| ==> Kept(o)[i] == o[KeptAt(o)[i]].event
  {
    if o != [] { KeptPositions(o[..|o| - 1]); }
  }

  lemma {:induction false} MissingWereFull(o: seq<Offered>, k: nat)
    requires k < |o| && k !in KeptAt(o)
    ensures o[k].queued >= CAPACITY
  {
    var n := |o| - 1;
    if k < n {
      MissingWereFull(o[..n], k);
    }
  }

  lemma {:induction false} EventsAre(o: seq<Offered>)
    ensures |Events(o)| == |o| && forall i :: 0 <= i < |o| ==> Events(o)[i] == o[i].event
  {
    if o != [] { EventsAre(o[..|o| - 1]); }
  }

  // What was received, as a subsequence of what was offered.
  ghost predicate Delivered(t: Trace, offered: seq<Event>, pos: seq<nat>) {
    var received := t.taken + t.queue;
    && t.since <= t.until <= |t.log|
    && offered == OfKey(t.key, t.log[t.since..t.until])
    && Positions(pos, |offered|) && |pos| == |received|
    && (forall i :: 0 <= i < |pos| ==> received[i] == offered[pos[i]])
    && |t.offers| == |offered|
    && (forall k :: 0 <= k < |offered| && k !in pos ==> t.offers[k] == Offered(offered[k], 100))
  }

  lemma TraceDelivered(t: Trace) returns (offered: seq<Event>, pos: seq<nat>)
    requires TraceOk(t)
    ensures Delivered(t, offered, pos)
  {
    EventsAre(t.offers);
    offered := Events(t.offers);
    KeptPositions(t.offers);
    pos := KeptAt(t.offers);
    forall k | 0 <= k < |offered| && k !in pos ensures t.offers[k] == Offered(offered[k], CAPACITY) {
      MissingWereFull(t.offers, k);
    }
  }

  // The events broadcast to one key, one after the other, with nothing in between.
  ghost function Emitted<S>(st: State<S>, key: string, es: seq<Event>): State<S> {
    if es == [] then st else Apply(Emitted(st, key, es[..|es| - 1]), Emit(key, es[|es| - 1]))
  }

  // A serving stream of this key with this queue.
  ghost predicate Queued<S>(st: State<S>, s: S, key: string, q: seq<Event>) {
    Ok(st) && In(st, s, Serving) && st.reg.streams[s].key == key && st.reg.streams[s].queue == q
  }

  lemma EmitFills<S>(st: State<S>, s: S, key: string, q: seq<Event>, e: Event)
    requires Queued(st, s, key, q)
    ensures Queued(Apply(st, Emit(key, e)), s, key, if |q| < 100 then q + [e] else q)
  {
    assert PhaseOk(st, s);
    ListedIff(st.reg, key, s);
    StepKeepsOk(st, Emit(key, e));
  }

  function First(n: nat, es: seq<Event>): seq<Event> {
    if |es| <= n then es else es[..n]
  }

  lemma FirstGrows(n: nat, es: seq<Event>)
    requires es != []
    ensures
      var q := First(n, es[..|es| - 1]);
      First(n, es) == if |q| < n then q + [es[|es| - 1]] else q
  {
  }

  /** A subscriber with an empty queue that dequeues nothing accepts exactly the first hundred of the
      events broadcast to its key, in order. */
  lemma {:induction false} QueueFills<S>(st: State<S>, s: S, key: string, es: seq<Event>)
    requires Queued(st, s, key, [])
    ensures Queued(Emitted(st, key, es), s, key, First(100, es))
  {
    if es != [] {
      var before := es[..|es| - 1];
      QueueFills(st, s, key, before);
      EmitFills(Emitted(st, key, before), s, key, First(100, before), es[|es| - 1]);
      FirstGrows(100, es);
    }
  }

  function Takes<S>(s: S, n: nat): seq<Step<S>> {
    if n == 0 then [] else [Take(s)] + Takes(s, n - 1)
  }

  lemma TakeFirst<S>(st: State<S>, s: S, key: string, q: seq<Event>)
    requires Queued(st, s, key, q) && q != []
    ensures Enabled(st, Take(s)) && Queued(Apply(st, Take(s)), s, key, q[1..])
  {
    StepKeepsOk(st, Take(s));
  }

  /** A serving handler can dequeue event after event, in the order of the queue, until it is empty. */
  lemma {:induction false} QueueDrains<S>(st: State<S>, s: S, key: string, q: seq<Event>) returns (st': State<S>)
    requires Queued(st, s, key, q)
    ensures Leads(st, Takes(s, |q|), st') && Queued(st', s, key, [])
    decreases |q|
  {
    if q == [] {
      st' := st;
    } else {
      TakeFirst(st, s, key, q);
      st' := QueueDrains(Apply(st, Take(s)), s, key, q[1..]);
      assert Takes(s, |q|)[1..] == Takes(s, |q| - 1);
    }
  }

  /** In every reachable state, what a handler has dequeued followed by what is queued for it is
      the sequence of events broadcast to its key while it was listed, in order and each at
      most once, with exactly those missing that met a queue of 100; no queue is longer. */
  lemma Delivery<S>(tr: seq<State<S>>, steps: seq<Step<S>>, hs: seq<History<S>>, n: nat, s: S)
    returns (offered: seq<Event>, pos: seq<nat>)
    requires Recorded(tr, steps, hs) && n < |tr| && s in tr[n].reg.streams
    ensures Covered(tr[n], hs[n], s) && |tr[n].reg.streams[s].queue| <= 100
    ensures Delivered(Project(tr[n], hs[n], s), offered, pos)
  {
    RunKeepsHistory(tr, steps, hs, n);
    assert TraceOk(Project(tr[n], hs[n], s));
    offered, pos := TraceDelivered(Project(tr[n], hs[n], s));
  }
}
