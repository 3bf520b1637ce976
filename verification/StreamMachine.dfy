/**
 Stream handlers, broadcasts and disconnects interleaved at the granularity of the server
 mutex. A handler opens, serves, leaves its loop, unlists itself under the lock, closes its
 channel and finishes. A disconnect reads the tracked connection under the lock, cancels
 it, and later deletes the entry of its token under the lock.
 */
module StreamMachine {
  import opened StreamRegistry

  datatype Phase = Serving | Leaving | Unlisted | Closed | Done

  datatype Pending<S> = Pending(token: string, conn: S, canceled: bool)

  datatype State<S(==)> = State(
    reg: Registry<S>,
    phase: map<S, Phase>,
    arrivals: seq<S>,                  // in order of registration
    pending: map<nat, Pending<S>>)     // disconnect calls between read and delete

  datatype Step<S> =
    | Open(s: S, token: string, key: string)
    | Emit(key: string, event: Event)
    | Take(s: S)
    | Leave(s: S)
    | Cleanup(s: S)
    | Close(s: S)
    | Finish(s: S)
    | ReadConn(d: nat, token: string)
    | CancelConn(d: nat)
    | DeleteConn(d: nat)

  function Initial<S(==)>(): State<S> {
    State(Registry(map[], map[], map[]), map[], [], map[])
  }

  ghost predicate Enabled<S>(st: State<S>, l: Step<S>) {
    match l
    case Open(s, _, _) => s !in st.reg.streams
    case Emit(_, _) => true
    case Take(s) => In(st, s, Serving) && st.reg.streams[s].queue != []
    case Leave(s) => In(st, s, Serving)
    case Cleanup(s) => In(st, s, Leaving)
    case Close(s) => In(st, s, Unlisted)
    case Finish(s) => In(st, s, Closed)
    case ReadConn(d, token) => d !in st.pending && token in st.reg.activeConns
    case CancelConn(d) => d in st.pending && !st.pending[d].canceled && st.pending[d].conn in st.reg.streams
    case DeleteConn(d) => d in st.pending && st.pending[d].canceled
  }

  predicate In<S(==)>(st: State<S>, s: S, p: Phase) {
    s in st.phase && st.phase[s] == p && s in st.reg.streams
  }

  ghost function Apply<S>(st: State<S>, l: Step<S>): State<S>
    requires Enabled(st, l)
  {
    match l
    case Open(s, token, key) =>
      st.(reg := Register(st.reg, s, token, key), phase := st.phase[s := Serving], arrivals := st.arrivals + [s])
    case Emit(key, e) => st.(reg := Broadcast(st.reg, key, e))
    case Take(s) => st.(reg := Dequeue(st.reg, s))
    case Leave(s) => st.(phase := st.phase[s := Leaving])
    case Cleanup(s) => st.(reg := Unlist(st.reg, s), phase := st.phase[s := Unlisted])
    case Close(s) => st.(reg := CloseChannel(st.reg, s), phase := st.phase[s := Closed])
    case Finish(s) => st.(reg := CancelStream(st.reg, s), phase := st.phase[s := Done])
    case ReadConn(d, token) => st.(pending := st.pending[d := Pending(token, st.reg.activeConns[token], false)])
    case CancelConn(d) =>
      st.(reg := CancelStream(st.reg, st.pending[d].conn), pending := st.pending[d := st.pending[d].(canceled := true)])
    case DeleteConn(d) =>
      st.(reg := Untrack(st.reg, st.pending[d].token), pending := st.pending - {d})
  }

  // ---------- safety ----------

  ghost predicate Ok<S>(st: State<S>) {
    && Inv(st.reg)
    && st.phase.Keys == st.reg.streams.Keys
    && (forall s :: s in st.phase ==> PhaseOk(st, s))
    && OrderOk(st)
    && (forall t :: t in st.reg.activeConns ==> Newest(st, st.reg.activeConns[t]))
    && (forall d :: d in st.pending ==> PendingOk(st, st.pending[d]))
  }

  // Listed from registration to cleanup and not afterwards; closed only once unlisted.
  ghost predicate PhaseOk<S>(st: State<S>, s: S)
    requires s in st.phase
  {
    && s in st.reg.streams
    && (IsListed(st.reg, s) <==> st.phase[s].Serving? || st.phase[s].Leaving?)
    && (st.reg.streams[s].closed <==> st.phase[s].Closed? || st.phase[s].Done?)
  }

  ghost predicate OrderOk<S>(st: State<S>) {
    && (forall i :: 0 <= i < |st.arrivals| ==> st.arrivals[i] in st.reg.streams)
    && NoDuplicates(st.arrivals)
  }

  // No stream of the same token was registered after s.
  ghost predicate Newest<S>(st: State<S>, s: S) {
    exists i :: 0 <= i < |st.arrivals| && st.arrivals[i] == s && LastOfToken(st, i)
  }

  ghost predicate LastOfToken<S>(st: State<S>, i: nat)
    requires i < |st.arrivals|
  {
    && st.arrivals[i] in st.reg.streams
    && forall k :: i < k < |st.arrivals| && st.arrivals[k] in st.reg.streams ==>
         st.reg.streams[st.arrivals[k]].token != st.reg.streams[st.arrivals[i]].token
  }

  ghost predicate PendingOk<S>(st: State<S>, p: Pending<S>) {
    && p.conn in st.reg.streams
    && st.reg.streams[p.conn].token == p.token
    && (p.canceled ==> st.reg.streams[p.conn].canceled)
  }

  // The registry changed no list, no key, no token, and closed no listed channel.
  ghost predicate SameLists<S>(r: Registry<S>, r': Registry<S>) {
    && r'.subscribers == r.subscribers
    && r'.streams.Keys == r.streams.Keys
    && (forall t :: t in r'.activeConns ==> t in r.activeConns && r'.activeConns[t] == r.activeConns[t])
    && (forall s :: s in r.streams ==> SameStream(r, r', s))
  }

  ghost predicate SameStream<S>(r: Registry<S>, r': Registry<S>, s: S)
    requires s in r.streams && s in r'.streams
  {
    && r'.streams[s].token == r.streams[s].token
    && r'.streams[s].key == r.streams[s].key
    && (r.streams[s].canceled ==> r'.streams[s].canceled)
    && (r'.streams[s].closed ==> r.streams[s].closed || !IsListed(r, s))
  }

  lemma SameListsKeepInv<S>(r: Registry<S>, r': Registry<S>)
    requires Inv(r) && SameLists(r, r')
    ensures Inv(r')
    ensures forall s :: s in r.streams ==> (IsListed(r', s) <==> IsListed(r, s))
  {
    forall s | s in r.streams ensures IsListed(r', s) <==> IsListed(r, s) { assert SameStream(r, r', s); }
    forall k | k in r'.subscribers ensures ListOk(r', k) {
      assert ListOk(r, k);
      forall i | 0 <= i < |r.subscribers[k]| ensures SameStream(r, r', r.subscribers[k][i]) {}
    }
    forall t | t in r'.activeConns ensures IsListed(r', r'.activeConns[t]) && r'.streams[r'.activeConns[t]].token == t {
      assert SameStream(r, r', r.activeConns[t]);
    }
  }

  // Steps that leave the lists alone.
  lemma SameListsKeepOk<S>(st: State<S>, st': State<S>)
    requires Ok(st) && SameLists(st.reg, st'.reg) && st'.arrivals == st.arrivals && st'.phase.Keys == st.phase.Keys
    requires forall s :: s in st.phase ==> SamePhase(st, st', s)
    requires forall d :: d in st'.pending ==> d in st.pending || PendingOk(st', st'.pending[d])
    requires forall d :: d in st'.pending && d in st.pending ==>
      st'.pending[d] == st.pending[d] || PendingOk(st', st'.pending[d])
    ensures Ok(st')
  {
    SameListsKeepInv(st.reg, st'.reg);
    forall s | s in st'.phase ensures PhaseOk(st', s) { assert PhaseOk(st, s) && SamePhase(st, st', s); }
    forall t | t in st'.reg.activeConns ensures Newest(st', st'.reg.activeConns[t]) {
      NewestStays(st, st', st.reg.activeConns[t]);
    }
    forall d | d in st'.pending ensures PendingOk(st', st'.pending[d]) {
      if d in st.pending && st'.pending[d] == st.pending[d] { PendingStays(st, st', st.pending[d]); }
    }
  }

  lemma PendingStays<S>(st: State<S>, st': State<S>, p: Pending<S>)
    requires PendingOk(st, p) && SameLists(st.reg, st'.reg)
    ensures PendingOk(st', p)
  {
    assert SameStream(st.reg, st'.reg, p.conn);
  }

  lemma NewestStays<S>(st: State<S>, st': State<S>, s: S)
    requires OrderOk(st) && Newest(st, s) && st'.arrivals == st.arrivals && st'.reg.streams.Keys == st.reg.streams.Keys
    requires forall x :: x in st.reg.streams ==> st'.reg.streams[x].token == st.reg.streams[x].token
    ensures Newest(st', s)
  {
    var i :| 0 <= i < |st.arrivals| && st.arrivals[i] == s && LastOfToken(st, i);
    assert LastOfToken(st', i);
  }

  // The phase of s is the same, or phase and channel moved on together.
  ghost predicate SamePhase<S>(st: State<S>, st': State<S>, s: S)
    requires s in st.phase && s in st'.phase
  {
    && s in st.reg.streams && s in st'.reg.streams
    && var c, c' := st.reg.streams[s].closed, st'.reg.streams[s].closed;
       match st.phase[s]
       case Serving => (st'.phase[s].Serving? || st'.phase[s].Leaving?) && c' == c
       case Leaving => st'.phase[s].Leaving? && c' == c
       case Unlisted => (st'.phase[s].Unlisted? && c' == c) || (st'.phase[s].Closed? && c')
       case Closed => (st'.phase[s].Closed? || st'.phase[s].Done?) && c' == c
       case Done => st'.phase[s].Done? && c' == c
  }

  lemma StepKeepsOk<S>(st: State<S>, l: Step<S>)
    requires Ok(st) && Enabled(st, l)
    ensures Ok(Apply(st, l))
  {
    match l
    case Open(_, _, _) => OpenKeepsOk(st, l);
    case Emit(_, _) => EmitKeepsOk(st, l);
    case Take(s) => ServingKeepsOk(st, l, s);
    case Leave(s) => ServingKeepsOk(st, l, s);
    case Cleanup(_) => CleanupKeepsOk(st, l);
    case Close(s) => EndingKeepsOk(st, l, s);
    case Finish(s) => EndingKeepsOk(st, l, s);
    case ReadConn(_, _) => DisconnectKeepsOk(st, l);
    case CancelConn(_) => DisconnectKeepsOk(st, l);
    case DeleteConn(_) => DisconnectKeepsOk(st, l);
  }

  lemma EmitKeepsOk<S>(st: State<S>, l: Step<S>)
    requires Ok(st) && l.Emit?
    ensures Ok(Apply(st, l))
  {
    var st' := Apply(st, l);
    forall s | s in st.phase ensures SamePhase(st, st', s) { assert PhaseOk(st, s); }
    SameListsKeepOk(st, st');
  }

  lemma ServingKeepsOk<S>(st: State<S>, l: Step<S>, x: S)
    requires Ok(st) && Enabled(st, l) && (l == Take(x) || l == Leave(x))
    ensures Ok(Apply(st, l))
  {
    var st' := Apply(st, l);
    assert PhaseOk(st, x);
    forall s | s in st.phase ensures SamePhase(st, st', s) { assert PhaseOk(st, s); }
    forall s | s in st.reg.streams ensures SameStream(st.reg, st'.reg, s) {}
    SameListsKeepOk(st, st');
  }

  lemma EndingKeepsOk<S>(st: State<S>, l: Step<S>, x: S)
    requires Ok(st) && Enabled(st, l) && (l == Close(x) || l == Finish(x))
    ensures Ok(Apply(st, l))
  {
    var st' := Apply(st, l);
    assert PhaseOk(st, x);
    forall s | s in st.phase ensures SamePhase(st, st', s) { assert PhaseOk(st, s); }
    forall s | s in st.reg.streams ensures SameStream(st.reg, st'.reg, s) {}
    SameListsKeepOk(st, st');
  }

  lemma DisconnectKeepsOk<S>(st: State<S>, l: Step<S>)
    requires Ok(st) && Enabled(st, l) && (l.ReadConn? || l.CancelConn? || l.DeleteConn?)
    ensures Ok(Apply(st, l))
  {
    var st' := Apply(st, l);
    if l.CancelConn? { assert PendingOk(st, st.pending[l.d]); }
    forall s | s in st.phase ensures SamePhase(st, st', s) { assert PhaseOk(st, s); }
    forall s | s in st.reg.streams ensures SameStream(st.reg, st'.reg, s) {}
    SameListsKeepOk(st, st');
  }

  lemma OpenKeepsOk<S>(st: State<S>, l: Step<S>)
    requires Ok(st) && l.Open? && Enabled(st, l)
    ensures Ok(Apply(st, l))
  {
    var st', s := Apply(st, l), l.s;
    RegisterKeepsInv(st.reg, s, l.token, l.key);
    forall x | x in st'.phase ensures PhaseOk(st', x) {
      if x == s {
        assert s == Listed(st'.reg, l.key)[|Listed(st.reg, l.key)|];
      } else {
        assert PhaseOk(st, x);
      }
    }
    OpenKeepsNewest(st, l);
    forall d | d in st'.pending ensures PendingOk(st', st'.pending[d]) { assert PendingOk(st, st.pending[d]); }
  }

  lemma OpenKeepsNewest<S>(st: State<S>, l: Step<S>)
    requires Ok(st) && l.Open? && Enabled(st, l)
    ensures OrderOk(Apply(st, l))
    ensures forall t :: t in Apply(st, l).reg.activeConns ==> Newest(Apply(st, l), Apply(st, l).reg.activeConns[t])
  {
    var st', n := Apply(st, l), |st.arrivals|;
    assert st'.arrivals[n] == l.s && LastOfToken(st', n);
    forall t | t in st'.reg.activeConns ensures Newest(st', st'.reg.activeConns[t]) {
      if t != l.token {
        assert Newest(st, st.reg.activeConns[t]);
        NewestSurvives(st, l, st.reg.activeConns[t]);
      }
    }
  }

  // A stream stays the newest of its token when one of another token opens.
  lemma NewestSurvives<S>(st: State<S>, l: Step<S>, s: S)
    requires OrderOk(st) && Newest(st, s) && l.Open? && Enabled(st, l)
    requires s in st.reg.streams && st.reg.streams[s].token != l.token
    ensures Newest(Apply(st, l), s)
  {
    var i :| 0 <= i < |st.arrivals| && st.arrivals[i] == s && LastOfToken(st, i);
    assert LastOfToken(Apply(st, l), i);
  }

  lemma CleanupKeepsOk<S>(st: State<S>, l: Step<S>)
    requires Ok(st) && l.Cleanup? && Enabled(st, l)
    ensures Ok(Apply(st, l))
  {
    var st', s := Apply(st, l), l.s;
    UnlistKeepsInv(st.reg, s);
    UnlistSparesOthers(st.reg, s);
    forall x | x in st'.phase ensures PhaseOk(st', x) { assert PhaseOk(st, x); }
    forall t | t in st'.reg.activeConns ensures Newest(st', st'.reg.activeConns[t]) {
      NewestStays(st, st', st.reg.activeConns[t]);
    }
    forall d | d in st'.pending ensures PendingOk(st', st'.pending[d]) { assert PendingOk(st, st.pending[d]); }
  }

  lemma UnlistSparesOthers<S>(r: Registry<S>, s: S)
    requires Inv(r) && s in r.streams
    ensures forall x :: x in r.streams && x != s ==> (IsListed(Unlist(r, s), x) <==> IsListed(r, x))
  {
    var key := r.streams[s].key;
    if key in r.subscribers { assert ListOk(r, key); }
    WithoutOk(Listed(r, key), s);
  }

  // ---------- runs ----------

  ghost predicate IsRun<S>(tr: seq<State<S>>, steps: seq<Step<S>>) {
    && |tr| == |steps| + 1
    && tr[0] == Initial()
    && forall i :: 0 <= i < |steps| ==> Moves(tr[i], steps[i], tr[i + 1])
  }

  ghost predicate Moves<S>(st: State<S>, l: Step<S>, st': State<S>) {
    Enabled(st, l) && st' == Apply(st, l)
  }

  /** In every reachable state a channel sits exactly once in the list of its own key from
      registration to cleanup and in no list afterwards, is closed only once unlisted, and the
      tracked connection of a token is its most recently registered handler, not yet cleaned up. */
  lemma {:induction false} RegistryIsSafe<S>(tr: seq<State<S>>, steps: seq<Step<S>>, n: nat)
    requires IsRun(tr, steps) && n < |tr|
    ensures Ok(tr[n])
  {
    if n > 0 {
      RegistryIsSafe(tr, steps, n - 1);
      MoveKeepsOk(tr[n - 1], steps[n - 1], tr[n]);
    }
  }

  lemma MoveKeepsOk<S>(st: State<S>, l: Step<S>, st': State<S>)
    requires Ok(st) && Moves(st, l, st')
    ensures Ok(st')
  {
    StepKeepsOk(st, l);
  }

  // ---------- one uncancelled stream per token ----------

  ghost predicate LiveStream<S>(st: State<S>, s: S) {
    s in st.reg.streams && IsListed(st.reg, s) && !st.reg.streams[s].canceled
  }

  // Every listed, uncancelled stream is the tracked one of its token.
  ghost predicate AllTracked<S>(st: State<S>) {
    forall s :: s in st.reg.streams && LiveStream(st, s) ==>
      st.reg.streams[s].token in st.reg.activeConns && st.reg.activeConns[st.reg.streams[s].token] == s
  }

  /** A delete by token loses track of a live stream exactly when the token names an uncancelled
      stream by then. */
  lemma DeleteKeepsTrackedIff<S>(st: State<S>, d: nat)
    requires Ok(st) && AllTracked(st) && Enabled(st, DeleteConn(d))
    ensures
      var t := st.pending[d].token;
      AllTracked(Apply(st, DeleteConn(d))) <==>
      (t in st.reg.activeConns ==> st.reg.streams[st.reg.activeConns[t]].canceled)
  {
    var st', t := Apply(st, DeleteConn(d)), st.pending[d].token;
    if t in st.reg.activeConns && !st.reg.streams[st.reg.activeConns[t]].canceled {
      assert LiveStream(st', st.reg.activeConns[t]);
    } else {
      forall s | s in st'.reg.streams && LiveStream(st', s)
        ensures st'.reg.streams[s].token in st'.reg.activeConns && st'.reg.activeConns[st'.reg.streams[s].token] == s
      {
        assert LiveStream(st, s);
      }
    }
  }

  lemma StepKeepsTracked<S>(st: State<S>, l: Step<S>)
    requires Ok(st) && AllTracked(st) && Enabled(st, l) && !l.DeleteConn?
    ensures AllTracked(Apply(st, l))
  {
    if l.Cleanup? {
      CleanupKeepsTracked(st, l);
    } else if l.Open? {
      OpenKeepsTracked(st, l);
    } else {
      TrackedCarriesOver(st, Apply(st, l));
    }
  }

  lemma CleanupKeepsTracked<S>(st: State<S>, l: Step<S>)
    requires Ok(st) && AllTracked(st) && l.Cleanup? && Enabled(st, l)
    ensures AllTracked(Apply(st, l))
  {
    UnlistKeepsInv(st.reg, l.s);
    UnlistSparesOthers(st.reg, l.s);
    TrackedCarriesOver(st, Apply(st, l));
  }

  lemma TrackedCarriesOver<S>(st: State<S>, st': State<S>)
    requires AllTracked(st) && st'.reg.streams.Keys == st.reg.streams.Keys
    requires forall s :: s in st.reg.streams ==>
      st'.reg.streams[s].token == st.reg.streams[s].token && (LiveStream(st', s) ==> LiveStream(st, s))
    requires forall s :: s in st.reg.streams && LiveStream(st', s) ==>
      var t := st.reg.streams[s].token;
      t in st.reg.activeConns && st.reg.activeConns[t] == s ==> t in st'.reg.activeConns && st'.reg.activeConns[t] == s
    ensures AllTracked(st')
  {
  }

  lemma OpenKeepsTracked<S>(st: State<S>, l: Step<S>)
    requires Ok(st) && AllTracked(st) && l.Open? && Enabled(st, l)
    ensures AllTracked(Apply(st, l))
  {
    var st' := Apply(st, l);
    forall s | s in st'.reg.streams && LiveStream(st', s)
      ensures st'.reg.streams[s].token in st'.reg.activeConns && st'.reg.activeConns[st'.reg.streams[s].token] == s
    {
      if s != l.s {
        assert IsListed(st.reg, s);
        assert LiveStream(st, s);
      }
    }
  }

  // Every delete finds the connection it read, or one cancelled since, or none.
  ghost predicate DeletesInStep<S>(tr: seq<State<S>>, steps: seq<Step<S>>)
    requires |tr| == |steps| + 1
  {
    forall i :: 0 <= i < |steps| && steps[i].DeleteConn? ==> DeleteInStep(tr[i], steps[i].d)
  }

  ghost predicate DeleteInStep<S>(st: State<S>, d: nat) {
    && d in st.pending
    && var p := st.pending[d];
       p.token in st.reg.activeConns ==> st.reg.activeConns[p.token] == p.conn
  }

  ghost predicate AtMostOneLive<S>(st: State<S>) {
    forall a, b | a in st.reg.streams && b in st.reg.streams && LiveStream(st, a) && LiveStream(st, b) ::
      st.reg.streams[a].token == st.reg.streams[b].token ==> a == b
  }

  /** If no other stream of the token registers between the read and the delete of a disconnect,
      then at most one listed stream of a token is uncancelled in every reachable state. */
  lemma {:induction false} OneLiveStream<S>(tr: seq<State<S>>, steps: seq<Step<S>>, n: nat)
    requires IsRun(tr, steps) && DeletesInStep(tr, steps) && n < |tr|
    ensures AllTracked(tr[n])
    ensures AtMostOneLive(tr[n])
  {
    if n > 0 {
      OneLiveStream(tr, steps, n - 1);
      RegistryIsSafe(tr, steps, n - 1);
      var st, l := tr[n - 1], steps[n - 1];
      assert Moves(st, l, tr[n]);
      if l.DeleteConn? {
        assert DeleteInStep(st, l.d) && PendingOk(st, st.pending[l.d]);
        DeleteKeepsTrackedIff(st, l.d);
      } else {
        StepKeepsTracked(st, l);
      }
    }
  }

  // Every live stream of the token is the tracked one.
  ghost predicate KnowsLive<S>(st: State<S>, token: string) {
    forall s :: s in st.reg.streams && LiveStream(st, s) && st.reg.streams[s].token == token ==>
      token in st.reg.activeConns && st.reg.activeConns[token] == s
  }

  /** Only an opening stream can make a second live one, and it does so exactly if some live stream
      of its token is not the tracked one. */
  lemma StepKeepsOneLiveIff<S>(st: State<S>, l: Step<S>)
    requires Ok(st) && AtMostOneLive(st) && Enabled(st, l)
    ensures AtMostOneLive(Apply(st, l)) <==> (l.Open? ==> KnowsLive(st, l.token))
  {
    if l.Open? { OpenKeepsOneLiveIff(st, l); } else { OthersAddNoLive(st, l); }
  }

  lemma OthersAddNoLive<S>(st: State<S>, l: Step<S>)
    requires Ok(st) && Enabled(st, l) && !l.Open?
    ensures forall s :: s in Apply(st, l).reg.streams && LiveStream(Apply(st, l), s) ==>
      LiveStream(st, s) && Apply(st, l).reg.streams[s].token == st.reg.streams[s].token
  {
    if l.Cleanup? {
      CleanupAddsNoLive(st, l);
    } else if l.ReadConn? || l.CancelConn? || l.DeleteConn? {
      DisconnectAddsNoLive(st, l);
    }
  }

  lemma CleanupAddsNoLive<S>(st: State<S>, l: Step<S>)
    requires Ok(st) && Enabled(st, l) && l.Cleanup?
    ensures forall s :: s in Apply(st, l).reg.streams && LiveStream(Apply(st, l), s) ==>
      LiveStream(st, s) && Apply(st, l).reg.streams[s].token == st.reg.streams[s].token
  {
    UnlistKeepsInv(st.reg, l.s);
    UnlistSparesOthers(st.reg, l.s);
  }

  lemma DisconnectAddsNoLive<S>(st: State<S>, l: Step<S>)
    requires Ok(st) && Enabled(st, l) && (l.ReadConn? || l.CancelConn? || l.DeleteConn?)
    ensures forall s :: s in Apply(st, l).reg.streams && LiveStream(Apply(st, l), s) ==>
      LiveStream(st, s) && Apply(st, l).reg.streams[s].token == st.reg.streams[s].token
  {
  }

  ghost predicate Forgotten<S>(st: State<S>, token: string, s: S) {
    && s in st.reg.streams && LiveStream(st, s) && st.reg.streams[s].token == token
    && !(token in st.reg.activeConns && st.reg.activeConns[token] == s)
  }

  lemma OpenKeepsOneLiveIff<S>(st: State<S>, l: Step<S>)
    requires Ok(st) && AtMostOneLive(st) && l.Open? && Enabled(st, l)
    ensures AtMostOneLive(Apply(st, l)) <==> KnowsLive(st, l.token)
  {
    var st' := Apply(st, l);
    OpensLive(st, l);
    if s :| s in st.reg.streams && Forgotten(st, l.token, s) {
      OpenKeepsLiveness(st, l, s);
      assert !AtMostOneLive(st');
    } else {
      forall a, b | a in st'.reg.streams && b in st'.reg.streams && LiveStream(st', a) && LiveStream(st', b)
        && st'.reg.streams[a].token == st'.reg.streams[b].token ensures a == b
      {
        if a != l.s { OpenKeepsLiveness(st, l, a); }
        if b != l.s { OpenKeepsLiveness(st, l, b); }
        assert a != l.s ==> !Forgotten(st, l.token, a);
        assert b != l.s ==> !Forgotten(st, l.token, b);
      }
    }
  }

  lemma OpensLive<S>(st: State<S>, l: Step<S>)
    requires l.Open? && Enabled(st, l)
    ensures
      var st' := Apply(st, l);
      && st'.reg.streams.Keys == st.reg.streams.Keys + {l.s}
      && LiveStream(st', l.s) && st'.reg.streams[l.s].token == l.token
  {
    assert l.s == Listed(Apply(st, l).reg, l.key)[|Listed(st.reg, l.key)|];
    assert Evict(st.reg, l.token).streams.Keys == st.reg.streams.Keys;
  }

  lemma OpenKeepsLiveness<S>(st: State<S>, l: Step<S>, s: S)
    requires Ok(st) && l.Open? && Enabled(st, l) && s in st.reg.streams
    ensures
      var st' := Apply(st, l);
      && s in st'.reg.streams && st'.reg.streams[s].token == st.reg.streams[s].token
      && (LiveStream(st', s) <==>
            LiveStream(st, s) && !(l.token in st.reg.activeConns && st.reg.activeConns[l.token] == s))
  {
    var key, q := st.reg.streams[s].key, Listed(st.reg, l.key);
    assert forall x :: x in q + [l.s] <==> x in q || x == l.s;
  }

  /** In every run: each state has at most one live stream per token exactly if no stream opens while
      a live stream of its token is not the tracked one. */
  lemma OneLiveRunIff<S>(tr: seq<State<S>>, steps: seq<Step<S>>)
    requires IsRun(tr, steps)
    ensures (forall n :: 0 <= n < |tr| ==> AtMostOneLive(tr[n]))
       <==> (forall i :: 0 <= i < |steps| && steps[i].Open? ==> KnowsLive(tr[i], steps[i].token))
  {
    if i :| 0 <= i < |steps| && steps[i].Open? && !KnowsLive(tr[i], steps[i].token) {
      RegistryIsSafe(tr, steps, i);
      assert Moves(tr[i], steps[i], tr[i + 1]);
      if AtMostOneLive(tr[i]) { StepKeepsOneLiveIff(tr[i], steps[i]); }
    } else {
      forall n | 0 <= n < |tr| ensures AtMostOneLive(tr[n]) { KnowingKeepsOneLive(tr, steps, n); }
    }
  }

  lemma {:induction false} KnowingKeepsOneLive<S>(tr: seq<State<S>>, steps: seq<Step<S>>, n: nat)
    requires IsRun(tr, steps) && n < |tr|
    requires forall i :: 0 <= i < |steps| && steps[i].Open? ==> KnowsLive(tr[i], steps[i].token)
    ensures AtMostOneLive(tr[n])
  {
    if n > 0 {
      KnowingKeepsOneLive(tr, steps, n - 1);
      RegistryIsSafe(tr, steps, n - 1);
      assert Moves(tr[n - 1], steps[n - 1], tr[n]);
      StepKeepsOneLiveIff(tr[n - 1], steps[n - 1]);
    }
  }

  /** Losing track of a live stream is exactly what lets some stream open beside it. */
  lemma TrackedIff<S>(st: State<S>, s: S)
    requires Ok(st) && AtMostOneLive(st) && s !in st.reg.streams
    ensures AllTracked(st) <==> forall token, key :: OpensAlone(st, s, token, key)
  {
    if AllTracked(st) {
      forall token, key ensures OpensAlone(st, s, token, key) { OpenKeepsOneLiveIff(st, Open(s, token, key)); }
    } else {
      var x :| x in st.reg.streams && LiveStream(st, x) && !(st.reg.streams[x].token in st.reg.activeConns
                 && st.reg.activeConns[st.reg.streams[x].token] == x);
      OpenKeepsOneLiveIff(st, Open(s, st.reg.streams[x].token, ""));
      assert !OpensAlone(st, s, st.reg.streams[x].token, "");
    }
  }

  ghost predicate OpensAlone<S>(st: State<S>, s: S, token: string, key: string)
    requires s !in st.reg.streams
  {
    AtMostOneLive(Apply(st, Open(s, token, key)))
  }

  /** The cleanup of a stream that has a successor on its token removes nobody's entry. */
  lemma EvictedCleanupSparesSuccessor<S>(st: State<S>, s: S)
    requires Ok(st) && Enabled(st, Cleanup(s)) && !Newest(st, s)
    ensures Apply(st, Cleanup(s)).reg.activeConns == st.reg.activeConns
  {
    var t := st.reg.streams[s].token;
    if t in st.reg.activeConns { assert Newest(st, st.reg.activeConns[t]); }
  }

  /** Once another stream of the token has registered, a stream is never the newest again. */
  lemma {:induction false} SupersededForGood<S>(tr: seq<State<S>>, steps: seq<Step<S>>, i: nat, n: nat, s: S)
    requires IsRun(tr, steps) && i < n < |tr|
    requires steps[i].Open? && s in tr[i].reg.streams && tr[i].reg.streams[s].token == steps[i].token
    ensures Ok(tr[n]) && !Newest(tr[n], s)
    decreases n
  {
    RegistryIsSafe(tr, steps, i);
    RegistryIsSafe(tr, steps, n);
    OpenedGrows(tr, steps, i, i);
    OpenedGrows(tr, steps, i + 1, n);
    assert Moves(tr[i], steps[i], tr[i + 1]);
    var st := tr[n];
    var k := |tr[i].arrivals|;
    assert st.arrivals[k] == steps[i].s;
    OpenedOnce(tr, steps, i, s);
    var m :| 0 <= m < k && tr[i].arrivals[m] == s;
    assert st.arrivals[m] == s;
    forall x | 0 <= x < |st.arrivals| && st.arrivals[x] == s ensures !LastOfToken(st, x) {
      assert x == m < k;
    }
  }

  // Registration order only grows, and tokens never change.
  ghost predicate Grows<S>(st: State<S>, st': State<S>) {
    && st.arrivals <= st'.arrivals
    && forall s :: s in st.reg.streams ==> s in st'.reg.streams && st'.reg.streams[s].token == st.reg.streams[s].token
  }

  lemma {:induction false} OpenedGrows<S>(tr: seq<State<S>>, steps: seq<Step<S>>, i: nat, n: nat)
    requires IsRun(tr, steps) && i <= n < |tr|
    ensures Grows(tr[i], tr[n])
    decreases n
  {
    if i < n {
      OpenedGrows(tr, steps, i, n - 1);
      assert Moves(tr[n - 1], steps[n - 1], tr[n]);
      GrowsFurther(tr[i], tr[n - 1], steps[n - 1], tr[n]);
    }
  }

  lemma GrowsFurther<S>(a: State<S>, b: State<S>, l: Step<S>, c: State<S>)
    requires Grows(a, b) && Moves(b, l, c)
    ensures Grows(a, c)
  {
    TokensStay(b, l, c);
    GrowsTwice(a, b, c);
  }

  lemma GrowsTwice<S>(a: State<S>, b: State<S>, c: State<S>)
    requires Grows(a, b) && Grows(b, c)
    ensures Grows(a, c)
  {
  }

  lemma TokensStay<S>(st: State<S>, l: Step<S>, st': State<S>)
    requires Moves(st, l, st')
    ensures Grows(st, st')
    ensures forall s :: s in st'.reg.streams && s !in st.reg.streams ==> l.Open? && s == l.s
  {
  }

  lemma {:induction false} OpenedOnce<S>(tr: seq<State<S>>, steps: seq<Step<S>>, n: nat, s: S)
    requires IsRun(tr, steps) && n < |tr| && s in tr[n].reg.streams
    ensures s in tr[n].arrivals
  {
    assert n > 0;
    RegistryIsSafe(tr, steps, n - 1);
    assert Moves(tr[n - 1], steps[n - 1], tr[n]);
    TokensStay(tr[n - 1], steps[n - 1], tr[n]);
    if s in tr[n - 1].reg.streams {
      OpenedOnce(tr, steps, n - 1, s);
    } else {
      assert tr[n].arrivals[|tr[n - 1].arrivals|] == s;
    }
  }

  // ---------- what the unguarded delete can do ----------

  ghost predicate Leads<S>(st: State<S>, steps: seq<Step<S>>, st': State<S>)
    decreases |steps|
  {
    if steps == [] then st' == st
    else Enabled(st, steps[0]) && Leads(Apply(st, steps[0]), steps[1..], st')
  }

  lemma {:induction false} Then<S>(st: State<S>, steps: seq<Step<S>>, m: State<S>, l: Step<S>, st': State<S>)
    returns (longer: seq<Step<S>>)
    requires Leads(st, steps, m) && Moves(m, l, st')
    ensures longer == steps + [l] && Leads(st, longer, st')
    decreases |steps|
  {
    longer := steps + [l];
    if steps == [] {
      assert longer[1..] == [] && Leads(st', [], st');
    } else {
      var rest := Then(Apply(st, steps[0]), steps[1..], m, l, st');
      assert longer[1..] == rest;
    }
  }

  /** A disconnect reads stream 0; stream 1 registers on the same token; the delete then forgets
      stream 1, so that stream 2 registers without evicting it: two live streams on one token. */
  lemma UnguardedDeleteRun() returns (steps: seq<Step<nat>>, st: State<nat>)
    ensures Leads(Initial(), steps, st) && !AtMostOneLive(st)
  {
    var first, s3 := DisconnectReadsStream();
    var one := Stream("t", "k", false, false, []);
    var gone := one.(canceled := true);
    var r4 := Registry(map["k" := [0, 1]], map["t" := 1], map[0 := gone, 1 := one]);
    var s4 := State(r4, map[0 := Serving, 1 := Serving], [0, 1], s3.pending);
    OpensSecond(s3, s4);
    steps := Then(Initial(), first, s3, Open(1, "t", "k"), s4);
    var s5 := DeletesSuccessor(s4);
    steps := Then(Initial(), steps, s4, DeleteConn(0), s5);
    st := Apply(s5, Open(2, "t", "k"));
    steps := Then(Initial(), steps, s5, Open(2, "t", "k"), st);
    OpensThird(s5);
  }

  lemma DeletesSuccessor(s4: State<nat>) returns (s5: State<nat>)
    requires s4.reg == Registry(map["k" := [0, 1]], map["t" := 1],
                                map[0 := Stream("t", "k", true, false, []), 1 := Stream("t", "k", false, false, [])])
    requires s4.pending == map[0 := Pending("t", 0, true)]
    ensures Moves(s4, DeleteConn(0), s5)
    ensures s5.reg == s4.reg.(activeConns := map[])
  {
    s5 := Apply(s4, DeleteConn(0));
    assert s5.reg.activeConns == map[];
  }

  lemma OpensThird(s5: State<nat>)
    requires s5.reg.subscribers == map["k" := [0, 1]] && s5.reg.activeConns == map[]
    requires 1 in s5.reg.streams && s5.reg.streams[1] == Stream("t", "k", false, false, []) && 2 !in s5.reg.streams
    ensures !AtMostOneLive(Apply(s5, Open(2, "t", "k")))
  {
    var st := Apply(s5, Open(2, "t", "k"));
    assert st.reg.subscribers["k"][1] == 1 && st.reg.subscribers["k"][2] == 2;
    assert LiveStream(st, 1) && LiveStream(st, 2);
  }

  lemma OpensSecond(s3: State<nat>, s4: State<nat>)
    requires s3 == State(Registry(map["k" := [0]], map["t" := 0], map[0 := Stream("t", "k", true, false, [])]),
                         map[0 := Serving], [0], map[0 := Pending("t", 0, true)])
    requires s4 == State(Registry(map["k" := [0, 1]], map["t" := 1],
                                  map[0 := Stream("t", "k", true, false, []), 1 := Stream("t", "k", false, false, [])]),
                         map[0 := Serving, 1 := Serving], [0, 1], s3.pending)
    ensures Moves(s3, Open(1, "t", "k"), s4)
  {
    var st := Apply(s3, Open(1, "t", "k"));
    assert st.reg.subscribers["k"] == [0, 1];
    assert st.reg == s4.reg;
  }

  lemma DisconnectReadsStream() returns (steps: seq<Step<nat>>, s3: State<nat>)
    ensures Leads(Initial(), steps, s3)
    ensures s3.reg == Registry(map["k" := [0]], map["t" := 0], map[0 := Stream("t", "k", true, false, [])])
    ensures s3 == State(s3.reg, map[0 := Serving], [0], map[0 := Pending("t", 0, true)])
  {
    var first, s1 := OpensFirst();
    var s2 := s1.(pending := map[0 := Pending("t", 0, false)]);
    var r3 := CancelStream(s1.reg, 0);
    s3 := State(r3, map[0 := Serving], [0], map[0 := Pending("t", 0, true)]);
    steps := Then(Initial(), first, s1, ReadConn(0, "t"), s2);
    steps := Then(Initial(), steps, s2, CancelConn(0), s3);
    assert r3.streams == map[0 := Stream("t", "k", true, false, [])];
  }

  lemma OpensFirst() returns (steps: seq<Step<nat>>, s1: State<nat>)
    ensures Leads(Initial(), steps, s1)
    ensures s1 == State(Registry(map["k" := [0]], map["t" := 0], map[0 := Stream("t", "k", false, false, [])]),
                        map[0 := Serving], [0], map[])
  {
    s1 := Apply(Initial(), Open(0, "t", "k"));
    assert s1.reg.subscribers["k"] == [0];
    steps := Then(Initial(), [], Initial(), Open(0, "t", "k"), s1);
  }
}
