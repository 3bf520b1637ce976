/**
 How the lives of handlers and disconnects go: a handler can always come to its end, and a disconnect
 reads, cancels and deletes, each once and in this order.
 */
module StreamLives {
  import opened StreamRegistry
  import opened StreamMachine

  // ---------- handlers ----------

  // What is left to do for a handler in this phase.
  function Script<S>(s: S, p: Phase): seq<Step<S>> {
    match p
    case Serving => [Leave(s), Cleanup(s), Close(s), Finish(s)]
    case Leaving => [Cleanup(s), Close(s), Finish(s)]
    case Unlisted => [Close(s), Finish(s)]
    case Closed => [Finish(s)]
    case Done => []
  }

  function After(p: Phase): Phase {
    match p
    case Serving => Leaving
    case Leaving => Unlisted
    case Unlisted => Closed
    case Closed => Done
    case Done => Done
  }

  function Togo(p: Phase): nat {
    match p
    case Serving => 4
    case Leaving => 3
    case Unlisted => 2
    case Closed => 1
    case Done => 0
  }

  // The handler is out of every list, its channel closed and its context cancelled.
  ghost predicate AtEnd<S>(st: State<S>, s: S) {
    In(st, s, Done) && !IsListed(st.reg, s) && st.reg.streams[s].closed && st.reg.streams[s].canceled
  }

  lemma NextOfHandler<S>(st: State<S>, s: S)
    requires Ok(st) && s in st.phase && !st.phase[s].Done?
    ensures Enabled(st, Script(s, st.phase[s])[0])
    ensures
      var st' := Apply(st, Script(s, st.phase[s])[0]);
      && Ok(st') && s in st'.phase && st'.phase[s] == After(st.phase[s])
      && (st'.phase[s].Done? ==> st'.reg.streams[s].canceled)
  {
    assert PhaseOk(st, s);
    StepKeepsOk(st, Script(s, st.phase[s])[0]);
  }

  /** Wherever it stands, a handler can go on by its own steps -- leave its loop, unlist itself, close its
      channel, cancel its context -- and then it is at its end. */
  lemma {:induction false} HandlerCanEnd<S>(st: State<S>, s: S) returns (st': State<S>)
    requires Ok(st) && s in st.phase && !st.phase[s].Done?
    ensures Leads(st, Script(s, st.phase[s]), st') && Ok(st') && AtEnd(st', s)
    decreases Togo(st.phase[s])
  {
    var steps := Script(s, st.phase[s]);
    var next := Apply(st, steps[0]);
    NextOfHandler(st, s);
    assert steps[1..] == Script(s, After(st.phase[s]));
    if st.phase[s].Closed? {
      st' := next;
      assert PhaseOk(next, s);
    } else {
      st' := HandlerCanEnd(next, s);
    }
  }

  // ---------- disconnects ----------

  // The k-th step began disconnect d, and it has not ended before step n.
  ghost predicate InFlight<S>(steps: seq<Step<S>>, k: nat, d: nat, n: nat) {
    && k < n <= |steps| && steps[k].ReadConn? && steps[k].d == d
    && forall x :: k < x < n ==> steps[x] != DeleteConn(d)
  }

  ghost predicate CanceledSince<S>(steps: seq<Step<S>>, k: nat, d: nat, n: nat) {
    exists x :: k < x < n <= |steps| && steps[x] == CancelConn(d)
  }

  // What a disconnect read when it began, and whether it has cancelled it.
  ghost predicate Knows<S>(tr: seq<State<S>>, steps: seq<Step<S>>, k: nat, d: nat, n: nat)
    requires InFlight(steps, k, d, n) && n < |tr|
  {
    var token := steps[k].token;
    && d in tr[n].pending && token in tr[k].reg.activeConns
    && tr[n].pending[d] == Pending(token, tr[k].reg.activeConns[token], CanceledSince(steps, k, d, n))
  }

  lemma {:induction false} DisconnectTells<S>(tr: seq<State<S>>, steps: seq<Step<S>>, d: nat, n: nat)
    requires IsRun(tr, steps) && n < |tr|
    ensures forall k: nat :: InFlight(steps, k, d, n) ==> Knows(tr, steps, k, d, n)
    ensures d in tr[n].pending ==> exists k: nat :: InFlight(steps, k, d, n)
  {
    if n > 0 {
      var st, l := tr[n - 1], steps[n - 1];
      DisconnectTells(tr, steps, d, n - 1);
      assert Moves(st, l, tr[n]);
      forall k: nat | InFlight(steps, k, d, n) ensures Knows(tr, steps, k, d, n) {
        if k < n - 1 {
          assert InFlight(steps, k, d, n - 1) && Knows(tr, steps, k, d, n - 1);
          assert CanceledSince(steps, k, d, n) <==> CanceledSince(steps, k, d, n - 1) || l == CancelConn(d);
        }
      }
      if d in tr[n].pending {
        if d in st.pending {
          var k: nat :| InFlight(steps, k, d, n - 1);
          assert InFlight(steps, k, d, n);
        } else {
          assert InFlight(steps, n - 1, d, n);
        }
      }
    }
  }

  /** In every run a disconnect begins only if none with its number is under way and the token has a
      connection; it cancels once, what it read when it began; and it deletes once, after that. */
  lemma DisconnectInOrder<S>(tr: seq<State<S>>, steps: seq<Step<S>>, d: nat, token: string, n: nat)
    requires IsRun(tr, steps) && n < |tr|
    ensures Enabled(tr[n], ReadConn(d, token)) <==>
            token in tr[n].reg.activeConns && forall k: nat :: !InFlight(steps, k, d, n)
    ensures Enabled(tr[n], CancelConn(d)) <==>
            exists k: nat :: InFlight(steps, k, d, n) && !CanceledSince(steps, k, d, n)
    ensures Enabled(tr[n], DeleteConn(d)) <==>
            exists k: nat :: InFlight(steps, k, d, n) && CanceledSince(steps, k, d, n)
  {
    DisconnectTells(tr, steps, d, n);
    RegistryIsSafe(tr, steps, n);
    if d in tr[n].pending {
      var k: nat :| InFlight(steps, k, d, n);
      assert Knows(tr, steps, k, d, n) && PendingOk(tr[n], tr[n].pending[d]);
    }
  }
}
