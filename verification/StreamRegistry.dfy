/**
 The subscriber registry of the gRPC server, as what its mutex protects: per key the list
 of event channels, and per token the connection that is tracked for it. A stream handler,
 its event channel and its tracked connection are created together, so one identity of type
 `S` stands for all three.
 */
module StreamRegistry {

  datatype Event = Event(blockNumber: int, txHash: string, data: string)

  const CAPACITY: nat := 100 // buffer of an event channel

  datatype Stream = Stream(token: string, key: string, canceled: bool, closed: bool, queue: seq<Event>)

  datatype Registry<S(==)> = Registry(
    subscribers: map<string, seq<S>>, activeConns: map<string, S>, streams: map<S, Stream>)

  function Listed<S(==)>(r: Registry<S>, key: string): seq<S> {
    if key in r.subscribers then r.subscribers[key] else []
  }

  // ---------- steps ----------

  /** Entering StreamEvents: the tracked connection of the token is cancelled, the new channel
      is appended to the list of its key, and the new connection is tracked. */
  function Register<S(==)>(r: Registry<S>, s: S, token: string, key: string): Registry<S> {
    Registry(r.subscribers[key := Listed(r, key) + [s]],
             r.activeConns[token := s],
             Evict(r, token).streams[s := Stream(token, key, false, false, [])])
  }

  // Cancels the tracked connection of a token, if there is one.
  function Evict<S(==)>(r: Registry<S>, token: string): Registry<S> {
    if token in r.activeConns && r.activeConns[token] in r.streams then CancelStream(r, r.activeConns[token]) else r
  }

  function CancelStream<S(==)>(r: Registry<S>, s: S): Registry<S>
    requires s in r.streams
  {
    r.(streams := r.streams[s := r.streams[s].(canceled := true)])
  }

  /** The locked part of the deferred cleanup. */
  function Unlist<S(==)>(r: Registry<S>, s: S): Registry<S>
    requires s in r.streams
  {
    var st := r.streams[s];
    r.(subscribers := r.subscribers[st.key := Without(Listed(r, st.key), s)],
       activeConns := if st.token in r.activeConns && r.activeConns[st.token] == s
                      then r.activeConns - {st.token} else r.activeConns)
  }

  function CloseChannel<S(==)>(r: Registry<S>, s: S): Registry<S>
    requires s in r.streams
  {
    r.(streams := r.streams[s := r.streams[s].(closed := true)])
  }

  // A send that gives up when the buffer is full.
  function Offer(st: Stream, e: Event): Stream {
    if |st.queue| < CAPACITY then st.(queue := st.queue + [e]) else st
  }

  function Broadcast<S(==)>(r: Registry<S>, key: string, e: Event): Registry<S> {
    r.(streams := map s | s in r.streams :: if s in Listed(r, key) then Offer(r.streams[s], e) else r.streams[s])
  }

  function Dequeue<S(==)>(r: Registry<S>, s: S): Registry<S>
    requires s in r.streams && r.streams[s].queue != []
  {
    r.(streams := r.streams[s := r.streams[s].(queue := r.streams[s].queue[1..])])
  }

  function Untrack<S(==)>(r: Registry<S>, token: string): Registry<S> {
    r.(activeConns := r.activeConns - {token})
  }

  // Removes the first occurrence.
  function Without<S(==)>(q: seq<S>, s: S): seq<S> {
    if q == [] then [] else if q[0] == s then q[1..] else [q[0]] + Without(q[1..], s)
  }

  // ---------- invariant ----------

  ghost predicate Inv<S>(r: Registry<S>) {
    && (forall k :: k in r.subscribers ==> ListOk(r, k))
    && (forall t :: t in r.activeConns ==>
          r.activeConns[t] in r.streams && IsListed(r, r.activeConns[t]) && r.streams[r.activeConns[t]].token == t)
  }

  // A list holds open channels of its own key, none twice.
  ghost predicate ListOk<S>(r: Registry<S>, k: string)
    requires k in r.subscribers
  {
    var q := r.subscribers[k];
    && (forall i :: 0 <= i < |q| ==> q[i] in r.streams && r.streams[q[i]].key == k && !r.streams[q[i]].closed)
    && NoDuplicates(q)
  }

  ghost predicate NoDuplicates<S>(q: seq<S>) {
    forall i, j :: 0 <= i < j < |q| ==> q[i] != q[j]
  }

  ghost predicate IsListed<S>(r: Registry<S>, s: S)
    requires s in r.streams
  {
    var k := r.streams[s].key;
    k in r.subscribers && s in r.subscribers[k]
  }

  lemma {:induction false} WithoutOk<S>(q: seq<S>, s: S)
    requires NoDuplicates(q)
    ensures NoDuplicates(Without(q, s))
    ensures forall x :: x in Without(q, s) ==> x in q && x != s
    ensures forall x :: x in q && x != s ==> x in Without(q, s)
  {
    if q != [] {
      WithoutOk(q[1..], s);
      if q[0] == s {
        assert forall x :: x in q <==> x == q[0] || x in q[1..];
        assert forall i :: 0 <= i < |q| - 1 ==> q[1..][i] == q[i + 1];
      } else {
        assert q == [q[0]] + q[1..];
        var w := Without(q[1..], s);
        forall i, j | 0 <= i < j < |w| + 1 ensures ([q[0]] + w)[i] != ([q[0]] + w)[j] {
          assert w[j - 1] in w;
        }
      }
    }
  }

  /** Removal takes out one channel and keeps the order of the others. */
  lemma {:induction false} WithoutAt<S>(q: seq<S>, s: S, i: nat)
    requires i < |q| && q[i] == s && s !in q[..i]
    ensures Without(q, s) == q[..i] + q[i + 1..]
  {
    if i > 0 {
      assert q[0] in q[..i] && q[0] != s;
      var tail := q[1..];
      assert tail[..i - 1] == q[1..i] && tail[i..] == q[i + 1..];
      assert s !in tail[..i - 1];
      WithoutAt(tail, s, i - 1);
      assert [q[0]] + q[1..i] == q[..i];
      assert [q[0]] + (tail[..i - 1] + tail[i..]) == ([q[0]] + tail[..i - 1]) + tail[i..];
    }
  }

  /** The removal loop of the cleanup: finds the channel and shifts the rest down. */
  method RemoveFirst<S(==)>(q: seq<S>, s: S) returns (subs: seq<S>)
    ensures subs == Without(q, s)
  {
    subs := q;
    var i := 0;
    while i < |subs|
      invariant 0 <= i <= |subs| && subs == q
      invariant Without(q, s) == q[..i] + Without(q[i..], s)
    {
      if subs[i] == s {
        subs := subs[..i] + subs[i + 1..];
        assert q[i..][1..] == q[i + 1..];
        return;
      }
      assert q[..i + 1] == q[..i] + [q[i]] && q[i..][1..] == q[i + 1..];
      i := i + 1;
    }
    assert q[..i] == q && q[i..] == [];
  }

  lemma RegisterKeepsList<S>(r: Registry<S>, s: S, token: string, key: string, k: string)
    requires Inv(r) && s !in r.streams && (k == key || k in r.subscribers)
    ensures ListOk(Register(r, s, token, key), k)
  {
    if k in r.subscribers { assert ListOk(r, k); }
    assert s !in Listed(r, k);
  }

  lemma RegisterKeepsInv<S>(r: Registry<S>, s: S, token: string, key: string)
    requires Inv(r) && s !in r.streams
    ensures Inv(Register(r, s, token, key))
  {
    var r' := Register(r, s, token, key);
    forall k | k in r'.subscribers ensures ListOk(r', k) { RegisterKeepsList(r, s, token, key, k); }
    forall t | t in r'.activeConns
      ensures r'.activeConns[t] in r'.streams && IsListed(r', r'.activeConns[t])
      ensures r'.streams[r'.activeConns[t]].token == t
    {
      if t == token { assert s == Listed(r', key)[|Listed(r, key)|]; }
    }
  }

  lemma EvictKeepsInv<S>(r: Registry<S>, token: string)
    requires Inv(r)
    ensures Inv(Evict(r, token)) && Inv(Untrack(Evict(r, token), token))
  {
    var r' := Evict(r, token);
    forall k | k in r'.subscribers ensures ListOk(r', k) { assert ListOk(r, k); }
    forall k | k in r'.subscribers ensures ListOk(Untrack(r', token), k) { assert ListOk(r', k); }
  }

  lemma UnlistKeepsInv<S>(r: Registry<S>, s: S)
    requires Inv(r) && s in r.streams
    ensures Inv(Unlist(r, s))
    ensures !IsListed(Unlist(r, s), s)
  {
    var r' := Unlist(r, s);
    var key := r.streams[s].key;
    var q := Listed(r, key);
    if key in r.subscribers { assert ListOk(r, key); }
    WithoutOk(q, s);
    var w := Without(q, s);
    forall k | k in r'.subscribers ensures ListOk(r', k) {
      if k != key {
        assert ListOk(r, k);
      } else {
        assert r'.subscribers[k] == w;
        forall i | 0 <= i < |w| ensures w[i] in r.streams && r.streams[w[i]].key == k && !r.streams[w[i]].closed {
          assert w[i] in w;
          var j :| 0 <= j < |q| && q[j] == w[i];
        }
      }
    }
  }

  /** A broadcast never touches a closed channel, and it changes queues only. */
  lemma BroadcastKeepsInv<S>(r: Registry<S>, key: string, e: Event)
    requires Inv(r)
    ensures Inv(Broadcast(r, key, e))
    ensures forall s :: s in Listed(r, key) ==> s in r.streams && !r.streams[s].closed
  {
    var r' := Broadcast(r, key, e);
    forall k | k in r'.subscribers ensures ListOk(r', k) { assert ListOk(r, k); }
    forall t | t in r'.activeConns
      ensures r'.activeConns[t] in r'.streams && IsListed(r', r'.activeConns[t])
      ensures r'.streams[r'.activeConns[t]].token == t
    {
      assert IsListed(r, r.activeConns[t]);
    }
    if key in r.subscribers { assert ListOk(r, key); }
  }

  // ---------- the object ----------

  class Handler {
    const token: string
    const key: string
    var canceled: bool
    var closed: bool
    var queue: seq<Event>

    constructor (token: string, key: string)
      ensures this.token == token && this.key == key && !canceled && !closed && queue == []
    {
      this.token := token;
      this.key := key;
      canceled := false;
      closed := false;
      queue := [];
    }

    function Value(): Stream
      reads this
    {
      Stream(token, key, canceled, closed, queue)
    }

    method TrySend(e: Event)
      modifies this`queue
      ensures Value() == Offer(old(Value()), e)
    {
      if |queue| < CAPACITY { queue := queue + [e]; }
    }
  }

  lemma PrefixGrows<S>(q: seq<S>, i: nat)
    requires i < |q|
    ensures forall s :: s in q[..i + 1] <==> s in q[..i] || s == q[i]
  {
    assert q[..i + 1] == q[..i] + [q[i]];
  }

  class Server {
    var subscribers: map<string, seq<Handler>>
    var activeConns: map<string, Handler>
    ghost var all: set<Handler>

    ghost function View(): Registry<Handler>
      reads this, all
    {
      Registry(subscribers, activeConns, map s | s in all :: s.Value())
    }

    ghost predicate Valid()
      reads this, all
    {
      Inv(View())
    }

    constructor ()
      ensures Valid() && View() == Registry(map[], map[], map[])
    {
      subscribers := map[];
      activeConns := map[];
      all := {};
    }

    function Subscribers(key: string): seq<Handler>
      reads this
    {
      if key in subscribers then subscribers[key] else []
    }

    method Open(token: string, key: string) returns (s: Handler)
      requires Valid()
      modifies this, all
      ensures Valid() && fresh(s) && all == old(all) + {s}
      ensures View() == Register(old(View()), s, token, key)
    {
      ghost var was := View();
      CloseTracked(token);
      s := new Handler(token, key);
      Track(s);
      RegisterKeepsInv(was, s, token, key);
    }

    method Track(s: Handler)
      requires s !in all
      modifies this
      ensures all == old(all) + {s}
      ensures View() == Registry(old(subscribers)[s.key := Listed(old(View()), s.key) + [s]],
                                 old(activeConns)[s.token := s],
                                 old(View()).streams[s := s.Value()])
    {
      ghost var was := View();
      subscribers := subscribers[s.key := Subscribers(s.key) + [s]];
      activeConns := activeConns[s.token := s];
      all := all + {s};
      assert View().streams == was.streams[s := s.Value()];
    }

    method CloseTracked(token: string)
      requires Valid()
      modifies all`canceled
      ensures Valid()
      ensures View() == Evict(old(View()), token)
    {
      ghost var was := View();
      if token in activeConns {
        activeConns[token].canceled := true;
      }
      assert View() == Evict(was, token) by {
        assert View().streams == Evict(was, token).streams;
      }
      EvictKeepsInv(was, token);
    }

    method Cleanup(s: Handler)
      requires Valid() && s in all
      modifies this`subscribers, this`activeConns
      ensures Valid()
      ensures View() == Unlist(old(View()), s)
    {
      ghost var was := View();
      var subs := RemoveFirst(Subscribers(s.key), s);
      subscribers := subscribers[s.key := subs];
      if s.token in activeConns && activeConns[s.token] == s {
        activeConns := activeConns - {s.token};
      }
      assert View().streams == was.streams && was.streams[s] == s.Value();
      UnlistKeepsInv(was, s);
    }

    method BroadcastEvent(key: string, e: Event)
      requires Valid()
      modifies all`queue
      ensures Valid()
      ensures View() == Broadcast(old(View()), key, e)
    {
      ghost var was := View();
      BroadcastKeepsInv(was, key, e);
      var subs := Subscribers(key);
      assert key in subscribers ==> ListOk(was, key);
      for i := 0 to |subs|
        invariant forall s :: s in all ==>
          s.Value() == if s in subs[..i] then Offer(was.streams[s], e) else was.streams[s]
      {
        assert subs[i] in all && subs[i] !in subs[..i];
        PrefixGrows(subs, i);
        subs[i].TrySend(e);
      }
      assert subs[..|subs|] == subs;
      assert View().streams == Broadcast(was, key, e).streams;
    }

    /** Disconnecting a token as one step: cancels the tracked connection and forgets it. */
    method Disconnect(token: string) returns (found: bool)
      requires Valid()
      modifies this`activeConns, all`canceled
      ensures Valid()
      ensures found <==> token in old(activeConns)
      ensures found ==> View() == Untrack(Evict(old(View()), token), token)
      ensures !found ==> View() == old(View())
    {
      ghost var was := View();
      EvictKeepsInv(was, token);
      found := token in activeConns;
      if found {
        CloseTracked(token);
        activeConns := activeConns - {token};
        assert View() == Untrack(Evict(was, token), token);
      }
    }
  }
}
