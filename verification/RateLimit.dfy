/**
 The success-counted rate limit: a request is admitted while the counter of its address is below the
 limit, and only a response with a status from 200 to 299 increments the counter, which then lives
 for another full window.
 */
module RateLimit {
  import opened Options

  datatype Counter = Counter(count: nat, expiry: int)

  // A missing key reads as zero.
  function Reading(c: Option<Counter>): nat {
    if c.Some? then c.value.count else 0
  }

  // INCR and EXPIRE as one step.
  function Bump(c: Option<Counter>, now: int, window: nat): Option<Counter> {
    Some(Counter(Reading(c) + 1, now + window))
  }

  // ---------- the middleware ----------

  datatype Answer = Unauthorized | InternalError | TooMany | Admitted(remaining: int)

  predicate Success(status: int) {
    200 <= status < 300
  }

  class Limiter {
    const limit: int
    const window: nat
    var store: map<string, Counter>

    constructor (limit: int, window: nat)
      ensures this.limit == limit && this.window == window && store == map[]
    {
      this.limit, this.window := limit, window;
      store := map[];
    }

    function At(address: string): Option<Counter>
      reads this
    {
      if address in store then Some(store[address]) else None
    }

    /** Before serving. Nothing is written: a request that is turned away leaves no trace. */
    method Begin(address: Option<string>, getOk: bool) returns (answer: Answer)
      ensures answer.Unauthorized? <==> address.None?
      ensures answer.InternalError? <==> address.Some? && !getOk
      ensures answer.TooMany? <==> address.Some? && getOk && Reading(At(address.value)) >= limit
      ensures answer.Admitted? ==> answer.remaining == limit - Reading(At(address.value)) > 0
    {
      if address.None? { return Unauthorized; }
      if !getOk { return InternalError; }
      var count := if address.value in store then store[address.value].count else 0;
      if count >= limit { return TooMany; }
      answer := Admitted(limit - count);
    }

    /** After serving. A success is counted on the counter as it is then; the header says what was
        left by the counter as it was read, less one for a success, counted or not. */
    method End(address: string, count: nat, status: int, now: int, execOk: bool) returns (remaining: int)
      modifies this
      ensures 200 <= status <= 299 && execOk ==>
        At(address) == Some(Counter(Reading(old(At(address))) + 1, now + window))
      ensures !(200 <= status <= 299 && execOk) ==> store == old(store)
      ensures forall a :: a != address ==> At(a) == old(At(a))
      ensures remaining == limit - count - if 200 <= status <= 299 then 1 else 0
    {
      remaining := limit - count;
      if Success(status) {
        if execOk {
          var current := if address in store then store[address].count else 0;
          store := store[address := Counter(current + 1, now + window)];
        }
        remaining := limit - count - 1;
      }
    }
  }

  // ---------- the response writer ----------

  // What a handler does to its writer, with the codes that net/http takes.
  type Code = c: int | 100 <= c < 1000 witness 200

  datatype Call = Header(code: Code) | Body

  class StatusResponseWriter {
    var statusCode: int
    var calls: seq<Call> // passed on to the wrapped writer

    constructor ()
      ensures statusCode == 0 && calls == []
    {
      statusCode, calls := 0, [];
    }

    method WriteHeader(code: Code)
      requires statusCode == Recorded(calls)
      modifies this
      ensures calls == old(calls) + [Header(code)]
      ensures statusCode == Recorded(calls) == code
    {
      statusCode := code;
      calls := calls + [Header(code)];
    }

    method Write()
      requires statusCode == Recorded(calls)
      modifies this
      ensures calls == old(calls) + [Body]
      ensures statusCode == Recorded(calls) != 0
    {
      RecordedIsZeroIff(calls);
      if statusCode == 0 { statusCode := 200; }
      calls := calls + [Body];
    }
  }

  // The code the middleware looks at: that of the last header, or 200 after a body without one.
  function Recorded(calls: seq<Call>): int {
    if calls == [] then 0
    else match calls[|calls| - 1]
      case Header(code) => code
      case Body => if Recorded(calls[..|calls| - 1]) == 0 then 200 else Recorded(calls[..|calls| - 1])
  }

  predicate Informational(code: int) {
    100 <= code < 200 && code != 101
  }

  // The code the client gets in the end: the first header that is not informational counts, a body or
  // the return of the handler implies 200.
  function Sent(calls: seq<Call>): int {
    if calls == [] then 200
    else match calls[0]
      case Header(code) => if Informational(code) then Sent(calls[1..]) else code
      case Body => 200
  }

  /** Of two headers the client gets the second exactly if the first is one of 100 and 102 to 199. */
  lemma FirstFinalHeader(first: Code, second: Code)
    requires second >= 200
    ensures Sent([Header(first), Header(second)]) == if first == 100 || 102 <= first <= 199 then second else first
  {
    assert [Header(first), Header(second)][1..] == [Header(second)];
  }

  lemma {:induction false} RecordedIsZeroIff(calls: seq<Call>)
    ensures Recorded(calls) == 0 <==> calls == []
    decreases |calls|
  {
    if calls != [] { RecordedIsZeroIff(calls[..|calls| - 1]); }
  }

  /** A handler that sets its status at most once, before the body, is judged by what the client
      gets, exactly if it does anything at all and the status it sets is not informational. */
  lemma RecordedIsSentIff(calls: seq<Call>)
    requires forall i :: 0 < i < |calls| ==> calls[i].Body?
    ensures Recorded(calls) == Sent(calls) <==> calls != [] && !(calls[0].Header? && Informational(calls[0].code))
  {
    if calls != [] {
      var m := LastHeader(calls);
      assert calls[0].Header? ==> m == 0;
      if |calls| > 1 { assert calls[1..][0].Body?; }
    }
  }

  // The last header is no success.
  ghost predicate EndsBadly(calls: seq<Call>) {
    exists i :: 0 <= i < |calls| && calls[i].Header? && !Success(calls[i].code) && OnlyBodies(calls, i + 1)
  }

  ghost predicate OnlyBodies(calls: seq<Call>, from: nat) {
    forall j :: from <= j < |calls| ==> calls[j].Body?
  }

  // The call settles what the client gets, unless an earlier one has.
  predicate Decides(c: Call) {
    c.Body? || !Informational(c.code)
  }

  // The first call that decides, if there is one, writes the body or sets a success.
  ghost predicate StartsWell(calls: seq<Call>) {
    forall i :: 0 <= i < |calls| && Decides(calls[i]) && (forall j :: 0 <= j < i ==> !Decides(calls[j])) ==>
      calls[i].Body? || Success(calls[i].code)
  }

  lemma {:induction false} SentWellIff(calls: seq<Call>)
    ensures Success(Sent(calls)) <==> StartsWell(calls)
  {
    if calls != [] && !Decides(calls[0]) {
      var tail := calls[1..];
      SentWellIff(tail);
      if StartsWell(calls) {
        forall i | 0 <= i < |tail| && Decides(tail[i]) && (forall j :: 0 <= j < i ==> !Decides(tail[j]))
          ensures tail[i].Body? || Success(tail[i].code)
        {
          assert forall j :: 0 < j < i + 1 ==> calls[j] == tail[j - 1];
          assert calls[i + 1] == tail[i];
        }
      } else {
        var i :| 0 <= i < |calls| && Decides(calls[i]) && (forall j :: 0 <= j < i ==> !Decides(calls[j]))
                 && !(calls[i].Body? || Success(calls[i].code));
        assert tail[i - 1] == calls[i] && forall j :: 0 <= j < i - 1 ==> tail[j] == calls[j + 1];
      }
    }
  }

  /** A success that goes uncounted, by the calls of the handler alone: exactly when it wrote nothing,
      or its first call that decides is a body or a success, and its last header is no success. */
  lemma UncountedIff(calls: seq<Call>)
    ensures Success(Sent(calls)) && !Success(Recorded(calls))
       <==> calls == [] || (StartsWell(calls) && EndsBadly(calls))
  {
    SentWellIff(calls);
    if calls != [] {
      var m := LastHeader(calls);
      if m >= 0 { assert OnlyBodies(calls, m + 1); }
    }
  }

  /** For instance: an empty response, one whose status is overridden, and one with early hints. */
  lemma UncountedSuccesses()
    ensures Sent([]) == 200 && Recorded([]) == 0
    ensures Sent([Header(200), Header(500)]) == 200 && Recorded([Header(200), Header(500)]) == 500
    ensures Sent([Header(103), Body]) == 200 && Recorded([Header(103), Body]) == 103
  {
    assert [Header(103), Body][1..] == [Body] && [Header(103), Body][..1] == [Header(103)];
    assert Recorded([Header(103)]) == 103;
  }

  lemma {:induction false} LastHeader(calls: seq<Call>) returns (m: int)
    requires calls != []
    ensures -1 <= m < |calls|
    ensures forall j :: m < j < |calls| ==> calls[j].Body?
    ensures if m >= 0 then calls[m].Header? && Recorded(calls) == calls[m].code else Recorded(calls) == 200
    decreases |calls|
  {
    var n := |calls| - 1;
    if calls[n].Header? {
      m := n;
    } else if n == 0 {
      m := -1;
    } else {
      m := LastHeader(calls[..n]);
      assert forall j :: m < j < n ==> calls[..n][j] == calls[j];
    }
  }

  // ---------- one address under concurrency ----------

  // At most `parallel` requests of the address are served at the same time.
  datatype Setup = Setup(limit: nat, window: nat, parallel: nat)

  // `log` holds the times of the successes counted so far.
  datatype State = State(now: int, counter: Option<Counter>, serving: nat, log: seq<int>)

  datatype Move =
    | Tick(to: int)         // time passes
    | Expire                // the key disappears, at its expiry or later
    | Admit                 // a request reads a counter below the limit
    | Finish(counted: bool) // a request ends, counted if it succeeded

  function Init(now: int): State {
    State(now, None, 0, [])
  }

  predicate Enabled(u: Setup, s: State, m: Move) {
    match m
    case Tick(to) => to >= s.now
    case Expire => s.counter.Some? && s.now >= s.counter.value.expiry
    case Admit => s.serving < u.parallel && Reading(s.counter) < u.limit
    case Finish(_) => s.serving > 0
  }

  function Step(u: Setup, s: State, m: Move): State
    requires Enabled(u, s, m)
  {
    match m
    case Tick(to) => s.(now := to)
    case Expire => s.(counter := None)
    case Admit => s.(serving := s.serving + 1)
    case Finish(counted) =>
      if counted then State(s.now, Bump(s.counter, s.now, u.window), s.serving - 1, s.log + [s.now])
      else s.(serving := s.serving - 1)
  }

  ghost predicate Leads(u: Setup, s: State, ms: seq<Move>, t: State)
    decreases |ms|
  {
    if ms == [] then s == t else Enabled(u, s, ms[0]) && Leads(u, Step(u, s, ms[0]), ms[1..], t)
  }

  // No run of successes closer together than a window is longer than `bound`.
  ghost predicate Spread(log: seq<int>, window: nat, bound: int) {
    forall i, j :: 0 <= i <= j < |log| && log[j] < log[i] + window ==> j - i < bound
  }

  ghost predicate Sorted(log: seq<int>) {
    forall i, j :: 0 <= i <= j < |log| ==> log[i] <= log[j]
  }

  // The counter counts the newest successes; those before them are at least a window older.
  ghost predicate Epoch(u: Setup, s: State) {
    var c := Reading(s.counter);
    && c <= |s.log| && (s.counter.Some? ==> c > 0 && s.counter.value.expiry == s.log[|s.log| - 1] + u.window)
    && forall i :: 0 <= i < |s.log| - c ==>
         s.log[i] + u.window <= (if c > 0 then s.log[|s.log| - c] else s.now)
  }

  ghost predicate Ok(u: Setup, s: State) {
    && Sorted(s.log) && (forall i :: 0 <= i < |s.log| ==> s.log[i] <= s.now)
    && Epoch(u, s)
    && s.serving <= u.parallel
    && Reading(s.counter) + s.serving < u.limit + u.parallel
    && Spread(s.log, u.window, u.limit + u.parallel - 1)
  }

  lemma CountKeepsSpread(u: Setup, s: State)
    requires Ok(u, s) && s.serving > 0
    ensures Spread(s.log + [s.now], u.window, u.limit + u.parallel - 1)
  {
    var log, c := s.log + [s.now], Reading(s.counter);
    forall i, j | 0 <= i <= j < |log| && log[j] < log[i] + u.window ensures j - i < u.limit + u.parallel - 1 {
      if j < |s.log| {
        assert s.log[i] == log[i] && s.log[j] == log[j];
      } else {
        assert i >= |s.log| - c;
      }
    }
  }

  lemma CountKeepsOk(u: Setup, s: State)
    requires Ok(u, s) && s.serving > 0
    ensures Ok(u, Step(u, s, Finish(true)))
  {
    CountKeepsSpread(u, s);
  }

  lemma ExpireKeepsOk(u: Setup, s: State)
    requires u.limit >= 1 && Ok(u, s) && Enabled(u, s, Expire)
    ensures Ok(u, Step(u, s, Expire))
  {
  }

  lemma StepKeepsOk(u: Setup, s: State, m: Move)
    requires u.limit >= 1 && Ok(u, s) && Enabled(u, s, m)
    ensures Ok(u, Step(u, s, m))
  {
    match m
    case Tick(_) =>
    case Expire => ExpireKeepsOk(u, s);
    case Admit =>
    case Finish(counted) => if counted { CountKeepsOk(u, s); }
  }

  lemma {:induction false} RunKeepsOk(u: Setup, s: State, ms: seq<Move>, t: State)
    requires u.limit >= 1 && Ok(u, s) && Leads(u, s, ms, t)
    ensures Ok(u, t)
    decreases |ms|
  {
    if ms != [] {
      StepKeepsOk(u, s, ms[0]);
      RunKeepsOk(u, Step(u, s, ms[0]), ms[1..], t);
    }
  }

  // The successes of the half-open interval of length `window` from `a`.
  function Hits(log: seq<int>, a: int, window: nat): nat {
    if log == [] then 0
    else
      var n := |log| - 1;
      Hits(log[..n], a, window) + (if a <= log[n] < a + window then 1 else 0)
  }

  lemma {:induction false} HitsFrom(log: seq<int>, a: int, window: nat, i: nat)
    requires i <= |log| && forall k :: 0 <= k < i ==> log[k] < a
    ensures Hits(log, a, window) <= |log| - i
    decreases |log|
  {
    if log != [] {
      var n := |log| - 1;
      HitsFrom(log[..n], a, window, if i <= n then i else n);
    }
  }

  lemma {:induction false} SpreadBoundsHits(log: seq<int>, a: int, window: nat, bound: nat)
    requires Sorted(log) && Spread(log, window, bound)
    ensures Hits(log, a, window) <= bound
    decreases |log|
  {
    if log != [] {
      var n := |log| - 1;
      if a <= log[n] < a + window {
        var i := 0;
        while log[i] < a
          invariant i <= n && forall k :: 0 <= k < i ==> log[k] < a
          decreases n - i
        {
          i := i + 1;
        }
        HitsFrom(log, a, window, i);
        assert log[n] < log[i] + window;
      } else {
        SpreadBoundsHits(log[..n], a, window, bound);
      }
    }
  }

  /** In every run, every half-open interval of one window holds at most limit + K - 1 counted
      successes, K being the number of requests served at the same time. */
  lemma BoundedSuccesses(u: Setup, now: int, ms: seq<Move>, t: State, a: int)
    requires u.limit >= 1 && Leads(u, Init(now), ms, t)
    ensures Hits(t.log, a, u.window) <= u.limit + u.parallel - 1
  {
    RunKeepsOk(u, Init(now), ms, t);
    SpreadBoundsHits(t.log, a, u.window, u.limit + u.parallel - 1);
  }

  /** Served one after the other, it is the limit itself. */
  lemma SequentialLimit(u: Setup, now: int, ms: seq<Move>, t: State, a: int)
    requires u.limit >= 1 && u.parallel == 1 && Leads(u, Init(now), ms, t)
    ensures Hits(t.log, a, u.window) <= u.limit
  {
    BoundedSuccesses(u, now, ms, t, a);
  }

  // ---------- nobody is shut out for good ----------

  function Later(a: int, b: int): int {
    if a < b then b else a
  }

  /** However full the counter is: once its window has passed without another success, the next request
      is admitted. */
  lemma BudgetReturns(u: Setup, s: State) returns (t: State)
    requires u.limit >= 1 && s.counter.Some? && s.serving < u.parallel
    ensures Leads(u, s, [Tick(Later(s.now, s.counter.value.expiry)), Expire, Admit], t)
    ensures t == State(Later(s.now, s.counter.value.expiry), None, s.serving + 1, s.log)
  {
    var now := Later(s.now, s.counter.value.expiry);
    var ms := [Tick(now), Expire, Admit];
    assert ms[1..] == [Expire, Admit] && [Expire, Admit][1..] == [Admit] && [Admit][1..] == [];
    var s1 := s.(now := now);
    var s2 := s1.(counter := None);
    t := s2.(serving := s.serving + 1);
    assert Leads(u, s2, [Admit], t) && Leads(u, s1, [Expire, Admit], t);
  }

  /** A request that is no success leaves everything as it was. */
  lemma FailuresAreFree(u: Setup, s: State)
    requires Reading(s.counter) < u.limit && s.serving < u.parallel
    ensures Leads(u, s, [Admit, Finish(false)], s)
  {
    var ms := [Admit, Finish(false)];
    assert ms[1..] == [Finish(false)] && [Finish(false)][1..] == [];
    var s1 := s.(serving := s.serving + 1);
    assert Leads(u, s1, [Finish(false)], s);
  }

  // ---------- the bound is reached ----------

  lemma {:induction false} LeadsAppend(u: Setup, s: State, ms: seq<Move>, t: State, ns: seq<Move>, v: State)
    requires Leads(u, s, ms, t) && Leads(u, t, ns, v)
    ensures Leads(u, s, ms + ns, v)
    decreases |ms|
  {
    if ms == [] {
      assert ms + ns == ns;
    } else {
      assert (ms + ns)[1..] == ms[1..] + ns;
      LeadsAppend(u, Step(u, s, ms[0]), ms[1..], t, ns, v);
    }
  }

  function Fresh(now: int, n: nat, window: nat, serving: nat): State {
    State(now, if n == 0 then None else Some(Counter(n, now + window)), serving, seq(n, _ => now))
  }

  lemma {:induction false} OneByOne(u: Setup, now: int, n: nat) returns (ms: seq<Move>)
    requires n <= u.limit && u.parallel >= 1
    ensures Leads(u, Init(now), ms, Fresh(now, n, u.window, 0))
  {
    if n == 0 {
      ms := [];
      assert Fresh(now, 0, u.window, 0).log == [];
    } else {
      var rest := OneByOne(u, now, n - 1);
      var s, t := Fresh(now, n - 1, u.window, 0), Fresh(now, n, u.window, 0);
      assert s.log + [now] == t.log;
      OneRequest(u, s, t);
      LeadsAppend(u, Init(now), rest, s, [Admit, Finish(true)], t);
      ms := rest + [Admit, Finish(true)];
    }
  }

  lemma OneRequest(u: Setup, s: State, t: State)
    requires Reading(s.counter) < u.limit && s.serving == 0 && u.parallel >= 1
    requires t == State(s.now, Bump(s.counter, s.now, u.window), 0, s.log + [s.now])
    ensures Leads(u, s, [Admit, Finish(true)], t)
  {
    var m := Step(u, s, Admit);
    assert [Admit, Finish(true)][1..] == [Finish(true)] && [Finish(true)][1..] == [];
    assert Leads(u, m, [Finish(true)], t);
  }

  lemma {:induction false} AllAtOnce(u: Setup, s: State, k: nat) returns (ms: seq<Move>)
    requires s.serving + k <= u.parallel && Reading(s.counter) < u.limit
    ensures Leads(u, s, ms, s.(serving := s.serving + k))
    decreases k
  {
    if k == 0 {
      ms := [];
    } else {
      var rest := AllAtOnce(u, Step(u, s, Admit), k - 1);
      ms := [Admit] + rest;
      assert ms[1..] == rest;
    }
  }

  lemma {:induction false} AllSucceed(u: Setup, now: int, n: nat, k: nat) returns (ms: seq<Move>)
    ensures Leads(u, Fresh(now, n, u.window, k), ms, Fresh(now, n + k, u.window, 0))
    decreases k
  {
    if k == 0 {
      ms := [];
    } else {
      var s := Fresh(now, n, u.window, k);
      assert s.log + [now] == Fresh(now, n + 1, u.window, k - 1).log;
      var rest := AllSucceed(u, now, n + 1, k - 1);
      ms := [Finish(true)] + rest;
      assert ms[1..] == rest;
    }
  }

  lemma {:induction false} AllHit(now: int, n: nat, window: nat)
    requires window >= 1
    ensures Hits(seq(n, _ => now), now, window) == n
  {
    if n > 0 {
      assert seq(n, _ => now)[..n - 1] == seq(n - 1, _ => now);
      AllHit(now, n - 1, window);
    }
  }

  /** The bound is sharp for every limit and every degree of concurrency: limit - 1 requests one by
      one, then K admitted before any of them ends. */
  lemma BoundIsReached(u: Setup, now: int) returns (ms: seq<Move>, t: State)
    requires u.limit >= 1 && u.parallel >= 1 && u.window >= 1
    ensures Leads(u, Init(now), ms, t)
    ensures Hits(t.log, now, u.window) == u.limit + u.parallel - 1
  {
    var n, k := u.limit - 1, u.parallel;
    var s := Fresh(now, n, u.window, 0);
    t := Fresh(now, n + k, u.window, 0);
    var before := OneByOne(u, now, n);
    var admits := AllAtOnce(u, s, k);
    var ends := AllSucceed(u, now, n, k);
    LeadsAppend(u, s, admits, Fresh(now, n, u.window, k), ends, t);
    LeadsAppend(u, Init(now), before, s, admits + ends, t);
    ms := before + (admits + ends);
    AllHit(now, n + k, u.window);
  }
}
