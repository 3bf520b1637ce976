/**
 The value-level specification of the session-receipt scheduler.

 A `Core` is what the mutex of the scheduler protects: the job records, the set of
 jobs that sit in the heap, and the map from a token to its current job. Job identity is
 the type parameter `J`: the class of module `SessionHeap` uses its job objects, the
 counterexamples use numbers. Times are integers (nanoseconds).

 Cancelling only marks the job (it stays in the heap as a tombstone), and popping a job
 deletes the map entry of its token whatever job that entry names.
 */
module SchedulerCore {

  // Claims are carried along and never inspected.
  type Claims = string

  datatype Job = Job(token: string, claims: Claims, runAt: int, canceled: bool)

  datatype Core<J(==)> = Core(jobs: map<J, Job>, heap: set<J>, jobMap: map<string, J>)

  // What the scheduler is for, with no heap and no tombstones: token -> pending receipt.
  datatype Entry = Entry(deadline: int, claims: Claims)

  type Table = map<string, Entry>

  // ---------- operations ----------

  function Empty<J(==)>(): Core<J> {
    Core(map[], {}, map[])
  }

  // The token has a map entry. That the entry is a job is a matter of types in the source.
  predicate Has<J(==)>(s: Core<J>, token: string) {
    token in s.jobMap && s.jobMap[token] in s.jobs
  }

  function Schedule<J(==)>(s: Core<J>, token: string, claims: Claims, at: int, id: J): Core<J> {
    if Has(s, token) then
      var j := s.jobMap[token];
      s.(jobs := s.jobs[j := s.jobs[j].(claims := claims, runAt := at, canceled := false)])
    else
      Core(s.jobs[id := Job(token, claims, at, false)], s.heap + {id}, s.jobMap[token := id])
  }

  function Cancel<J(==)>(s: Core<J>, token: string): Core<J> {
    if Has(s, token) then
      var j := s.jobMap[token];
      s.(jobs := s.jobs[j := s.jobs[j].(canceled := true)], jobMap := s.jobMap - {token})
    else
      s
  }

  function Pop<J(==)>(s: Core<J>, j: J): Core<J>
    requires j in s.jobs
  {
    s.(heap := s.heap - {j}, jobMap := s.jobMap - {s.jobs[j].token})
  }

  ghost predicate IsHead<J>(s: Core<J>, j: J) {
    && s.heap <= s.jobs.Keys
    && j in s.heap
    && forall k :: k in s.heap ==> s.jobs[j].runAt <= s.jobs[k].runAt
  }

  // ---------- invariants ----------

  ghost predicate Inv<J>(s: Core<J>) {
    && s.heap <= s.jobs.Keys
    && forall t :: t in s.jobMap ==> Mapped(s, t)
  }

  // A map entry names an uncancelled job of that token that is still in the heap.
  ghost predicate Mapped<J>(s: Core<J>, t: string)
    requires t in s.jobMap
  {
    var j := s.jobMap[t];
    j in s.heap && j in s.jobs && s.jobs[j].token == t && !s.jobs[j].canceled
  }

  ghost predicate Live<J>(s: Core<J>, j: J) {
    j in s.heap && j in s.jobs && !s.jobs[j].canceled
  }

  ghost predicate Tombstone<J>(s: Core<J>, j: J) {
    j in s.heap && j in s.jobs && s.jobs[j].canceled
  }

  ghost predicate Due<J>(s: Core<J>, j: J, now: int) {
    j in s.heap && j in s.jobs && s.jobs[j].runAt <= now
  }

  // Every live job is the one its token maps to. Not an invariant: see `OrphanRun`.
  ghost predicate Synced<J>(s: Core<J>) {
    forall j :: j in s.heap && Live(s, j) ==> s.jobs[j].token in s.jobMap && s.jobMap[s.jobs[j].token] == j
  }

  // No tombstone shares its token with a mapped job.
  ghost predicate Clean<J>(s: Core<J>) {
    forall j :: j in s.heap && Tombstone(s, j) ==> s.jobs[j].token !in s.jobMap
  }

  // What a caller of Schedule can check beforehand.
  ghost predicate NoTombstone<J>(s: Core<J>, token: string) {
    forall j :: j in s.heap && Tombstone(s, j) ==> s.jobs[j].token != token
  }

  lemma ScheduleKeepsInv<J>(s: Core<J>, token: string, claims: Claims, at: int, id: J)
    requires Inv(s) && (token in s.jobMap || id !in s.jobs)
    ensures Inv(Schedule(s, token, claims, at, id))
    ensures token in Schedule(s, token, claims, at, id).jobMap
  {
    var s' := Schedule(s, token, claims, at, id);
    if token in s.jobMap { assert Mapped(s, token); }
    forall t | t in s'.jobMap ensures Mapped(s', t) {
      if t != token { assert Mapped(s, t); }
    }
  }

  lemma ScheduleKeepsSynced<J>(s: Core<J>, token: string, claims: Claims, at: int, id: J)
    requires Inv(s) && Synced(s) && (token in s.jobMap || id !in s.jobs)
    ensures Synced(Schedule(s, token, claims, at, id))
  {
    var s' := Schedule(s, token, claims, at, id);
    if token in s.jobMap { assert Mapped(s, token); }
    forall j | j in s'.heap && Live(s', j)
      ensures s'.jobs[j].token in s'.jobMap && s'.jobMap[s'.jobs[j].token] == j
    {
      if j != s'.jobMap[token] { assert Live(s, j); }
    }
  }

  lemma CancelKeepsInv<J>(s: Core<J>, token: string)
    requires Inv(s)
    ensures Inv(Cancel(s, token))
    ensures token !in Cancel(s, token).jobMap
    ensures Synced(s) ==> Synced(Cancel(s, token))
    ensures Clean(s) ==> Clean(Cancel(s, token))
  {
    var s' := Cancel(s, token);
    if token in s.jobMap { assert Mapped(s, token); }
    forall t | t in s'.jobMap ensures Mapped(s', t) { assert Mapped(s, t); }
    if Synced(s) {
      forall j | j in s'.heap && Live(s', j)
        ensures s'.jobs[j].token in s'.jobMap && s'.jobMap[s'.jobs[j].token] == j
      {
        assert Live(s, j);
      }
    }
    if Clean(s) {
      forall j | j in s'.heap && Tombstone(s', j) ensures s'.jobs[j].token !in s'.jobMap {
        if !(token in s.jobMap && j == s.jobMap[token]) { assert Tombstone(s, j); }
      }
    }
  }

  lemma PopKeepsInv<J>(s: Core<J>, j: J)
    requires Inv(s) && j in s.heap
    ensures Inv(Pop(s, j))
  {
    var s' := Pop(s, j);
    forall t | t in s'.jobMap ensures Mapped(s', t) { assert Mapped(s, t); }
  }

  /** Popping breaks the link between live jobs and the map in exactly one situation: the
      popped job is a tombstone and its token has been scheduled again. */
  lemma PopKeepsSyncedIff<J>(s: Core<J>, j: J)
    requires Inv(s) && Synced(s) && j in s.heap
    ensures Synced(Pop(s, j)) <==> !(Tombstone(s, j) && s.jobs[j].token in s.jobMap)
  {
    var s' := Pop(s, j);
    var t := s.jobs[j].token;
    if t in s.jobMap {
      assert Mapped(s, t);
      var k := s.jobMap[t];
      if k != j {
        assert k in s'.heap && Live(s', k) && t !in s'.jobMap;
        assert !Live(s, j);
      }
    }
    if !(Tombstone(s, j) && t in s.jobMap) {
      forall k | k in s'.heap && Live(s', k)
        ensures s'.jobs[k].token in s'.jobMap && s'.jobMap[s'.jobs[k].token] == k
      {
        assert Live(s, k);
      }
    }
  }

  /** Scheduling keeps tombstones apart from mapped tokens exactly when the token has none. */
  lemma ScheduleKeepsCleanIff<J>(s: Core<J>, token: string, claims: Claims, at: int, id: J)
    requires Inv(s) && Clean(s) && (token in s.jobMap || id !in s.jobs)
    ensures Clean(Schedule(s, token, claims, at, id)) <==> NoTombstone(s, token)
  {
    var s' := Schedule(s, token, claims, at, id);
    if NoTombstone(s, token) {
      forall j | j in s'.heap && Tombstone(s', j) ensures s'.jobs[j].token !in s'.jobMap {
        assert Tombstone(s, j);
      }
    } else {
      var j :| j in s.heap && Tombstone(s, j) && s.jobs[j].token == token;
      assert token !in s.jobMap;
      assert Tombstone(s', j);
    }
  }

  lemma PopKeepsClean<J>(s: Core<J>, j: J)
    requires Inv(s) && j in s.heap && Clean(s)
    ensures Clean(Pop(s, j))
  {
    var s' := Pop(s, j);
    forall k | k in s'.heap && Tombstone(s', k) ensures s'.jobs[k].token !in s'.jobMap {
      assert Tombstone(s, k);
    }
  }

  /** Schedule, Cancel, Schedule on one token, then one pop: the new receipt is still in the
      heap, but the map has lost it, so a Cancel that should succeed reports nothing. */
  lemma OrphanRun(claims: Claims)
    ensures
      var s1 := Schedule(Empty<nat>(), "t", claims, 5, 0);
      Inv(s1) &&
      var s2 := Cancel(s1, "t");
      Inv(s2) &&
      var s3 := Schedule(s2, "t", claims, 9, 1);
      Inv(s3) && Synced(s3) && IsHead(s3, 0) &&
      var s4 := Pop(s3, 0);
      Inv(s4) && Live(s4, 1) && "t" !in s4.jobMap && !Synced(s4)
  {
    var s1 := Schedule(Empty<nat>(), "t", claims, 5, 0);
    var s2 := Cancel(s1, "t");
    var s3 := Schedule(s2, "t", claims, 9, 1);
    ScheduleKeepsInv(Empty<nat>(), "t", claims, 5, 0);
    CancelKeepsInv(s1, "t");
    ScheduleKeepsInv(s2, "t", claims, 9, 1);
    assert Synced(s3);
    PopKeepsInv(s3, 0);
    assert Live(Pop(s3, 0), 1) && 1 in Pop(s3, 0).heap;
  }

  // ---------- the table the scheduler implements ----------

  function Abs<J(==)>(s: Core<J>): (a: Table)
    requires Inv(s)
    ensures a.Keys == s.jobMap.Keys
  {
    map t | t in s.jobMap :: (assert Mapped(s, t); Entry(s.jobs[s.jobMap[t]].runAt, s.jobs[s.jobMap[t]].claims))
  }

  // The entries a drain at `now` leaves, and those it emits.
  function Remaining(a: Table, now: int): Table {
    map t | t in a && a[t].deadline > now :: a[t]
  }

  function Emitted(a: Table, now: int): set<(string, Claims)> {
    set t | t in a && a[t].deadline <= now :: (t, a[t].claims)
  }

  /** Schedule overwrites the entry of its token and nothing else. */
  lemma ScheduleRefines<J>(s: Core<J>, token: string, claims: Claims, at: int, id: J)
    requires Inv(s) && (token in s.jobMap || id !in s.jobs)
    ensures Inv(Schedule(s, token, claims, at, id))
    ensures Abs(Schedule(s, token, claims, at, id)) == Abs(s)[token := Entry(at, claims)]
  {
    ScheduleKeepsInv(s, token, claims, at, id);
    var s' := Schedule(s, token, claims, at, id);
    forall t | t in s'.jobMap
      ensures Abs(s')[t] == Abs(s)[token := Entry(at, claims)][t]
    {
      assert Mapped(s', t);
      if t in s.jobMap { assert Mapped(s, t); }
    }
    assert Abs(s').Keys == Abs(s)[token := Entry(at, claims)].Keys;
  }

  /** Cancel removes the entry of its token; it finds one exactly when the table has one. */
  lemma CancelRefines<J>(s: Core<J>, token: string)
    requires Inv(s)
    ensures Inv(Cancel(s, token))
    ensures Abs(Cancel(s, token)) == Abs(s) - {token}
    ensures token in s.jobMap <==> token in Abs(s)
  {
    CancelKeepsInv(s, token);
    var s' := Cancel(s, token);
    forall t | t in s'.jobMap ensures Abs(s')[t] == Abs(s)[t] {
      assert Mapped(s, t) && Mapped(s', t);
      if token in s.jobMap { assert Mapped(s, token); }
    }
    assert Abs(s').Keys == (Abs(s) - {token}).Keys;
  }

  // ---------- one drain pass ----------

  // `popped` are successive heads of the heap, each due at `now`, leading from s to s'.
  ghost predicate Pops<J>(s: Core<J>, now: int, popped: seq<J>, s': Core<J>)
    decreases |popped|
  {
    if popped == [] then s' == s
    else IsHead(s, popped[0]) && s.jobs[popped[0]].runAt <= now && Pops(Pop(s, popped[0]), now, popped[1..], s')
  }

  ghost predicate NoneDue<J>(s: Core<J>, now: int) {
    forall j :: j in s.heap ==> !Due(s, j, now)
  }

  // The effect of the drain loop of `run`.
  ghost predicate Drains<J>(s: Core<J>, now: int, popped: seq<J>, s': Core<J>) {
    Pops(s, now, popped, s') && NoneDue(s', now)
  }

  lemma {:induction false} PopsAppend<J>(s: Core<J>, now: int, popped: seq<J>, s': Core<J>, j: J)
    requires Pops(s, now, popped, s') && IsHead(s', j) && s'.jobs[j].runAt <= now
    ensures Pops(s, now, popped + [j], Pop(s', j))
    decreases |popped|
  {
    if popped == [] {
      assert Pops(Pop(s, j), now, [], Pop(s', j));
      assert [j][1..] == [];
    } else {
      PopsAppend(Pop(s, popped[0]), now, popped[1..], s', j);
      assert (popped + [j])[1..] == popped[1..] + [j];
    }
  }

  /** Popped jobs are due, distinct, and come out in deadline order. */
  lemma {:induction false} PopsInOrder<J>(s: Core<J>, now: int, popped: seq<J>, s': Core<J>)
    requires Pops(s, now, popped, s')
    ensures forall i :: 0 <= i < |popped| ==> popped[i] in s.jobs && Due(s, popped[i], now)
    ensures forall i, k :: 0 <= i < k < |popped| ==>
      popped[i] != popped[k] && s.jobs[popped[i]].runAt <= s.jobs[popped[k]].runAt
    decreases |popped|
  {
    if popped != [] {
      var rest, m := popped[1..], Pop(s, popped[0]);
      PopsInOrder(m, now, rest, s');
      forall i | 0 <= i < |popped| ensures Due(s, popped[i], now) {
        if i > 0 { assert popped[i] == rest[i - 1] && Due(m, rest[i - 1], now); }
      }
      forall i, k | 0 <= i < k < |popped|
        ensures popped[i] != popped[k] && s.jobs[popped[i]].runAt <= s.jobs[popped[k]].runAt
      {
        assert popped[k] == rest[k - 1] && Due(m, rest[k - 1], now);
        if i > 0 { assert popped[i] == rest[i - 1]; }
      }
    }
  }

  /** The popped jobs leave the heap and nothing else does; their tokens leave the map. */
  lemma {:induction false} PopsClosedForm<J>(s: Core<J>, now: int, popped: seq<J>, s': Core<J>)
    requires Inv(s) && Pops(s, now, popped, s')
    ensures Inv(s') && s'.jobs == s.jobs
    ensures s'.heap == s.heap - (set j | j in popped)
    ensures s'.jobMap.Keys == s.jobMap.Keys - (set j | j in popped && j in s.jobs :: s.jobs[j].token)
    ensures forall t :: t in s'.jobMap ==> s'.jobMap[t] == s.jobMap[t]
    decreases |popped|
  {
    if popped != [] {
      var j, rest, m := popped[0], popped[1..], Pop(s, popped[0]);
      PopKeepsInv(s, j);
      PopsClosedForm(m, now, rest, s');
      assert popped == [j] + rest;
      assert (set x | x in popped) == {j} + (set x | x in rest);
      assert (set x | x in popped && x in s.jobs :: s.jobs[x].token)
          == {s.jobs[j].token} + (set x | x in rest && x in s.jobs :: s.jobs[x].token);
    }
  }

  /** A full drain removes exactly the due jobs. */
  lemma DrainClosedForm<J>(s: Core<J>, now: int, popped: seq<J>, s': Core<J>)
    requires Inv(s) && Drains(s, now, popped, s')
    ensures Inv(s') && s'.jobs == s.jobs
    ensures forall j :: j in popped <==> j in s.heap && Due(s, j, now)
    ensures forall j :: j in s'.heap <==> j in s.heap && !Due(s, j, now)
    ensures forall t :: t in s'.jobMap <==>
      t in s.jobMap && forall j :: j in s.heap && Due(s, j, now) ==> s.jobs[j].token != t
    ensures forall t :: t in s'.jobMap ==> s'.jobMap[t] == s.jobMap[t]
  {
    PopsInOrder(s, now, popped, s');
    PopsClosedForm(s, now, popped, s');
    forall j | j in s.heap && Due(s, j, now) ensures j in popped {
      if j !in popped { assert j in s'.heap && Due(s', j, now); }
    }
    forall t
      ensures t in s'.jobMap <==>
        t in s.jobMap && forall j :: j in s.heap && Due(s, j, now) ==> s.jobs[j].token != t
    {
      var gone := set j | j in popped && j in s.jobs :: s.jobs[j].token;
      if t in gone {
        var j :| j in popped && j in s.jobs && s.jobs[j].token == t;
        assert j in s.heap && Due(s, j, now);
      } else {
        forall j | j in s.heap && Due(s, j, now) ensures s.jobs[j].token != t {}
      }
    }
  }

  // What a drain hands to submitFn.
  function Submitted<J(==)>(s: Core<J>, popped: seq<J>): set<(string, Claims)>
    requires forall j :: j in popped ==> j in s.jobs
  {
    set j | j in popped && !s.jobs[j].canceled :: (s.jobs[j].token, s.jobs[j].claims)
  }

  // No token has both a tombstone that is due and a mapped job that is not.
  ghost predicate DrainSafe<J>(s: Core<J>, now: int)
    requires Inv(s)
  {
    forall j :: j in s.heap && Tombstone(s, j) && Due(s, j, now) && s.jobs[j].token in s.jobMap ==>
      Due(s, s.jobMap[s.jobs[j].token], now)
  }

  /** While live jobs and map agree, a drain submits exactly the due entries of the table,
      each token once. */
  lemma DrainEmits<J>(s: Core<J>, now: int, popped: seq<J>, s': Core<J>)
    requires Inv(s) && Synced(s) && Drains(s, now, popped, s')
    ensures forall j :: j in popped ==> j in s.jobs
    ensures Submitted(s, popped) == Emitted(Abs(s), now)
    ensures forall i, k :: 0 <= i < k < |popped| && !s.jobs[popped[i]].canceled && !s.jobs[popped[k]].canceled ==>
      s.jobs[popped[i]].token != s.jobs[popped[k]].token
  {
    DrainClosedForm(s, now, popped, s');
    PopsInOrder(s, now, popped, s');
    forall x | x in Submitted(s, popped) ensures x in Emitted(Abs(s), now) {
      var j :| j in popped && !s.jobs[j].canceled && x == (s.jobs[j].token, s.jobs[j].claims);
      assert j in s.heap && Live(s, j) && Due(s, j, now);
      assert Mapped(s, s.jobs[j].token);
    }
    forall x | x in Emitted(Abs(s), now) ensures x in Submitted(s, popped) {
      var t :| t in Abs(s) && Abs(s)[t].deadline <= now && x == (t, Abs(s)[t].claims);
      assert Mapped(s, t);
      var j := s.jobMap[t];
      assert j in s.heap && Due(s, j, now);
    }
    forall i, k | 0 <= i < k < |popped| && !s.jobs[popped[i]].canceled && !s.jobs[popped[k]].canceled
      ensures s.jobs[popped[i]].token != s.jobs[popped[k]].token
    {
      assert popped[i] in popped && popped[k] in popped;
      assert Live(s, popped[i]) && Live(s, popped[k]);
    }
  }

  /** A drain leaves exactly the entries that are not due -- if and only if no token has a
      due tombstone beside a mapped job that is not due. */
  lemma DrainRefinesIff<J>(s: Core<J>, now: int, popped: seq<J>, s': Core<J>)
    requires Inv(s) && Synced(s) && Drains(s, now, popped, s')
    ensures Inv(s')
    ensures Abs(s') == Remaining(Abs(s), now) <==> DrainSafe(s, now)
    ensures Synced(s') <==> DrainSafe(s, now)
  {
    DrainClosedForm(s, now, popped, s');
    if DrainSafe(s, now) {
      DrainKeepsEntries(s, now, popped, s');
    } else {
      var j :| j in s.heap && Tombstone(s, j) && Due(s, j, now) && s.jobs[j].token in s.jobMap
        && !Due(s, s.jobMap[s.jobs[j].token], now);
      var t := s.jobs[j].token;
      assert Mapped(s, t);
      var k := s.jobMap[t];
      assert k in s'.heap && Live(s', k) && t !in s'.jobMap;
      assert t in Remaining(Abs(s), now);
    }
  }

  lemma DrainKeepsEntries<J>(s: Core<J>, now: int, popped: seq<J>, s': Core<J>)
    requires Inv(s) && Synced(s) && Drains(s, now, popped, s') && DrainSafe(s, now)
    ensures Inv(s') && Synced(s')
    ensures Abs(s') == Remaining(Abs(s), now)
  {
    DrainClosedForm(s, now, popped, s');
    var a, r := Abs(s'), Remaining(Abs(s), now);
    forall t ensures t in a <==> t in r {
      if t in s.jobMap {
        assert Mapped(s, t);
        var k := s.jobMap[t];
        if t in r {
          forall j | j in s.heap && Due(s, j, now) ensures s.jobs[j].token != t {
            assert Live(s, j) || Tombstone(s, j);
          }
        } else {
          assert k in s.heap && Due(s, k, now);
        }
      }
    }
    forall t | t in a ensures a[t] == r[t] { assert Mapped(s', t) && Mapped(s, t); }
    forall k | k in s'.heap && Live(s', k)
      ensures s'.jobs[k].token in s'.jobMap && s'.jobMap[s'.jobs[k].token] == k
    {
      assert Live(s, k);
      var t := s.jobs[k].token;
      assert t in Abs(s) && Abs(s)[t].deadline > now;
      assert t in r;
    }
  }
}
