/**
 Several goroutines storing logs in one table: the monitors of a contract, its backfill. Each looks
 whether the log is there and inserts it later, with nothing held in between, and the table itself
 does not object to a second row.
 */
module InsertRace {
  import opened EventStore

  // The rows, and the row each writer is about to insert.
  datatype State = State(rows: seq<Row>, held: map<string, Row>)

  datatype Move =
    | Look(row: Row, ok: bool) // the lookup for a row, which may fail
    | Insert(ok: bool)         // the insertion, which may fail
    | GiveUp                   // the block header is missing

  datatype Step = Step(writer: string, move: Move)

  predicate Enabled(s: State, t: Step) {
    t.move.Look? <==> t.writer !in s.held
  }

  function Next(s: State, t: Step): State
    requires Enabled(s, t)
  {
    match t.move
    case Look(r, ok) =>
      if ok && HasKey(s.rows, KeyOfRow(r)) then s else s.(held := s.held[t.writer := r])
    case Insert(ok) =>
      State(if ok then s.rows + [s.held[t.writer]] else s.rows, s.held - {t.writer})
    case GiveUp => s.(held := s.held - {t.writer})
  }

  ghost predicate Moves(s: State, t: Step, s': State) {
    Enabled(s, t) && s' == Next(s, t)
  }

  ghost predicate Run(states: seq<State>, steps: seq<Step>) {
    && |states| == |steps| + 1 && states[0].held == map[]
    && forall i :: 0 <= i < |steps| ==> Moves(states[i], steps[i], states[i + 1])
  }

  // The step inserts a row with key k.
  predicate Inserts(s: State, t: Step, k: RowKey) {
    t.move == Insert(true) && t.writer in s.held && KeyOfRow(s.held[t.writer]) == k
  }

  // Step j is the lookup of the writer that makes step i.
  ghost predicate LookOf(steps: seq<Step>, j: nat, i: nat) {
    && j < i < |steps| && steps[j].move.Look? && steps[j].writer == steps[i].writer
    && forall x :: j < x < i ==> steps[x].writer != steps[i].writer
  }

  // The lookup at step j failed although a row with key k was there.
  ghost predicate Overlooks(s: State, t: Step, k: RowKey) {
    t.move.Look? && !t.move.ok && HasKey(s.rows, k)
  }

  // Since its lookup at step j a row with key k has been inserted by another writer before step i.
  ghost predicate Overtaken(states: seq<State>, steps: seq<Step>, j: nat, i: nat, k: RowKey)
    requires i <= |steps| < |states|
  {
    exists x :: j < x < i && Inserts(states[x], steps[x], k)
  }

  // Step i inserts a row whose key was overlooked by its writer's lookup or inserted since.
  ghost predicate Doubles(states: seq<State>, steps: seq<Step>, i: nat)
    requires |steps| < |states|
  {
    exists j: nat, k :: LookOf(steps, j, i) && Inserts(states[i], steps[i], k)
                        && (Overlooks(states[j], steps[j], k) || Overtaken(states, steps, j, i, k))
  }

  // What a writer holds, it has looked for, and has held since.
  lemma {:induction false} FindLook(states: seq<State>, steps: seq<Step>, i: nat, w: string) returns (j: nat)
    requires Run(states, steps) && i < |states| && w in states[i].held
    ensures j < i && steps[j].move.Look? && steps[j].writer == w && steps[j].move.row == states[i].held[w]
    ensures steps[j].move.ok ==> !HasKey(states[j].rows, KeyOfRow(states[i].held[w]))
    ensures forall x :: j < x < i ==> steps[x].writer != w && w in states[x].held && states[x].held[w] == states[i].held[w]
  {
    assert i > 0;
    assert Moves(states[i - 1], steps[i - 1], states[i]);
    if steps[i - 1].writer == w {
      j := i - 1;
    } else {
      j := FindLook(states, steps, i - 1, w);
    }
  }

  lemma RowsGrow(s: State, t: Step, s': State, k: RowKey)
    requires Moves(s, t, s')
    ensures HasKey(s'.rows, k) <==> HasKey(s.rows, k) || Inserts(s, t, k)
  {
    if t.move == Insert(true) {
      var n := |s.rows|;
      assert s'.rows[n] == s.held[t.writer];
      if i :| 0 <= i < n && KeyOfRow(s.rows[i]) == k { assert s'.rows[i] == s.rows[i]; }
    }
  }

  // A key is there exactly if it was there earlier or has been inserted since.
  lemma {:induction false} KeySince(states: seq<State>, steps: seq<Step>, j: nat, i: nat, k: RowKey)
    requires Run(states, steps) && j <= i < |states|
    ensures HasKey(states[i].rows, k) <==>
            HasKey(states[j].rows, k) || exists x :: j <= x < i && Inserts(states[x], steps[x], k)
    decreases i
  {
    if j < i {
      KeySince(states, steps, j, i - 1, k);
      assert Moves(states[i - 1], steps[i - 1], states[i]);
      RowsGrow(states[i - 1], steps[i - 1], states[i], k);
    }
  }

  /** An insertion meets a row of its key exactly if its writer's lookup failed over one that was there,
      or another writer has inserted one since. */
  lemma SecondRowIff(states: seq<State>, steps: seq<Step>, i: nat)
    requires Run(states, steps) && i < |steps| && steps[i].move == Insert(true)
    ensures steps[i].writer in states[i].held
    ensures HasKey(states[i].rows, KeyOfRow(states[i].held[steps[i].writer])) <==> Doubles(states, steps, i)
  {
    assert Moves(states[i], steps[i], states[i + 1]);
    var w := steps[i].writer;
    var k := KeyOfRow(states[i].held[w]);
    var j := FindLook(states, steps, i, w);
    assert LookOf(steps, j, i) && Inserts(states[i], steps[i], k);
    assert forall x: nat :: LookOf(steps, x, i) ==> x == j;
    KeySince(states, steps, j, i, k);
    assert !Inserts(states[j], steps[j], k);
  }

  lemma UniqueAppend(rows: seq<Row>, r: Row)
    ensures UniqueKeys(rows + [r]) <==> UniqueKeys(rows) && !HasKey(rows, KeyOfRow(r))
  {
    var all, n := rows + [r], |rows|;
    assert all[n] == r && forall i :: 0 <= i < n ==> all[i] == rows[i];
    if UniqueKeys(all) {
      assert forall i, j :: 0 <= i < j < n ==> KeyOfRow(all[i]) != KeyOfRow(all[j]);
      assert forall i :: 0 <= i < n ==> KeyOfRow(all[i]) != KeyOfRow(all[n]);
    }
  }

  /** So over a whole run the table keeps one row per log exactly if no insertion of it was overlooked
      or overtaken. */
  lemma {:induction false} RunUniqueIff(states: seq<State>, steps: seq<Step>, n: nat)
    requires Run(states, steps) && UniqueKeys(states[0].rows) && n < |states|
    ensures UniqueKeys(states[n].rows) <==> forall i: nat :: i < n ==> !Doubles(states, steps, i)
  {
    if n > 0 {
      var s, t := states[n - 1], steps[n - 1];
      RunUniqueIff(states, steps, n - 1);
      assert Moves(s, t, states[n]);
      if t.move == Insert(true) {
        SecondRowIff(states, steps, n - 1);
        UniqueAppend(s.rows, s.held[t.writer]);
      } else {
        assert states[n].rows == s.rows && !Doubles(states, steps, n - 1);
      }
    }
  }

  // No two writers are about to insert the same key.
  ghost predicate Apart(s: State) {
    forall v, w :: v in s.held && w in s.held && v != w ==> KeyOfRow(s.held[v]) != KeyOfRow(s.held[w])
  }

  /** In particular it does if no lookup fails and no two writers are at the same log at a time. */
  lemma ApartIsUnique(states: seq<State>, steps: seq<Step>)
    requires Run(states, steps) && UniqueKeys(states[0].rows)
    requires forall i :: 0 <= i < |steps| && steps[i].move.Look? ==> steps[i].move.ok
    requires forall i :: 0 <= i < |states| ==> Apart(states[i])
    ensures UniqueKeys(states[|steps|].rows)
  {
    forall i: nat | i < |steps| ensures !Doubles(states, steps, i) {
      if steps[i].move == Insert(true) {
        assert Moves(states[i], steps[i], states[i + 1]);
        var w := steps[i].writer;
        var j := FindLook(states, steps, i, w);
        assert forall x: nat :: LookOf(steps, x, i) ==> x == j;
        forall x | j < x < i ensures !Inserts(states[x], steps[x], KeyOfRow(states[i].held[w])) { assert Apart(states[x]); }
      }
    }
    RunUniqueIff(states, steps, |steps|);
  }

  /** Monitor and backfill at the same log: both look, both insert. */
  lemma TwoRowsRun(r: Row) returns (states: seq<State>, steps: seq<Step>)
    ensures Run(states, steps) && states[0].rows == []
    ensures states[|steps|].rows == [r, r] && !UniqueKeys(states[|steps|].rows)
    ensures forall i :: 0 <= i < |steps| && steps[i].move.Look? ==> steps[i].move.ok
  {
    var a, b := "monitor", "backfill";
    steps := [Step(a, Look(r, true)), Step(b, Look(r, true)), Step(a, Insert(true)), Step(b, Insert(true))];
    var s0 := State([], map[]);
    var s1 := Next(s0, steps[0]);
    var s2 := Next(s1, steps[1]);
    var s3 := Next(s2, steps[2]);
    var s4 := Next(s3, steps[3]);
    states := [s0, s1, s2, s3, s4];
    assert KeyOfRow(s4.rows[0]) == KeyOfRow(s4.rows[1]);
  }
}
