/**
 The ingestion half of the chain client: fetched logs are checked against the event table,
 published, and inserted. The table, the publish channel and the block headers are
 parameters of the client; one `ProcessEventLog` is one step.
 */
module EventStore {
  import opened Numerals
  import opened Options

  // A log of the contract and event the client was asked for. `data` stands for the data and
  // topics that the decoder works on; `txHash` is the hash in lower-case hex.
  datatype Log = Log(block: nat, txHash: string, index: nat, data: string)

  datatype Row = Row(contract: string, block: int, txHash: string, index: int, data: string)

  datatype Payload = Payload(log: Log, timestamp: nat)

  // What identifies a row.
  datatype RowKey = RowKey(contract: string, block: int, txHash: string, index: int)

  // The surroundings of a call: the contract row, the decoders, the block headers.
  datatype Env = Env(
    contract: Option<string>, text: Log -> string, decodable: Log -> bool, time: nat -> Option<nat>)

  // Whether the lookup and the insertion of a call succeed.
  datatype Faults = Faults(findOk: bool, insertOk: bool)

  datatype Db = Db(rows: seq<Row>, published: seq<Payload>)

  function KeyOfRow(r: Row): RowKey {
    RowKey(r.contract, r.block, r.txHash, r.index)
  }

  function KeyOfLog(contract: string, l: Log): RowKey {
    RowKey(contract, ToInt(l.block), l.txHash, ToInt(l.index))
  }

  function RowOf(env: Env, contract: string, l: Log): Row {
    Row(contract, ToInt(l.block), l.txHash, ToInt(l.index), env.text(l))
  }

  predicate HasKey(rows: seq<Row>, k: RowKey) {
    exists i :: 0 <= i < |rows| && KeyOfRow(rows[i]) == k
  }

  /** One log: nothing happens without a contract row or when the lookup finds the log; otherwise
      it is published if it decodes (and its block header is found) and then inserted. */
  function Process(db: Db, env: Env, l: Log, f: Faults): Db {
    match env.contract
    case None => db
    case Some(c) =>
      if f.findOk && HasKey(db.rows, KeyOfLog(c, l)) then db
      else if env.decodable(l) then
        match env.time(l.block)
        case None => db
        case Some(ts) => Insert(db.(published := db.published + [Payload(l, ts)]), RowOf(env, c, l), f.insertOk)
      else Insert(db, RowOf(env, c, l), f.insertOk)
  }

  function Insert(db: Db, r: Row, ok: bool): Db {
    if ok then db.(rows := db.rows + [r]) else db
  }

  // A window of logs, each with its own faults.
  function ProcessAll(db: Db, env: Env, logs: seq<Log>, faults: seq<Faults>): Db
    requires |logs| == |faults|
    decreases |logs|
  {
    if logs == [] then db
    else ProcessAll(Process(db, env, logs[0], faults[0]), env, logs[1..], faults[1..])
  }

  lemma {:induction false} ProcessAllAppend(db: Db, env: Env, logs: seq<Log>, faults: seq<Faults>, l: Log, f: Faults)
    requires |logs| == |faults|
    ensures ProcessAll(db, env, logs + [l], faults + [f]) == Process(ProcessAll(db, env, logs, faults), env, l, f)
    decreases |logs|
  {
    if logs == [] {
      assert (logs + [l])[1..] == [] && (faults + [f])[1..] == [];
    } else {
      assert (logs + [l])[1..] == logs[1..] + [l] && (faults + [f])[1..] == faults[1..] + [f];
      ProcessAllAppend(Process(db, env, logs[0], faults[0]), env, logs[1..], faults[1..], l, f);
    }
  }

  // ---------- the client object ----------

  class Client {
    var rows: seq<Row>
    var published: seq<Payload>
    var asked: seq<nat> // the blocks whose headers have been asked for

    function View(): Db
      reads this
    {
      Db(rows, published)
    }

    constructor ()
      ensures View() == Db([], [])
    {
      rows, published, asked := [], [], [];
    }

    /** Asks for the header of the block only if the log is to be published and the cache of the query
        does not have it; the cache only holds true times. */
    method ProcessEventLog(l: Log, env: Env, f: Faults, cache: map<nat, nat>) returns (ok: bool, cache': map<nat, nat>)
      requires CacheOk(env, cache)
      modifies this
      ensures View() == Process(old(View()), env, l, f)
      ensures CacheOk(env, cache') && cache.Keys <= cache'.Keys
      ensures asked == old(asked) || (asked == old(asked) + [l.block] && l.block !in cache
                                      && (env.time(l.block).Some? ==> l.block in cache'))
      ensures ok <==> (env.contract.Some? && f.findOk && HasKey(old(rows), KeyOfLog(env.contract.value, l)))
                      || Inserts(old(View()), env, l, f)
    {
      cache' := cache;
      if env.contract.None? { return false, cache; }
      var contract := env.contract.value;
      var found := HasRow(KeyOfLog(contract, l));
      if f.findOk && found { return true, cache; }
      if env.decodable(l) {
        if l.block !in cache' {
          asked := asked + [l.block];
          match env.time(l.block) {
            case None => return false, cache';
            case Some(ts) => cache' := cache'[l.block := ts];
          }
        }
        published := published + [Payload(l, cache'[l.block])];
      }
      if !f.insertOk { return false, cache'; }
      rows := rows + [RowOf(env, contract, l)];
      ok := true;
    }

    method HasRow(k: RowKey) returns (found: bool)
      ensures found <==> HasKey(rows, k)
    {
      for i := 0 to |rows|
        invariant !HasKey(rows[..i], k)
      {
        if KeyOfRow(rows[i]) == k { return true; }
        assert rows[..i + 1] == rows[..i] + [rows[i]];
      }
      assert rows[..|rows|] == rows;
      found := false;
    }

    /** The loop over the logs of one query: an error with one log does not stop the others, and no
        header is asked for again once it has been found. */
    method FilterLogs(logs: seq<Log>, env: Env, faults: seq<Faults>)
      requires |logs| == |faults|
      modifies this
      ensures View() == ProcessAll(old(View()), env, logs, faults)
      ensures old(asked) <= asked && OnceFound(env, asked[|old(asked)|..])
    {
      ghost var was, before := View(), asked;
      assert asked[|before|..] == [];
      var cache: map<nat, nat> := map[];
      for i := 0 to |logs|
        invariant CacheOk(env, cache)
        invariant View() == ProcessAll(was, env, logs[..i], faults[..i])
        invariant before <= asked && OnceFound(env, asked[|before|..])
        invariant forall b :: b in asked[|before|..] && env.time(b).Some? ==> b in cache
      {
        ghost var earlier := asked[|before|..];
        var _, c := ProcessEventLog(logs[i], env, faults[i], cache);
        cache := c;
        assert asked[|before|..] == earlier || asked[|before|..] == earlier + [logs[i].block];
        ProcessAllAppend(was, env, logs[..i], faults[..i], logs[i], faults[i]);
        assert logs[..i + 1] == logs[..i] + [logs[i]] && faults[..i + 1] == faults[..i] + [faults[i]];
      }
      assert logs[..|logs|] == logs && faults[..|faults|] == faults;
    }
  }

  // No block with a header stands twice among those asked for.
  ghost predicate OnceFound(env: Env, blocks: seq<nat>) {
    forall i, j :: 0 <= i < j < |blocks| && blocks[i] == blocks[j] ==> env.time(blocks[i]).None?
  }

  ghost predicate CacheOk(env: Env, cache: map<nat, nat>) {
    forall b :: b in cache ==> env.time(b) == Some(cache[b])
  }

  // ---------- one row per log, whatever fails ----------

  ghost predicate UniqueKeys(rows: seq<Row>) {
    forall i, j :: 0 <= i < j < |rows| ==> KeyOfRow(rows[i]) != KeyOfRow(rows[j])
  }

  // The call inserts a row.
  predicate Inserts(db: Db, env: Env, l: Log, f: Faults) {
    && f.insertOk && env.contract.Some?
    && !(f.findOk && HasKey(db.rows, KeyOfLog(env.contract.value, l)))
    && (env.decodable(l) ==> env.time(l.block).Some?)
  }

  /** A call makes a second row for a log exactly when the lookup fails, the row is there, and the
      insertion goes through. */
  lemma UniqueIff(db: Db, env: Env, l: Log, f: Faults)
    requires UniqueKeys(db.rows)
    ensures UniqueKeys(Process(db, env, l, f).rows) <==>
      !(Inserts(db, env, l, f) && HasKey(db.rows, KeyOfLog(env.contract.value, l)))
  {
    var rows := Process(db, env, l, f).rows;
    if Inserts(db, env, l, f) {
      var n := |db.rows|;
      assert KeyOfRow(rows[n]) == KeyOfLog(env.contract.value, l);
      if HasKey(db.rows, KeyOfLog(env.contract.value, l)) {
        var i :| 0 <= i < n && KeyOfRow(db.rows[i]) == KeyOfLog(env.contract.value, l);
        assert rows[i] == db.rows[i];
      }
    } else {
      assert rows == db.rows;
    }
  }

  /** A new log that decodes is published again by the next fetch exactly when its insertion
      failed: publishing comes first. */
  lemma RepublishedIff(db: Db, env: Env, l: Log, f: Faults)
    requires env.contract.Some? && !HasKey(db.rows, KeyOfLog(env.contract.value, l))
    requires env.decodable(l) && env.time(l.block).Some?
    ensures
      var first := Process(db, env, l, f);
      var again := Process(first, env, l, NO_FAULTS);
      && first.published == db.published + [Payload(l, env.time(l.block).value)]
      && (again.published != first.published <==> !f.insertOk)
  {
    var first := Process(db, env, l, f);
    if f.insertOk {
      assert KeyOfRow(first.rows[|db.rows|]) == KeyOfLog(env.contract.value, l);
    } else {
      assert first.rows == db.rows;
    }
  }

  // ---------- without faults ----------

  const NO_FAULTS := Faults(true, true)

  ghost predicate HeadersKnown(env: Env) {
    forall b :: env.time(b).Some?
  }

  function Ingest(db: Db, env: Env, logs: seq<Log>): Db
    decreases |logs|
  {
    if logs == [] then db else Ingest(Process(db, env, logs[0], NO_FAULTS), env, logs[1..])
  }

  lemma {:induction false} IngestIsProcessAll(db: Db, env: Env, logs: seq<Log>)
    ensures Ingest(db, env, logs) == ProcessAll(db, env, logs, seq(|logs|, _ => NO_FAULTS))
    decreases |logs|
  {
    if logs != [] {
      IngestIsProcessAll(Process(db, env, logs[0], NO_FAULTS), env, logs[1..]);
      assert seq(|logs|, _ => NO_FAULTS)[1..] == seq(|logs| - 1, _ => NO_FAULTS);
    }
  }

  // The logs of a query that had no row when their turn came.
  function Added(rows: seq<Row>, env: Env, c: string, logs: seq<Log>): seq<Log>
    decreases |logs|
  {
    if logs == [] then []
    else if HasKey(rows, KeyOfLog(c, logs[0])) then Added(rows, env, c, logs[1..])
    else [logs[0]] + Added(rows + [RowOf(env, c, logs[0])], env, c, logs[1..])
  }

  function RowsOf(env: Env, c: string, logs: seq<Log>): (rows: seq<Row>)
    ensures |rows| == |logs| && forall i :: 0 <= i < |logs| ==> rows[i] == RowOf(env, c, logs[i])
  {
    if logs == [] then [] else [RowOf(env, c, logs[0])] + RowsOf(env, c, logs[1..])
  }

  function PayloadsOf(env: Env, logs: seq<Log>): seq<Payload> {
    if logs == [] then []
    else
      (if env.decodable(logs[0]) && env.time(logs[0].block).Some?
       then [Payload(logs[0], env.time(logs[0].block).value)] else []) + PayloadsOf(env, logs[1..])
  }

  /** Ingesting without faults appends one row for each added log and publishes those of them
      that decode, in order. */
  lemma {:induction false} IngestAdds(db: Db, env: Env, logs: seq<Log>)
    requires env.contract.Some? && HeadersKnown(env)
    ensures
      var c := env.contract.value;
      var added := Added(db.rows, env, c, logs);
      Ingest(db, env, logs) == Db(db.rows + RowsOf(env, c, added), db.published + PayloadsOf(env, added))
    decreases |logs|
  {
    if logs != [] {
      var c, l := env.contract.value, logs[0];
      IngestOne(db, env, l);
      if HasKey(db.rows, KeyOfLog(c, l)) {
        IngestAdds(db, env, logs[1..]);
      } else {
        var m := Db(db.rows + [RowOf(env, c, l)], db.published + PayloadsOf(env, [l]));
        IngestAdds(m, env, logs[1..]);
        ConsAdded(env, c, l, Added(m.rows, env, c, logs[1..]));
        Reassociate(db.rows, [RowOf(env, c, l)], RowsOf(env, c, Added(m.rows, env, c, logs[1..])));
        Reassociate(db.published, PayloadsOf(env, [l]), PayloadsOf(env, Added(m.rows, env, c, logs[1..])));
      }
    }
  }

  lemma Reassociate<T>(a: seq<T>, b: seq<T>, c: seq<T>)
    ensures a + b + c == a + (b + c)
  {
  }

  lemma IngestOne(db: Db, env: Env, l: Log)
    requires env.contract.Some? && HeadersKnown(env)
    ensures
      var c := env.contract.value;
      Process(db, env, l, NO_FAULTS) ==
      if HasKey(db.rows, KeyOfLog(c, l)) then db
      else Db(db.rows + [RowOf(env, c, l)], db.published + PayloadsOf(env, [l]))
  {
    assert env.time(l.block).Some?;
    assert [l][1..] == [];
  }

  lemma ConsAdded(env: Env, c: string, l: Log, tail: seq<Log>)
    ensures RowsOf(env, c, [l] + tail) == [RowOf(env, c, l)] + RowsOf(env, c, tail)
    ensures PayloadsOf(env, [l] + tail) == PayloadsOf(env, [l]) + PayloadsOf(env, tail)
  {
    assert ([l] + tail)[1..] == tail && [l][1..] == [];
  }

  /** The added logs are new, are all the new ones, and no two share a key. */
  lemma {:induction false} AddedMeaning(rows: seq<Row>, env: Env, c: string, logs: seq<Log>)
    ensures
      var added := Added(rows, env, c, logs);
      && (forall i :: 0 <= i < |added| ==> added[i] in logs && !HasKey(rows, KeyOfLog(c, added[i])))
      && DistinctKeys(added, c)
      && (forall l :: l in logs ==> HasKey(rows, KeyOfLog(c, l)) || SomeHasKey(added, c, KeyOfLog(c, l)))
    decreases |logs|
  {
    if logs != [] {
      var l, rest := logs[0], logs[1..];
      assert logs == [l] + rest;
      if HasKey(rows, KeyOfLog(c, l)) {
        AddedMeaning(rows, env, c, rest);
      } else {
        var more := rows + [RowOf(env, c, l)];
        AddedMeaning(more, env, c, rest);
        HasKeyAppend(rows, RowOf(env, c, l));
        var tail := Added(more, env, c, rest);
        forall k { SomeHasKeyCons(l, tail, c, k); }
      }
    }
  }

  lemma SomeHasKeyCons(l: Log, tail: seq<Log>, c: string, k: RowKey)
    ensures SomeHasKey([l] + tail, c, k) <==> KeyOfLog(c, l) == k || SomeHasKey(tail, c, k)
  {
    var added := [l] + tail;
    assert added[0] == l;
    if SomeHasKey(tail, c, k) {
      var i :| 0 <= i < |tail| && KeyOfLog(c, tail[i]) == k;
      assert added[i + 1] == tail[i];
    }
  }

  ghost predicate DistinctKeys(logs: seq<Log>, c: string) {
    forall i, j :: 0 <= i < j < |logs| ==> KeyOfLog(c, logs[i]) != KeyOfLog(c, logs[j])
  }

  ghost predicate SomeHasKey(logs: seq<Log>, c: string, k: RowKey) {
    exists i :: 0 <= i < |logs| && KeyOfLog(c, logs[i]) == k
  }

  lemma HasKeyAppend(rows: seq<Row>, r: Row)
    ensures forall k :: HasKey(rows + [r], k) <==> HasKey(rows, k) || KeyOfRow(r) == k
  {
    forall k ensures HasKey(rows + [r], k) <==> HasKey(rows, k) || KeyOfRow(r) == k {
      if HasKey(rows, k) {
        var i :| 0 <= i < |rows| && KeyOfRow(rows[i]) == k;
        assert (rows + [r])[i] == rows[i];
      }
      if KeyOfRow(r) == k { assert (rows + [r])[|rows|] == r; }
    }
  }

  /** Fetching again what is already stored inserts nothing and publishes nothing. */
  lemma {:induction false} RerunChangesNothing(db: Db, env: Env, logs: seq<Log>)
    requires env.contract.Some?
    requires forall l :: l in logs ==> HasKey(db.rows, KeyOfLog(env.contract.value, l))
    ensures Ingest(db, env, logs) == db
    decreases |logs|
  {
    if logs != [] {
      assert logs[0] in logs;
      RerunChangesNothing(db, env, logs[1..]);
    }
  }

  // ---------- windows of a chain, in any order, overlapping at will ----------

  datatype Window = Window(from: int, to: int)

  // What a query for a window returns.
  function LogsIn(chain: seq<Log>, w: Window): seq<Log> {
    if chain == [] then []
    else (if w.from <= chain[0].block <= w.to then [chain[0]] else []) + LogsIn(chain[1..], w)
  }

  lemma {:induction false} LogsInMeaning(chain: seq<Log>, w: Window)
    ensures forall l :: l in LogsIn(chain, w) <==> l in chain && w.from <= l.block <= w.to
  {
    if chain != [] {
      LogsInMeaning(chain[1..], w);
      assert chain == [chain[0]] + chain[1..];
    }
  }

  function Fetched(chain: seq<Log>, ws: seq<Window>): seq<Log> {
    if ws == [] then [] else LogsIn(chain, ws[0]) + Fetched(chain, ws[1..])
  }

  predicate Covered(ws: seq<Window>, block: int) {
    exists i :: 0 <= i < |ws| && ws[i].from <= block <= ws[i].to
  }

  lemma {:induction false} FetchedMeaning(chain: seq<Log>, ws: seq<Window>)
    ensures forall l :: l in Fetched(chain, ws) <==> l in chain && Covered(ws, l.block)
  {
    if ws != [] {
      LogsInMeaning(chain, ws[0]);
      FetchedMeaning(chain, ws[1..]);
      forall b ensures Covered(ws, b) <==> ws[0].from <= b <= ws[0].to || Covered(ws[1..], b) {
        if Covered(ws[1..], b) {
          var i :| 0 <= i < |ws| - 1 && ws[1..][i].from <= b <= ws[1..][i].to;
          assert ws[i + 1] == ws[1..][i];
        }
      }
    }
  }

  // Queries one after the other.
  function IngestWindows(db: Db, env: Env, chain: seq<Log>, ws: seq<Window>): Db
    decreases |ws|
  {
    if ws == [] then db else IngestWindows(Ingest(db, env, LogsIn(chain, ws[0])), env, chain, ws[1..])
  }

  lemma {:induction false} IngestConcat(db: Db, env: Env, a: seq<Log>, b: seq<Log>)
    ensures Ingest(db, env, a + b) == Ingest(Ingest(db, env, a), env, b)
    decreases |a|
  {
    if a == [] {
      assert a + b == b;
    } else {
      assert (a + b)[1..] == a[1..] + b;
      IngestConcat(Process(db, env, a[0], NO_FAULTS), env, a[1..], b);
    }
  }

  lemma {:induction false} WindowsAreOneQuery(db: Db, env: Env, chain: seq<Log>, ws: seq<Window>)
    ensures IngestWindows(db, env, chain, ws) == Ingest(db, env, Fetched(chain, ws))
    decreases |ws|
  {
    if ws != [] {
      IngestConcat(db, env, LogsIn(chain, ws[0]), Fetched(chain, ws[1..]));
      WindowsAreOneQuery(Ingest(db, env, LogsIn(chain, ws[0])), env, chain, ws[1..]);
    }
  }

  // On this chain a key belongs to one log.
  ghost predicate Consistent(chain: seq<Log>, c: string) {
    forall a, b :: a in chain && b in chain && KeyOfLog(c, a) == KeyOfLog(c, b) ==> a == b
  }

  // The rows of the logs that the windows cover and that have none yet.
  ghost function NewRows(rows: seq<Row>, env: Env, c: string, chain: seq<Log>, ws: seq<Window>): set<Row> {
    set l | l in chain && Covered(ws, l.block) && !HasKey(rows, KeyOfLog(c, l)) :: RowOf(env, c, l)
  }

  /** Whatever windows are fetched, in whatever order and overlap, a table without duplicate keys
      keeps its rows and gains exactly one row for each log of their union that had none. */
  lemma StoreIsTheUnion(db: Db, env: Env, chain: seq<Log>, ws: seq<Window>)
    requires env.contract.Some? && HeadersKnown(env) && Consistent(chain, env.contract.value) && UniqueKeys(db.rows)
    ensures
      var c, rows := env.contract.value, IngestWindows(db, env, chain, ws).rows;
      && UniqueKeys(rows) && db.rows <= rows
      && RowSet(rows) == RowSet(db.rows) + NewRows(db.rows, env, c, chain, ws)
  {
    var c, logs := env.contract.value, Fetched(chain, ws);
    WindowsAreOneQuery(db, env, chain, ws);
    IngestAdds(db, env, logs);
    AddedUnique(db.rows, env, c, logs);
    AddedAreNew(db.rows, env, c, chain, ws);
    var added := RowsOf(env, c, Added(db.rows, env, c, logs));
    assert forall r :: r in db.rows + added <==> r in db.rows || r in added;
  }

  /** In particular every log of the union has its row afterwards, and no other log gains one. */
  lemma StoredIff(db: Db, env: Env, chain: seq<Log>, ws: seq<Window>, l: Log)
    requires env.contract.Some? && HeadersKnown(env) && Consistent(chain, env.contract.value) && UniqueKeys(db.rows)
    requires l in chain
    ensures
      var k, rows := KeyOfLog(env.contract.value, l), IngestWindows(db, env, chain, ws).rows;
      HasKey(rows, k) <==> HasKey(db.rows, k) || Covered(ws, l.block)
  {
    var c, k := env.contract.value, KeyOfLog(env.contract.value, l);
    var rows := IngestWindows(db, env, chain, ws).rows;
    StoreIsTheUnion(db, env, chain, ws);
    HasKeyIn(rows, k);
    HasKeyIn(db.rows, k);
    if HasKey(rows, k) && !HasKey(db.rows, k) {
      var r :| r in RowSet(rows) && KeyOfRow(r) == k;
      var x :| x in chain && Covered(ws, x.block) && RowOf(env, c, x) == r;
      assert KeyOfLog(c, x) == KeyOfRow(RowOf(env, c, x)) == k;
      assert l == x;
    }
    if Covered(ws, l.block) && !HasKey(db.rows, k) {
      assert RowOf(env, c, l) in NewRows(db.rows, env, c, chain, ws);
      assert KeyOfRow(RowOf(env, c, l)) == k;
    }
  }

  lemma HasKeyIn(rows: seq<Row>, k: RowKey)
    ensures HasKey(rows, k) <==> exists r :: r in RowSet(rows) && KeyOfRow(r) == k
  {
    if HasKey(rows, k) {
      var i :| 0 <= i < |rows| && KeyOfRow(rows[i]) == k;
      assert rows[i] in RowSet(rows);
    }
    if r :| r in RowSet(rows) && KeyOfRow(r) == k {
      var i :| 0 <= i < |rows| && rows[i] == r;
    }
  }

  lemma AddedAreNew(before: seq<Row>, env: Env, c: string, chain: seq<Log>, ws: seq<Window>)
    requires Consistent(chain, c)
    ensures RowSet(RowsOf(env, c, Added(before, env, c, Fetched(chain, ws)))) == NewRows(before, env, c, chain, ws)
  {
    var logs := Fetched(chain, ws);
    var added := Added(before, env, c, logs);
    var rows := RowsOf(env, c, added);
    AddedMeaning(before, env, c, logs);
    FetchedMeaning(chain, ws);
    forall r | r in RowSet(rows) ensures r in NewRows(before, env, c, chain, ws) {
      var i :| 0 <= i < |rows| && rows[i] == r;
      assert added[i] in logs;
    }
    forall l | l in chain && Covered(ws, l.block) && !HasKey(before, KeyOfLog(c, l)) ensures RowOf(env, c, l) in RowSet(rows) {
      StoredRow(before, env, c, chain, logs, l);
    }
  }

  lemma AddedUnique(before: seq<Row>, env: Env, c: string, logs: seq<Log>)
    requires UniqueKeys(before)
    ensures UniqueKeys(before + RowsOf(env, c, Added(before, env, c, logs)))
  {
    AddedMeaning(before, env, c, logs);
    RowsOfUnique(before, env, c, Added(before, env, c, logs));
  }

  lemma RowsOfUnique(before: seq<Row>, env: Env, c: string, added: seq<Log>)
    requires UniqueKeys(before)
    requires forall i :: 0 <= i < |added| ==> !HasKey(before, KeyOfLog(c, added[i]))
    requires DistinctKeys(added, c)
    ensures UniqueKeys(before + RowsOf(env, c, added))
  {
    var tail := RowsOf(env, c, added);
    forall j | 0 <= j < |tail| ensures KeyOfRow(tail[j]) == KeyOfLog(c, added[j]) {
      assert tail[j] == RowOf(env, c, added[j]);
    }
    UniqueConcat(before, tail);
  }

  lemma UniqueConcat(a: seq<Row>, b: seq<Row>)
    requires UniqueKeys(a) && UniqueKeys(b)
    requires forall j :: 0 <= j < |b| ==> !HasKey(a, KeyOfRow(b[j]))
    ensures UniqueKeys(a + b)
  {
    var rows, n := a + b, |a|;
    forall i, j | 0 <= i < j < |rows| ensures KeyOfRow(rows[i]) != KeyOfRow(rows[j]) {
      assert rows[i] == if i < n then a[i] else b[i - n];
      assert rows[j] == if j < n then a[j] else b[j - n];
    }
  }

  lemma StoredRow(before: seq<Row>, env: Env, c: string, chain: seq<Log>, logs: seq<Log>, l: Log)
    requires Consistent(chain, c) && l in chain && l in logs && forall x :: x in logs ==> x in chain
    requires !HasKey(before, KeyOfLog(c, l))
    ensures RowOf(env, c, l) in RowsOf(env, c, Added(before, env, c, logs))
  {
    var added := Added(before, env, c, logs);
    AddedMeaning(before, env, c, logs);
    var i :| 0 <= i < |added| && KeyOfLog(c, added[i]) == KeyOfLog(c, l);
    assert added[i] in logs && added[i] == l;
    assert RowsOf(env, c, added)[i] == RowOf(env, c, l);
  }

  ghost function RowSet(rows: seq<Row>): set<Row> {
    set r | r in rows
  }

  /** Two histories of windows with the same union turn the same table into the same, up to order. */
  lemma IngestionIsConfluent(db: Db, env: Env, chain: seq<Log>, ws: seq<Window>, ws': seq<Window>)
    requires env.contract.Some? && HeadersKnown(env) && Consistent(chain, env.contract.value) && UniqueKeys(db.rows)
    requires forall b :: Covered(ws, b) <==> Covered(ws', b)
    ensures multiset(IngestWindows(db, env, chain, ws).rows) == multiset(IngestWindows(db, env, chain, ws').rows)
  {
    StoreIsTheUnion(db, env, chain, ws);
    StoreIsTheUnion(db, env, chain, ws');
    assert NewRows(db.rows, env, env.contract.value, chain, ws) == NewRows(db.rows, env, env.contract.value, chain, ws');
    SameRows(IngestWindows(db, env, chain, ws).rows, IngestWindows(db, env, chain, ws').rows);
  }

  lemma SameRows(a: seq<Row>, b: seq<Row>)
    requires UniqueKeys(a) && UniqueKeys(b) && RowSet(a) == RowSet(b)
    ensures multiset(a) == multiset(b)
  {
    forall r: Row ensures multiset(a)[r] == multiset(b)[r] {
      OnceAtMost(a, r);
      OnceAtMost(b, r);
      assert r in RowSet(a) <==> r in a;
      assert r in RowSet(b) <==> r in b;
    }
  }

  lemma {:induction false} OnceAtMost(rows: seq<Row>, r: Row)
    requires UniqueKeys(rows)
    ensures multiset(rows)[r] == if r in rows then 1 else 0
  {
    if rows != [] {
      var n := |rows| - 1;
      OnceAtMost(rows[..n], r);
      assert rows == rows[..n] + [rows[n]];
      if r in rows[..n] {
        var i :| 0 <= i < n && rows[..n][i] == r;
        assert KeyOfRow(rows[i]) != KeyOfRow(rows[n]);
      }
    }
  }

  /** After any history, fetching once more a window that lies in its union changes nothing. */
  lemma RefetchChangesNothing(db: Db, env: Env, chain: seq<Log>, ws: seq<Window>, w: Window)
    requires env.contract.Some? && HeadersKnown(env) && Consistent(chain, env.contract.value) && UniqueKeys(db.rows)
    requires forall b :: w.from <= b <= w.to ==> Covered(ws, b)
    ensures
      var after := IngestWindows(db, env, chain, ws);
      Ingest(after, env, LogsIn(chain, w)) == after
  {
    var after := IngestWindows(db, env, chain, ws);
    LogsInMeaning(chain, w);
    forall l | l in LogsIn(chain, w) ensures HasKey(after.rows, KeyOfLog(env.contract.value, l)) {
      StoredIff(db, env, chain, ws, l);
    }
    RerunChangesNothing(after, env, LogsIn(chain, w));
  }

  /** For instance: a log whose insertion fails is published by this fetch and by the next. */
  lemma PublishedTwice(env: Env, l: Log)
    requires env.contract.Some? && env.decodable(l) && env.time(l.block).Some?
    ensures
      var first := Process(Db([], []), env, l, Faults(true, false));
      var p := Payload(l, env.time(l.block).value);
      first == Db([], [p]) && Process(first, env, l, NO_FAULTS).published == [p, p]
  {
  }
}
