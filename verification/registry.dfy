/**
 The function registry of backend/db/models.py: the id counter and the
 create / list / delete / update / lookup operations on `functions`.
 Every operation first checks the database handle and returns its empty
 default when there is no connection.
 */
module Registry {
  import opened Wrappers
  import opened Store

  /** A new database state together with the value the operation returned. */
  datatype Step<T> = Step(db: Database, value: T)

  /** What `insert_function` does: no database, a fresh id, or the unique index refusing the id. */
  datatype InsertOutcome = NoDatabase | Inserted(id: int) | DuplicateKey(id: int)

  /** One entry of `get_all_functions`: the tuple (id, name, language, code, timeout). */
  datatype FunctionRow = FunctionRow(id: int, name: string, language: string, code: string, timeout: int)

  function RowOf(f: FunctionRecord): FunctionRow
  {
    FunctionRow(f.id, f.name, f.language, f.code, f.timeout)
  }

  /**
   `get_next_sequence_value`: `$inc` by one with upsert on the named counter,
   returning the value after the increment.
   */
  function NextSequenceValue(db: Database, name: string): (r: Step<int>)
    ensures db.Offline? ==> r == Step(Offline, 0)
    ensures db.Online? ==>
      && r.db.Online?
      && r.value == CounterOf(db.store.counters, name) + 1
      && CounterOf(r.db.store.counters, name) == r.value
      && (forall n :: n != name ==> CounterOf(r.db.store.counters, n) == CounterOf(db.store.counters, n))
      && r.db.store.functions == db.store.functions
      && r.db.store.executions == db.store.executions
  {
    match db
    case Offline => Step(Offline, 0)
    case Online(s) =>
      var v := CounterOf(s.counters, name) + 1;
      Step(Online(s.(counters := s.counters[name := v])), v)
  }

  /** The first id ever handed out is 1, whether the counter is missing or seeded with 0. */
  lemma FirstSequenceValueIsOne(s: Store, name: string)
    requires name !in s.counters || s.counters[name] == 0
    ensures NextSequenceValue(Online(s), name).value == 1
  {
  }

  /** Two successive calls on the same counter return consecutive values. */
  lemma SuccessiveSequenceValues(s: Store, name: string)
    ensures var a := NextSequenceValue(Online(s), name);
            var b := NextSequenceValue(a.db, name);
            b.value == a.value + 1 && b.value > CounterOf(s.counters, name)
  {
  }

  /**
   `insert_function`: draws an id from the `function_id` counter, then inserts
   the record; the unique index on `id` refuses a record whose id is taken,
   after the counter has already moved.
   */
  function InsertFunction(db: Database, req: FunctionCreate, now: Timestamp): (r: Step<InsertOutcome>)
    ensures db.Offline? ==> r == Step(Offline, NoDatabase)
    ensures db.Online? ==> r.db.Online? && !r.value.NoDatabase?
    ensures db.Online? ==> r.db.store.executions == db.store.executions
    ensures r.value.DuplicateKey? ==> r.db.store.functions == db.store.functions
    ensures db.Online? && Valid(db.store) ==>
      && r.value == Inserted(CounterOf(db.store.counters, FunctionIdSequence) + 1)
      && !HasId(db.store.functions, r.value.id)
      && r.db.store.functions == db.store.functions
                                 + [FunctionRecord(r.value.id, req.name, req.language, req.code, req.timeout, now)]
      && Valid(r.db.store)
  {
    match db
    case Offline => Step(Offline, NoDatabase)
    case Online(_) =>
      var Step(db1, id) := NextSequenceValue(db, FunctionIdSequence);
      var s1 := db1.store;
      if FindFirst(s1.functions, id).Some? then
        Step(db1, DuplicateKey(id))
      else
        var f := FunctionRecord(id, req.name, req.language, req.code, req.timeout, now);
        Step(Online(s1.(functions := s1.functions + [f])), Inserted(id))
  }

  /** With the counter seeded at 0 (or missing) the first function gets id 1. */
  lemma FirstFunctionIdIsOne(s: Store, req: FunctionCreate, now: Timestamp)
    requires Valid(s)
    requires CounterOf(s.counters, FunctionIdSequence) == 0
    ensures InsertFunction(Online(s), req, now).value == Inserted(1)
  {
  }

  /** A run of inserts, one after another, all at clock value `now`. */
  ghost function InsertAll(db: Database, reqs: seq<FunctionCreate>, now: Timestamp): Step<seq<InsertOutcome>>
    decreases |reqs|
  {
    if |reqs| == 0 then Step(db, [])
    else
      var first := InsertFunction(db, reqs[0], now);
      var rest := InsertAll(first.db, reqs[1..], now);
      Step(rest.db, [first.value] + rest.value)
  }

  /**
   Successive inserts on a valid store all succeed and receive consecutive,
   hence pairwise distinct, ids above the counter's starting value.
   */
  lemma {:induction false} InsertAllFreshIds(s: Store, reqs: seq<FunctionCreate>, now: Timestamp)
    requires Valid(s)
    ensures var r := InsertAll(Online(s), reqs, now);
            && |r.value| == |reqs|
            && r.db.Online? && Valid(r.db.store)
            && (forall i :: 0 <= i < |reqs| ==>
                 r.value[i] == Inserted(CounterOf(s.counters, FunctionIdSequence) + 1 + i))
            && (forall i, j :: 0 <= i < j < |reqs| ==> r.value[i].id != r.value[j].id)
    decreases |reqs|
  {
    if |reqs| > 0 {
      var first := InsertFunction(Online(s), reqs[0], now);
      InsertAllFreshIds(first.db.store, reqs[1..], now);
    }
  }

  /** `get_all_functions`: every record projected to its tuple, in stored order. */
  function AllFunctions(db: Database): (r: seq<FunctionRow>)
    ensures db.Offline? ==> r == []
    ensures db.Online? ==> |r| == |db.store.functions|
    ensures db.Online? ==> forall i :: 0 <= i < |r| ==> r[i] == RowOf(db.store.functions[i])
  {
    match db
    case Offline => []
    case Online(s) => seq(|s.functions|, i requires 0 <= i < |s.functions| => RowOf(s.functions[i]))
  }

  /** `delete_function_by_id`: `delete_one` on the first record with the id; true iff one was removed. */
  function DeleteFunctionById(db: Database, id: int): (r: Step<bool>)
    ensures db.Offline? ==> r == Step(Offline, false)
    ensures db.Online? ==> r.db.Online?
    ensures db.Online? ==>
      var fs := db.store.functions;
      var fs' := r.db.store.functions;
      && (r.value <==> HasId(fs, id))
      && r.db.store.counters == db.store.counters
      && r.db.store.executions == db.store.executions
      && |fs'| == (if r.value then |fs| - 1 else |fs|)
      && (r.value ==> exists i :: 0 <= i < |fs| && fs[i].id == id && fs' == fs[..i] + fs[i + 1..])
      && (!r.value ==> fs' == fs)
  {
    match db
    case Offline => Step(Offline, false)
    case Online(s) =>
      match FindFirst(s.functions, id)
      case None => Step(db, false)
      case Some(i) =>
        var fs := s.functions;
        assert fs == fs[..i] + [fs[i]] + fs[i + 1..];
        Step(Online(s.(functions := fs[..i] + fs[i + 1..])), true)
  }

  /** `update_function_code`: `$set` of `code` on the first record with the id; nothing else changes. */
  function UpdateFunctionCode(db: Database, id: int, newCode: string): (r: Database)
    ensures db.Offline? ==> r == Offline
    ensures db.Online? ==> r.Online?
    ensures db.Online? ==>
      var fs := db.store.functions;
      var fs' := r.store.functions;
      && r.store.counters == db.store.counters
      && r.store.executions == db.store.executions
      && |fs'| == |fs|
      && (forall j :: 0 <= j < |fs| ==> fs'[j] == fs[j].(code := fs'[j].code))
      && (forall j :: 0 <= j < |fs| && fs'[j].code != fs[j].code ==> fs[j].id == id)
      && (HasId(fs, id) ==> exists j :: 0 <= j < |fs| && fs[j].id == id && fs'[j].code == newCode)
      && (!HasId(fs, id) ==> r == db)
  {
    match db
    case Offline => Offline
    case Online(s) =>
      match FindFirst(s.functions, id)
      case None => db
      case Some(i) => Online(s.(functions := s.functions[i := s.functions[i].(code := newCode)]))
  }

  /** `get_function_metadata`: (language, timeout) of the first record with the id, or None. */
  function FunctionMetadata(db: Database, id: int): (r: Option<(string, int)>)
    ensures db.Offline? ==> r.None?
    ensures db.Online? ==> (r.Some? <==> HasId(db.store.functions, id))
    ensures r.Some? ==> exists i :: 0 <= i < |db.store.functions| && db.store.functions[i].id == id
                          && r.value == (db.store.functions[i].language, db.store.functions[i].timeout)
  {
    match db
    case Offline => None
    case Online(s) =>
      match FindFirst(s.functions, id)
      case None => None
      case Some(i) => Some((s.functions[i].language, s.functions[i].timeout))
  }

  /** `get_function_code`: the code of the first record with the id, or None. */
  function FunctionCode(db: Database, id: int): (r: Option<string>)
    ensures db.Offline? ==> r.None?
    ensures db.Online? ==> (r.Some? <==> HasId(db.store.functions, id))
    ensures r.Some? ==> exists i :: 0 <= i < |db.store.functions| && db.store.functions[i].id == id
                          && r.value == db.store.functions[i].code
  {
    match db
    case Offline => None
    case Online(s) =>
      match FindFirst(s.functions, id)
      case None => None
      case Some(i) => Some(s.functions[i].code)
  }

  /** Moving a counter up keeps the store invariant: every id stays at or below the `function_id` counter. */
  lemma NextKeepsValid(s: Store, name: string)
    requires Valid(s)
    ensures Valid(NextSequenceValue(Online(s), name).db.store)
  {
  }

  /** Without a connection every registry operation yields its empty default and changes nothing. */
  lemma OfflineDefaults(req: FunctionCreate, name: string, id: int, code: string, now: Timestamp)
    ensures NextSequenceValue(Offline, name) == Step(Offline, 0)
    ensures InsertFunction(Offline, req, now) == Step(Offline, NoDatabase)
    ensures AllFunctions(Offline) == []
    ensures DeleteFunctionById(Offline, id) == Step(Offline, false)
    ensures UpdateFunctionCode(Offline, id, code) == Offline
    ensures FunctionMetadata(Offline, id) == None
    ensures FunctionCode(Offline, id) == None
  {
  }

  /** A freshly inserted function is found by id, with the code and metadata it was created with. */
  lemma InsertThenLookup(s: Store, req: FunctionCreate, now: Timestamp, other: int)
    requires Valid(s)
    ensures var r := InsertFunction(Online(s), req, now);
            && FunctionCode(r.db, r.value.id) == Some(req.code)
            && FunctionMetadata(r.db, r.value.id) == Some((req.language, req.timeout))
            && (other != r.value.id ==> FunctionCode(r.db, other) == FunctionCode(Online(s), other))
  {
    var r := InsertFunction(Online(s), req, now);
    var f := FunctionRecord(r.value.id, req.name, req.language, req.code, req.timeout, now);
    AppendLookup(s.functions, f, r.value.id);
    assert r.db.store.functions[|s.functions|] == f;
    AppendLookup(s.functions, f, other);
  }

  /** Appending a record leaves earlier lookups alone and makes a missing id resolve to the new record. */
  lemma AppendLookup(fs: seq<FunctionRecord>, f: FunctionRecord, x: int)
    ensures FindFirst(fs + [f], x) ==
            match FindFirst(fs, x)
            case Some(k) => Some(k)
            case None => if f.id == x then Some(|fs|) else None
  {
    var fs' := fs + [f];
    match FindFirst(fs, x)
    case Some(k) =>
      assert fs'[k] == fs[k];
      assert forall j :: 0 <= j < k ==> fs'[j] == fs[j];
      FindFirstIs(fs', x, k);
    case None =>
      assert forall j :: 0 <= j < |fs| ==> fs'[j] == fs[j];
      if f.id == x {
        assert fs'[|fs|] == f;
        FindFirstIs(fs', x, |fs|);
      } else {
        assert forall j :: 0 <= j < |fs'| ==> fs'[j].id != x;
      }
  }

  /** The listing after an insert is the old listing with the new row appended. */
  lemma ListedAfterInsert(s: Store, req: FunctionCreate, now: Timestamp)
    requires Valid(s)
    ensures var r := InsertFunction(Online(s), req, now);
            AllFunctions(r.db) == AllFunctions(Online(s))
                                  + [FunctionRow(r.value.id, req.name, req.language, req.code, req.timeout)]
  {
  }

  /** An id appears in the listing exactly when `get_function_code` finds it. */
  lemma ListedIffFound(db: Database, id: int)
    ensures (exists i :: 0 <= i < |AllFunctions(db)| && AllFunctions(db)[i].id == id)
            <==> FunctionCode(db, id).Some?
  {
    if db.Online? && FunctionCode(db, id).Some? {
      var i := FindFirst(db.store.functions, id).value;
      assert AllFunctions(db)[i].id == id;
    }
  }

  /**
   On a valid store a delete removes the only record with the id: afterwards
   it is not found and a second delete reports false, while every other id
   still resolves to the same code.
   */
  lemma DeleteThenLookup(s: Store, id: int, other: int)
    requires Valid(s)
    ensures var r := DeleteFunctionById(Online(s), id);
            && Valid(r.db.store)
            && FunctionCode(r.db, id).None?
            && DeleteFunctionById(r.db, id).value == false
            && (other != id ==> FunctionCode(r.db, other) == FunctionCode(Online(s), other))
  {
    var r := DeleteFunctionById(Online(s), id);
    DeleteKeepsValid(s, id);
    assert !HasId(r.db.store.functions, id);
    if other != id {
      DeleteKeepsOtherLookups(s, id, other);
    }
  }

  /** The store left by a delete is valid and no longer holds the id. */
  lemma DeleteKeepsValid(s: Store, id: int)
    requires Valid(s)
    ensures var r := DeleteFunctionById(Online(s), id);
            Valid(r.db.store) && !HasId(r.db.store.functions, id)
  {
    var fs := s.functions;
    match FindFirst(fs, id)
    case None =>
    case Some(i) =>
      var fs' := fs[..i] + fs[i + 1..];
      assert DeleteFunctionById(Online(s), id).db == Online(s.(functions := fs'));
      RemoveAtKeepsOthers(fs, i);
      RemoveAtKeepsBound(fs, i, CounterOf(s.counters, FunctionIdSequence));
  }

  /** A delete does not change what any other id resolves to. */
  lemma DeleteKeepsOtherLookups(s: Store, id: int, other: int)
    requires other != id
    ensures var r := DeleteFunctionById(Online(s), id);
            FunctionCode(r.db, other) == FunctionCode(Online(s), other)
  {
    var fs := s.functions;
    match FindFirst(fs, id)
    case None =>
    case Some(i) =>
      var fs' := fs[..i] + fs[i + 1..];
      assert DeleteFunctionById(Online(s), id).db == Online(s.(functions := fs'));
      RemoveAtLookup(fs, i, other);
      match FindFirst(fs, other)
      case None =>
      case Some(k) =>
        assert fs'[if k < i then k else k - 1] == fs[k];
  }

  /** A delete keeps every record with another id, as many times as it was stored. */
  lemma DeleteKeepsOtherRecords(s: Store, id: int, f: FunctionRecord)
    requires f.id != id
    ensures var fs' := DeleteFunctionById(Online(s), id).db.store.functions;
            multiset(fs')[f] == multiset(s.functions)[f]
  {
    var fs := s.functions;
    match FindFirst(fs, id)
    case None =>
    case Some(i) =>
      assert fs == fs[..i] + [fs[i]] + fs[i + 1..];
      assert multiset(fs) == multiset(fs[..i]) + multiset{fs[i]} + multiset(fs[i + 1..]);
  }

  /** Removing a record keeps every remaining id under a bound all ids were under. */
  lemma RemoveAtKeepsBound(fs: seq<FunctionRecord>, i: nat, bound: int)
    requires i < |fs|
    requires forall j :: 0 <= j < |fs| ==> fs[j].id <= bound
    ensures var fs' := fs[..i] + fs[i + 1..];
            forall j :: 0 <= j < |fs'| ==> fs'[j].id <= bound
  {
    var fs' := fs[..i] + fs[i + 1..];
    forall j | 0 <= j < |fs'|
      ensures fs'[j].id <= bound
    {
      if j < i { assert fs'[j] == fs[j]; } else { assert fs'[j] == fs[j + 1]; }
    }
  }

  /** Removing position `i` shifts the later records down by one and keeps unique ids unique. */
  lemma RemoveAtKeepsOthers(fs: seq<FunctionRecord>, i: nat)
    requires i < |fs|
    ensures var fs' := fs[..i] + fs[i + 1..];
            && |fs'| == |fs| - 1
            && (forall j :: 0 <= j < i ==> fs'[j] == fs[j])
            && (forall j :: i <= j < |fs'| ==> fs'[j] == fs[j + 1])
            && (UniqueIds(fs) ==> UniqueIds(fs') && !HasId(fs', fs[i].id))
  {
  }

  /** `find_one` answers position `k` when `k` holds the id and no earlier record does. */
  lemma FindFirstIs(fs: seq<FunctionRecord>, x: int, k: nat)
    requires k < |fs| && fs[k].id == x
    requires forall j :: 0 <= j < k ==> fs[j].id != x
    ensures FindFirst(fs, x) == Some(k)
  {
    assert HasId(fs, x);
  }

  /** Looking up any other id after removing position `i` finds the same record, shifted if it was later. */
  lemma RemoveAtLookup(fs: seq<FunctionRecord>, i: nat, x: int)
    requires i < |fs| && fs[i].id != x
    ensures FindFirst(fs[..i] + fs[i + 1..], x) ==
            match FindFirst(fs, x)
            case None => None
            case Some(k) => Some(if k < i then k else k - 1)
  {
    var fs' := fs[..i] + fs[i + 1..];
    RemoveAtKeepsOthers(fs, i);
    match FindFirst(fs, x)
    case None =>
      forall j | 0 <= j < |fs'|
        ensures fs'[j].id != x
      {
        if j < i { assert fs'[j] == fs[j]; } else { assert fs'[j] == fs[j + 1]; }
      }
    case Some(k) =>
      var k' := if k < i then k else k - 1;
      assert fs'[k'] == fs[k];
      forall j | 0 <= j < k'
        ensures fs'[j].id != x
      {
        if j < i { assert fs'[j] == fs[j]; } else { assert fs'[j] == fs[j + 1]; }
      }
      FindFirstIs(fs', x, k');
  }

  /**
   After `update_function_code` the id resolves to the new code (or stays
   absent), every other id keeps its code, and every id keeps its metadata.
   */
  lemma UpdateThenLookup(s: Store, id: int, newCode: string, other: int)
    requires Valid(s)
    ensures var r := UpdateFunctionCode(Online(s), id, newCode);
            && Valid(r.store)
            && FunctionCode(r, id) == (if HasId(s.functions, id) then Some(newCode) else None)
            && FunctionMetadata(r, other) == FunctionMetadata(Online(s), other)
            && (other != id ==> FunctionCode(r, other) == FunctionCode(Online(s), other))
  {
    var r := UpdateFunctionCode(Online(s), id, newCode);
    var fs := s.functions;
    var fs' := r.store.functions;
    assert forall j :: 0 <= j < |fs| ==> fs'[j].id == fs[j].id;
    FindFirstSameIds(fs, fs', other);
    FindFirstSameIds(fs, fs', id);
  }

  /** `find_one` sees only ids, so two stores with the same ids in the same order agree on positions. */
  lemma {:induction false} FindFirstSameIds(fs: seq<FunctionRecord>, fs': seq<FunctionRecord>, id: int)
    requires |fs| == |fs'|
    requires forall j :: 0 <= j < |fs| ==> fs'[j].id == fs[j].id
    ensures FindFirst(fs', id) == FindFirst(fs, id)
    decreases |fs|
  {
    if |fs| > 0 && fs[0].id != id {
      FindFirstSameIds(fs[1..], fs'[1..], id);
    }
  }
}
