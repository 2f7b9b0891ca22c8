/**
 The MongoDB database behind backend/db/models.py, as an immutable value:
 the `counters`, `functions` and `executions` collections.
 */
module Store {
  import opened Wrappers

  /** A reading of the UTC clock; a larger value is a later instant. */
  type Timestamp = int

  /** The name of the counter that hands out function ids. */
  const FunctionIdSequence: string := "function_id"

  /** The fields a client supplies to register a function (FunctionCreate). */
  datatype FunctionCreate = FunctionCreate(name: string, language: string, timeout: int, code: string)

  /** A document of the `functions` collection. */
  datatype FunctionRecord = FunctionRecord(
    id: int,
    name: string,
    language: string,
    code: string,
    timeout: int,
    createdAt: Timestamp)

  /** A document of the `executions` collection; `objectId` is the `_id` MongoDB assigns. */
  datatype ExecutionRecord = ExecutionRecord(
    objectId: string,
    functionId: int,
    execTime: real,
    memUsage: int,
    cpuPercent: real,
    status: string,
    output: string,
    timestamp: Timestamp)

  /** The three collections; `functions` and `executions` are in natural (insertion) order. */
  datatype Store = Store(
    counters: map<string, int>,
    functions: seq<FunctionRecord>,
    executions: seq<ExecutionRecord>)

  /** The module-level `db` handle: `None` when the connection could not be made. */
  datatype Database = Offline | Online(store: Store)

  /** The value of a counter; a counter that does not exist yet reads as 0. */
  function CounterOf(counters: map<string, int>, name: string): int
  {
    if name in counters then counters[name] else 0
  }

  ghost predicate HasId(fs: seq<FunctionRecord>, id: int)
  {
    exists i :: 0 <= i < |fs| && fs[i].id == id
  }

  /** The position `find_one({"id": id})` returns: the first record with that id. */
  function FindFirst(fs: seq<FunctionRecord>, id: int): (r: Option<nat>)
    ensures r.None? <==> !HasId(fs, id)
    ensures r.Some? ==> r.value < |fs| && fs[r.value].id == id
    ensures r.Some? ==> forall j :: 0 <= j < r.value ==> fs[j].id != id
  {
    if |fs| == 0 then None
    else if fs[0].id == id then Some(0)
    else
      match FindFirst(fs[1..], id)
      case None =>
        assert forall i :: 1 <= i < |fs| ==> fs[i] == fs[1..][i - 1];
        None
      case Some(i) => Some(i + 1)
  }

  /** The unique index on `id`: no two function records share an id. */
  ghost predicate UniqueIds(fs: seq<FunctionRecord>)
  {
    forall i, j :: 0 <= i < j < |fs| ==> fs[i].id != fs[j].id
  }

  /**
   The store invariant: ids are unique and none is above the `function_id`
   counter, so the next id the counter hands out is fresh.
   */
  ghost predicate Valid(s: Store)
  {
    && UniqueIds(s.functions)
    && forall i :: 0 <= i < |s.functions| ==> s.functions[i].id <= CounterOf(s.counters, FunctionIdSequence)
  }
}
