/** JSON values, as carried by record metadata and by protocol headers. */
module Json {
  /** A double, as far as the program looks into it: whether it is zero, and what truncating it gives. */
  datatype Float = Finite(bits: int, zero: bool, whole: int) | Infinite(negative: bool) | NotANumber

  datatype Json =
    | JNull
    | JBool(flag: bool)
    | JInt(number: int)
    | JFloat(float: Float)
    | JStr(text: string)
    | JList(items: seq<Json>)
    | JObj(fields: map<string, Json>)

  type JsonObject = map<string, Json>
}

/** The versioned, byte-bounded LRU store. */
module Store {
  import opened Wrappers
  import opened Json
  import opened Topology
  import opened Identity

  newtype byte = x: int | 0 <= x < 256

  type Bytes = seq<byte>

  /** A store key.  A derived key stands for the string it is rendered as, which is never empty. */
  datatype Key =
    | Text(text: string)
    | RequestKey(requestId: string, role: Role)
    | GraphKey(graph: GraphDigest, role: Role)
    | LayoutKey(layout: LayoutDigest)
  {
    predicate Empty() { this == Text("") }
  }

  datatype StateRecord = StateRecord(key: Key, version: int, payload: Bytes, metadata: JsonObject, createdNs: int)

  /** Exceptions of Python's own conversions. */
  datatype PythonError = TypeError | ValueError | OverflowError

  datatype StoreError =
    | BadCapacity
    | EmptyKey
    | PayloadTooLarge
    | VersionConflict(expected: int, found: int)
    | BadMetadata(exception: PythonError)

  /** What `dict(metadata or {})` makes of a put's metadata: a dictionary, or an exception of some class. */
  datatype Metadata = Dictionary(fields: JsonObject) | NotADictionary(exception: PythonError)

  // ---------- the ordered dictionary ----------

  predicate UniqueKeys(records: seq<StateRecord>) {
    forall i, j :: 0 <= i < j < |records| ==> records[i].key != records[j].key
  }

  function KeysOf(records: seq<StateRecord>): set<Key> {
    set r | r in records :: r.key
  }

  function Lookup(records: seq<StateRecord>, key: Key): (r: Option<StateRecord>)
    ensures r.Some? ==> r.value in records && r.value.key == key
    ensures r.Some? <==> key in KeysOf(records)
  {
    if records == [] then None
    else if records[0].key == key then Some(records[0])
    else
      var rest := Lookup(records[1..], key);
      assert forall r :: r in records <==> r == records[0] || r in records[1..];
      rest
  }

  function Without(records: seq<StateRecord>, key: Key): (r: seq<StateRecord>)
    ensures forall x :: x in r <==> x in records && x.key != key
    ensures |r| <= |records|
    ensures UniqueKeys(records) ==> UniqueKeys(r)
  {
    if records == [] then []
    else if records[0].key == key then Without(records[1..], key)
    else [records[0]] + Without(records[1..], key)
  }

  /** `d[key] = record`: replaces in place, or appends. */
  function SetItem(records: seq<StateRecord>, record: StateRecord): seq<StateRecord> {
    if records == [] then [record]
    else if records[0].key == record.key then [record] + records[1..]
    else [records[0]] + SetItem(records[1..], record)
  }

  function MoveToEnd(records: seq<StateRecord>, key: Key): seq<StateRecord> {
    match Lookup(records, key)
    case None => records
    case Some(record) => Without(records, key) + [record]
  }

  function Total(records: seq<StateRecord>): nat {
    if records == [] then 0 else |records[0].payload| + Total(records[1..])
  }

  function SizeOf(record: Option<StateRecord>): nat {
    if record.Some? then |record.value.payload| else 0
  }

  // ---------- eviction ----------

  /** The eviction loop on its own terms, for any excluded key. */
  function Evict(records: seq<StateRecord>, exclude: Key, limit: int): seq<StateRecord>
    decreases |records|
  {
    if Total(records) <= limit || records == [] then records
    else if records[0].key == exclude && |records| == 1 then records
    else if records[0].key == exclude then
      Evict((records[1..] + [records[0]])[1..], exclude, limit)
    else Evict(records[1..], exclude, limit)
  }

  /** The longest suffix whose payloads fit the limit. */
  function LongestFit(records: seq<StateRecord>, limit: int): seq<StateRecord> {
    if records == [] || Total(records) <= limit then records else LongestFit(records[1..], limit)
  }

  // ---------- the store as a value ----------

  datatype StoreState = StoreState(maxBytes: int, records: seq<StateRecord>, bytes: int, evictions: nat)

  /** The resident bytes that the byte counter has lost sight of. */
  function Drift(s: StoreState): int {
    Total(s.records) - s.bytes
  }

  /** What holds in every reachable state. */
  ghost predicate ValidStore(s: StoreState) {
    && s.maxBytes > 0
    && UniqueKeys(s.records)
    && s.bytes <= s.maxBytes && Drift(s) >= 0
    && forall r :: r in s.records ==> r.version >= 1 && !r.key.Empty()
  }

  function EmptyStore(maxBytes: int): StoreState {
    StoreState(maxBytes, [], 0, 0)
  }

  function VersionOf(s: StoreState, key: Key): int {
    match Lookup(s.records, key)
    case None => 0
    case Some(record) => record.version
  }

  function StoreGet(s: StoreState, key: Key): (StoreState, Option<StateRecord>) {
    (s.(records := MoveToEnd(s.records, key)), Lookup(s.records, key))
  }

  /** `metadata or {}`. */
  function OrEmpty(metadata: Option<JsonObject>): JsonObject {
    if metadata.Some? then metadata.value else map[]
  }

  /** The bytes the eviction loop lets stay: bytes it has lost sight of come on top of the bound. */
  function Allowance(s: StoreState): int {
    s.maxBytes + Drift(s)
  }

  /** Keeping the longest suffix that fits, with the drift as it is. */
  function Keep(records: seq<StateRecord>, maxBytes: int, drift: int, evictions: nat): StoreState {
    var kept := LongestFit(records, maxBytes + drift);
    FitShrinks(records, maxBytes + drift);
    StoreState(maxBytes, kept, Total(kept) - drift, evictions + (|records| - |kept|))
  }

  /** Publishing a record: it becomes the newest entry, and the longest suffix that fits is kept. */
  function Publish(s: StoreState, record: StateRecord): StoreState {
    Keep(Without(s.records, record.key) + [record], s.maxBytes, Drift(s), s.evictions)
  }

  function PutFault(s: StoreState, key: Key, payload: Bytes, expected: Option<int>): Option<StoreError> {
    if key.Empty() then Some(EmptyKey)
    else if |payload| > s.maxBytes then Some(PayloadTooLarge)
    else if expected.Some? && expected.value != VersionOf(s, key) then Some(VersionConflict(expected.value, VersionOf(s, key)))
    else None
  }

  function StorePut(s: StoreState, key: Key, payload: Bytes, metadata: JsonObject, expected: Option<int>, now: int)
    : (StoreState, Result<StateRecord, StoreError>)
  {
    match PutFault(s, key, payload, expected)
    case Some(fault) => (s, Err(fault))
    case None =>
      var record := StateRecord(key, VersionOf(s, key) + 1, payload, metadata, now);
      (Publish(s, record), Ok(record))
  }

  /**
   A put whose metadata is not convertible: the earlier checks come first; past them the old
   payload is no longer counted, although its record stays.
   */
  function StoreBadPut(s: StoreState, key: Key, payload: Bytes, expected: Option<int>, exception: PythonError): (StoreState, StoreError) {
    match PutFault(s, key, payload, expected)
    case Some(fault) => (s, fault)
    case None => (s.(bytes := s.bytes - SizeOf(Lookup(s.records, key))), BadMetadata(exception))
  }

  function StorePutAny(s: StoreState, key: Key, payload: Bytes, metadata: Metadata, expected: Option<int>, now: int)
    : (StoreState, Result<StateRecord, StoreError>)
  {
    match metadata
    case Dictionary(fields) => StorePut(s, key, payload, fields, expected, now)
    case NotADictionary(exception) =>
      var (s', error) := StoreBadPut(s, key, payload, expected, exception);
      (s', Err(error))
  }

  function StoreDelete(s: StoreState, key: Key, expected: Option<int>): (StoreState, Result<bool, StoreError>) {
    match Lookup(s.records, key)
    case None => (s, Ok(false))
    case Some(record) =>
      if expected.Some? && record.version != expected.value then (s, Err(VersionConflict(expected.value, record.version)))
      else (s.(records := Without(s.records, key), bytes := s.bytes - |record.payload|), Ok(true))
  }

  // ---------- lemmas about the dictionary ----------

  lemma {:induction false} TotalAppend(a: seq<StateRecord>, b: seq<StateRecord>)
    ensures Total(a + b) == Total(a) + Total(b)
  {
    if a == [] {
      assert a + b == b;
    } else {
      assert (a + b)[1..] == a[1..] + b;
      TotalAppend(a[1..], b);
    }
  }

  lemma {:induction false} WithoutAbsent(records: seq<StateRecord>, key: Key)
    requires Lookup(records, key) == None
    ensures Without(records, key) == records
  {
    if records != [] { WithoutAbsent(records[1..], key); }
  }

  lemma {:induction false} WithoutTotal(records: seq<StateRecord>, key: Key)
    requires UniqueKeys(records)
    ensures Total(Without(records, key)) == Total(records) - SizeOf(Lookup(records, key))
    ensures |Without(records, key)| == |records| - if Lookup(records, key).Some? then 1 else 0
  {
    if records != [] {
      WithoutTotal(records[1..], key);
      if records[0].key == key {
        forall r | r in records[1..] ensures r.key != key {
          var i :| 0 <= i < |records[1..]| && records[1..][i] == r;
          assert records[0].key != records[i + 1].key;
        }
        assert Lookup(records[1..], key) == None;
        WithoutAbsent(records[1..], key);
      }
    }
  }

  /** Setting an item and moving it to the end: the other records keep their order, the new one comes last. */
  lemma {:induction false} SetThenMove(records: seq<StateRecord>, record: StateRecord)
    requires UniqueKeys(records)
    ensures Lookup(SetItem(records, record), record.key) == Some(record)
    ensures Without(SetItem(records, record), record.key) == Without(records, record.key)
  {
    if records != [] {
      var updated := SetItem(records, record);
      if records[0].key == record.key {
        assert updated[1..] == records[1..];
      } else {
        SetThenMove(records[1..], record);
        assert updated[1..] == SetItem(records[1..], record);
      }
    }
  }

  lemma {:induction false} FitShrinks(records: seq<StateRecord>, limit: int)
    ensures |LongestFit(records, limit)| <= |records|
    ensures LongestFit(records, limit) == records[|records| - |LongestFit(records, limit)|..]
  {
    if records != [] && Total(records) > limit {
      FitShrinks(records[1..], limit);
    }
  }

  /** LongestFit is the longest suffix that fits: it fits, and every longer suffix does not. */
  lemma {:induction false} FitIsLongest(records: seq<StateRecord>, limit: int, n: nat)
    requires 0 <= limit && n <= |records|
    ensures Total(LongestFit(records, limit)) <= limit
    ensures Total(records[|records| - n..]) <= limit <==> n <= |LongestFit(records, limit)|
  {
    FitShrinks(records, limit);
    var suffix := records[|records| - n..];
    assert records == records[..|records| - n] + suffix;
    TotalAppend(records[..|records| - n], suffix);
    if records != [] && Total(records) > limit {
      FitShrinks(records[1..], limit);
      if n < |records| {
        FitIsLongest(records[1..], limit, n);
        assert records[1..][|records| - 1 - n..] == suffix;
      } else {
        FitIsLongest(records[1..], limit, 0);
      }
    }
  }

  /** When the excluded key is the newest entry and fits on its own, the loop keeps the longest suffix that fits. */
  lemma {:induction false} EvictKeepsLongestFit(records: seq<StateRecord>, limit: int)
    requires UniqueKeys(records) && records != []
    requires |records[|records| - 1].payload| <= limit
    ensures Evict(records, records[|records| - 1].key, limit) == LongestFit(records, limit)
    ensures LongestFit(records, limit) != []
    ensures LongestFit(records, limit)[|LongestFit(records, limit)| - 1] == records[|records| - 1]
  {
    if |records| == 1 {
      assert records[1..] == [];
      assert Total(records) == |records[0].payload|;
    } else if Total(records) > limit {
      EvictKeepsLongestFit(records[1..], limit);
    }
  }

  // ---------- the store object ----------

  class MemoryStateStore {
    const maxBytes: int
    var records: seq<StateRecord>
    var bytes: int
    var evictions: nat

    ghost function State(): StoreState
      reads this
    {
      StoreState(maxBytes, records, bytes, evictions)
    }

    ghost predicate Valid()
      reads this
    {
      ValidStore(State())
    }

    constructor (maxBytes: int)
      requires maxBytes > 0
      ensures Valid() && State() == EmptyStore(maxBytes)
    {
      this.maxBytes := maxBytes;
      records := [];
      bytes, evictions := 0, 0;
    }

    /** The constructor call with its argument check. */
    static method Create(maxBytes: int) returns (store: Option<MemoryStateStore>, error: Option<StoreError>)
      ensures maxBytes <= 0 <==> error == Some(BadCapacity)
      ensures error == None <==> store.Some?
      ensures store.Some? ==> fresh(store.value) && store.value.Valid() && store.value.State() == EmptyStore(maxBytes)
    {
      if maxBytes <= 0 {
        return None, Some(BadCapacity);
      }
      var created := new MemoryStateStore(maxBytes);
      return Some(created), None;
    }

    method Get(key: Key) returns (record: Option<StateRecord>)
      requires Valid()
      modifies this
      ensures Valid() && (State(), record) == StoreGet(old(State()), key)
    {
      GetValid(State(), key);
      record := Lookup(records, key);
      if record.Some? {
        records := MoveToEnd(records, key);
      }
    }

    method Put(key: Key, payload: Bytes, metadata: Metadata, expectedVersion: Option<int>, now: int)
      returns (result: Result<StateRecord, StoreError>)
      requires Valid()
      modifies this
      ensures Valid()
      ensures State() == StorePutAny(old(State()), key, payload, metadata, expectedVersion, now).0
      ensures result == StorePutAny(old(State()), key, payload, metadata, expectedVersion, now).1
    {
      if key.Empty() {
        return Err(EmptyKey);
      }
      if |payload| > maxBytes {
        return Err(PayloadTooLarge);
      }
      var previous := Lookup(records, key);
      var previousVersion := if previous.Some? then previous.value.version else 0;
      if expectedVersion.Some? && previousVersion != expectedVersion.value {
        return Err(VersionConflict(expectedVersion.value, previousVersion));
      }
      ghost var before := State();
      if previous.Some? {
        bytes := bytes - |previous.value.payload|;
      }
      if metadata.NotADictionary? {
        BadPutValid(before, key, payload, expectedVersion, metadata.exception);
        return Err(BadMetadata(metadata.exception));
      }
      var record := StateRecord(key, previousVersion + 1, payload, metadata.fields, now);
      PutOk(before, record, expectedVersion);
      Install(record, before);
      return Ok(record);
    }

    /** The updates of a put once its record is built; the old payload is no longer counted. */
    method Install(record: StateRecord, ghost before: StoreState)
      requires ValidStore(before) && State() == before.(bytes := before.bytes - SizeOf(Lookup(before.records, record.key)))
      requires |record.payload| <= maxBytes && record.version >= 1 && !record.key.Empty()
      modifies this
      ensures Valid() && State() == Publish(before, record)
    {
      Appended(before, record);
      PublishValid(before, record);
      records := SetItem(records, record);
      records := MoveToEnd(records, record.key);
      bytes := bytes + |record.payload|;
      ghost var appended := State();
      assert Drift(appended) == Drift(before);
      EvictToLimit(record.key);
      Evicted(appended, State(), record.key);
    }

    method Delete(key: Key, expectedVersion: Option<int>) returns (result: Result<bool, StoreError>)
      requires Valid()
      modifies this
      ensures Valid() && (State(), result) == StoreDelete(old(State()), key, expectedVersion)
    {
      DeleteValid(State(), key, expectedVersion);
      var previous := Lookup(records, key);
      if previous == None {
        return Ok(false);
      }
      if expectedVersion.Some? && previous.value.version != expectedVersion.value {
        return Err(VersionConflict(expectedVersion.value, previous.value.version));
      }
      records := Without(records, key);
      bytes := bytes - |previous.value.payload|;
      return Ok(true);
    }

    /** The loop knows only the byte counter, so it enforces the bound up to the bytes the counter has lost sight of. */
    method EvictToLimit(exclude: Key)
      modifies this
      ensures records == Evict(old(records), exclude, Allowance(old(State())))
      ensures Drift(State()) == old(Drift(State()))
      ensures evictions - old(evictions) == |old(records)| - |records|
    {
      ghost var limit := Allowance(State());
      while bytes > maxBytes && records != []
        invariant Total(records) - bytes == limit - maxBytes
        invariant Evict(records, exclude, limit) == Evict(old(records), exclude, limit)
        invariant evictions - old(evictions) == |old(records)| - |records|
        decreases |records|
      {
        var oldest := records[0];
        if oldest.key == exclude && |records| == 1 {
          break;
        }
        if oldest.key == exclude {
          TotalAppend(records[1..], [oldest]);
          records := records[1..] + [oldest];
          oldest := records[0];
        }
        records := records[1..];
        bytes := bytes - |oldest.payload|;
        evictions := evictions + 1;
      }
    }
  }

  // ---------- every operation keeps the store valid ----------

  lemma MoveKeeps(records: seq<StateRecord>, key: Key)
    requires UniqueKeys(records)
    ensures Total(MoveToEnd(records, key)) == Total(records) && UniqueKeys(MoveToEnd(records, key))
    ensures forall r :: r in MoveToEnd(records, key) ==> r in records
  {
    WithoutTotal(records, key);
    var found := Lookup(records, key);
    if found.Some? {
      TotalAppend(Without(records, key), [found.value]);
      assert Total([found.value]) == |found.value.payload|;
    }
  }

  lemma GetValid(s: StoreState, key: Key)
    requires ValidStore(s)
    ensures ValidStore(StoreGet(s, key).0) && Drift(StoreGet(s, key).0) == Drift(s)
  {
    MoveKeeps(s.records, key);
  }

  /** What the assignments before the eviction loop amount to. */
  lemma {:induction false} Appended(s: StoreState, record: StateRecord)
    requires ValidStore(s) && |record.payload| <= s.maxBytes
    ensures var appended := Without(s.records, record.key) + [record];
      && MoveToEnd(SetItem(s.records, record), record.key) == appended
      && UniqueKeys(appended)
      && Total(appended) == |record.payload| + Total(s.records) - SizeOf(Lookup(s.records, record.key))
      && Evict(appended, record.key, Allowance(s)) == LongestFit(appended, Allowance(s))
  {
    var appended := Without(s.records, record.key) + [record];
    SetThenMove(s.records, record);
    WithoutTotal(s.records, record.key);
    TotalAppend(Without(s.records, record.key), [record]);
    assert UniqueKeys(appended) by {
      forall i | 0 <= i < |appended| - 1 ensures appended[i].key != record.key {
        assert appended[i] in Without(s.records, record.key);
      }
    }
    EvictKeepsLongestFit(appended, Allowance(s));
  }

  lemma PutOk(s: StoreState, record: StateRecord, expected: Option<int>)
    requires PutFault(s, record.key, record.payload, expected) == None
    requires record.version == VersionOf(s, record.key) + 1
    ensures StorePut(s, record.key, record.payload, record.metadata, expected, record.createdNs) == (Publish(s, record), Ok(record))
  {
  }

  lemma KeepValid(records: seq<StateRecord>, maxBytes: int, drift: nat, evictions: nat)
    requires maxBytes > 0 && UniqueKeys(records)
    requires forall r :: r in records ==> r.version >= 1 && !r.key.Empty()
    ensures ValidStore(Keep(records, maxBytes, drift, evictions)) && Drift(Keep(records, maxBytes, drift, evictions)) == drift
  {
    FitShrinks(records, maxBytes + drift);
    FitIsLongest(records, maxBytes + drift, 0);
  }

  /** What the eviction loop promises determines the state it leaves. */
  lemma Evicted(before: StoreState, after: StoreState, key: Key)
    requires before.records != [] && UniqueKeys(before.records) && before.records[|before.records| - 1].key == key
    requires after.maxBytes == before.maxBytes && Drift(after) == Drift(before)
    requires after.records == Evict(before.records, key, Allowance(before))
    requires after.evictions - before.evictions == |before.records| - |after.records|
    requires |before.records[|before.records| - 1].payload| <= Allowance(before)
    ensures after == Keep(before.records, before.maxBytes, Drift(before), before.evictions)
  {
    EvictKeepsLongestFit(before.records, Allowance(before));
  }

  lemma PublishValid(s: StoreState, record: StateRecord)
    requires ValidStore(s) && |record.payload| <= s.maxBytes && record.version >= 1 && !record.key.Empty()
    ensures ValidStore(Publish(s, record)) && Drift(Publish(s, record)) == Drift(s)
  {
    Appended(s, record);
    KeepValid(Without(s.records, record.key) + [record], s.maxBytes, Drift(s), s.evictions);
  }

  lemma PutValid(s: StoreState, key: Key, payload: Bytes, metadata: JsonObject, expected: Option<int>, now: int)
    requires ValidStore(s)
    ensures ValidStore(StorePut(s, key, payload, metadata, expected, now).0)
    ensures Drift(StorePut(s, key, payload, metadata, expected, now).0) == Drift(s)
  {
    if PutFault(s, key, payload, expected) == None {
      PublishValid(s, StateRecord(key, VersionOf(s, key) + 1, payload, metadata, now));
    }
  }

  lemma BadPutValid(s: StoreState, key: Key, payload: Bytes, expected: Option<int>, exception: PythonError)
    requires ValidStore(s)
    ensures ValidStore(StoreBadPut(s, key, payload, expected, exception).0)
    ensures Drift(StoreBadPut(s, key, payload, expected, exception).0) ==
            Drift(s) + if PutFault(s, key, payload, expected) == None then SizeOf(Lookup(s.records, key)) else 0
  {
  }

  lemma DeleteValid(s: StoreState, key: Key, expected: Option<int>)
    requires ValidStore(s)
    ensures ValidStore(StoreDelete(s, key, expected).0) && Drift(StoreDelete(s, key, expected).0) == Drift(s)
  {
    WithoutTotal(s.records, key);
  }
}
