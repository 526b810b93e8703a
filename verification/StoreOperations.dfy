/** What each store operation returns and leaves behind, read off the list of resident records. */
module StoreOperations {
  import opened Wrappers
  import opened Json
  import opened Store
  import opened StoreTheorems

  ghost predicate Absent(records: seq<StateRecord>, key: Key) {
    forall i :: 0 <= i < |records| ==> records[i].key != key
  }

  /** The records without the one at position i, in the same order. */
  function Dropped(records: seq<StateRecord>, i: nat): seq<StateRecord>
    requires i < |records|
  {
    records[..i] + records[i + 1..]
  }

  lemma {:induction false} AbsentLookup(records: seq<StateRecord>, key: Key)
    requires Absent(records, key)
    ensures Lookup(records, key) == None
  {
    if records != [] {
      AbsentLookup(records[1..], key);
    }
  }

  lemma {:induction false} LookupAt(records: seq<StateRecord>, i: nat)
    requires UniqueKeys(records) && i < |records|
    ensures Lookup(records, records[i].key) == Some(records[i])
  {
    LookupMember(records, records[i]);
  }

  lemma {:induction false} WithoutAppend(a: seq<StateRecord>, b: seq<StateRecord>, key: Key)
    ensures Without(a + b, key) == Without(a, key) + Without(b, key)
  {
    if a == [] {
      assert a + b == b;
    } else {
      assert (a + b)[1..] == a[1..] + b;
      WithoutAppend(a[1..], b, key);
    }
  }

  lemma WithoutMiddle(a: seq<StateRecord>, r: StateRecord, b: seq<StateRecord>)
    requires Absent(a, r.key) && Absent(b, r.key)
    ensures Without(a + ([r] + b), r.key) == a + b
  {
    WithoutAppend(a, [r] + b, r.key);
    WithoutAppend([r], b, r.key);
    AbsentLookup(a, r.key);
    AbsentLookup(b, r.key);
    WithoutAbsent(a, r.key);
    WithoutAbsent(b, r.key);
    assert Without([r], r.key) == [];
  }

  lemma SplitAt<T>(s: seq<T>, i: nat)
    requires i < |s|
    ensures s == s[..i] + ([s[i]] + s[i + 1..])
  {
  }

  lemma AbsentAround(records: seq<StateRecord>, i: nat)
    requires UniqueKeys(records) && i < |records|
    ensures Absent(records[..i], records[i].key) && Absent(records[i + 1..], records[i].key)
  {
    var b := records[i + 1..];
    forall j | 0 <= j < |b| ensures b[j].key != records[i].key {
      assert b[j] == records[i + 1 + j];
    }
  }

  lemma WithoutAt(records: seq<StateRecord>, i: nat)
    requires UniqueKeys(records) && i < |records|
    ensures Without(records, records[i].key) == Dropped(records, i)
  {
    SplitAt(records, i);
    AbsentAround(records, i);
    WithoutMiddle(records[..i], records[i], records[i + 1..]);
  }

  /** The store's record of the key, if there is one. */
  ghost predicate Shared(s: StoreState, key: Key, found: Option<StateRecord>) {
    match found
    case Some(record) => record in s.records && record.key == key
    case None => Absent(s.records, key)
  }

  lemma SharedLookup(s: StoreState, key: Key, found: Option<StateRecord>)
    requires ValidStore(s) && Shared(s, key, found)
    ensures Lookup(s.records, key) == found
  {
    match found
    case Some(record) => LookupMember(s.records, record);
    case None => AbsentLookup(s.records, key);
  }

  // ---------- get ----------

  /** A get returns the resident record, whole, and makes it the newest entry; or it finds nothing and changes nothing. */
  lemma GetExactly(s: StoreState, key: Key)
    requires ValidStore(s)
    ensures StoreGet(s, key).1 == None <==> Absent(s.records, key)
    ensures Absent(s.records, key) ==> StoreGet(s, key).0 == s
    ensures forall i :: 0 <= i < |s.records| && s.records[i].key == key ==>
      StoreGet(s, key) == (s.(records := Dropped(s.records, i) + [s.records[i]]), Some(s.records[i]))
  {
    if Absent(s.records, key) {
      AbsentLookup(s.records, key);
    }
    forall i | 0 <= i < |s.records| && s.records[i].key == key
      ensures StoreGet(s, key) == (s.(records := Dropped(s.records, i) + [s.records[i]]), Some(s.records[i]))
    {
      LookupAt(s.records, i);
      WithoutAt(s.records, i);
    }
  }

  // ---------- delete ----------

  /**
   A delete of an absent key reports that and changes nothing.  Of a resident key it succeeds
   if and only if no version or the stored one is expected, and then exactly that record and
   its bytes are gone; otherwise it reports both versions and changes nothing.
   */
  lemma DeleteExactly(s: StoreState, key: Key, expected: Option<int>)
    requires ValidStore(s)
    ensures StoreDelete(s, key, expected).1 == Ok(false) <==> Absent(s.records, key)
    ensures Absent(s.records, key) ==> StoreDelete(s, key, expected).0 == s
    ensures forall i :: 0 <= i < |s.records| && s.records[i].key == key ==>
      var record := s.records[i];
      && (StoreDelete(s, key, expected).1 == Ok(true) <==> expected == None || expected == Some(record.version))
      && (expected == None || expected == Some(record.version) ==>
            StoreDelete(s, key, expected).0 == s.(records := Dropped(s.records, i), bytes := s.bytes - |record.payload|))
      && (expected.Some? && expected.value != record.version ==>
            StoreDelete(s, key, expected) == (s, Err(VersionConflict(expected.value, record.version))))
  {
    if Absent(s.records, key) {
      AbsentLookup(s.records, key);
    }
    forall i | 0 <= i < |s.records| && s.records[i].key == key
      ensures Lookup(s.records, key) == Some(s.records[i]) && Without(s.records, key) == Dropped(s.records, i)
    {
      LookupAt(s.records, i);
      WithoutAt(s.records, i);
    }
  }

  // ---------- put ----------

  /** The stored version of a key: that of its record, 0 without one. */
  ghost predicate StoredVersion(s: StoreState, key: Key, version: int) {
    || (version == 0 && Absent(s.records, key))
    || exists i :: 0 <= i < |s.records| && s.records[i].key == key && s.records[i].version == version
  }

  lemma StoredVersionIs(s: StoreState, key: Key, version: int)
    requires ValidStore(s) && StoredVersion(s, key, version)
    ensures VersionOf(s, key) == version
  {
    if Absent(s.records, key) {
      AbsentLookup(s.records, key);
    } else {
      var i :| 0 <= i < |s.records| && s.records[i].key == key && s.records[i].version == version;
      LookupAt(s.records, i);
    }
  }

  /** Every key has exactly one stored version. */
  lemma StoredVersionUnique(s: StoreState, key: Key) returns (version: int)
    requires ValidStore(s)
    ensures forall v :: StoredVersion(s, key, v) <==> v == version
  {
    version := VersionOf(s, key);
    if !Absent(s.records, key) {
      var i :| 0 <= i < |s.records| && s.records[i].key == key;
      LookupAt(s.records, i);
      assert StoredVersion(s, key, s.records[i].version);
    } else {
      AbsentLookup(s.records, key);
    }
    forall v ensures StoredVersion(s, key, v) <==> v == version {
      if StoredVersion(s, key, v) { StoredVersionIs(s, key, v); }
    }
  }

  /** What replacing a key leaves of the others. */
  lemma ReplacedKey(records: seq<StateRecord>, key: Key)
    requires UniqueKeys(records)
    ensures Absent(records, key) ==> Lookup(records, key) == None && Without(records, key) == records
    ensures forall i :: 0 <= i < |records| && records[i].key == key ==>
      Lookup(records, key) == Some(records[i]) && Without(records, key) == Dropped(records, i)
  {
    if Absent(records, key) {
      AbsentLookup(records, key);
      WithoutAbsent(records, key);
    }
    forall i | 0 <= i < |records| && records[i].key == key
      ensures Lookup(records, key) == Some(records[i]) && Without(records, key) == Dropped(records, i)
    {
      LookupAt(records, i);
      WithoutAt(records, i);
    }
  }

  lemma PutStored(s: StoreState, op: Op)
    requires ValidStore(s) && PutSucceeds(s, op)
    ensures var record := StateRecord(op.key, VersionOf(s, op.key) + 1, op.payload, op.metadata, op.now);
      var (s', result) := StorePutAny(s, op.key, op.payload, Dictionary(op.metadata), op.expected, op.now);
      && result == Ok(record) && s'.records != [] && s'.records[|s'.records| - 1] == record
      && IsSuffix(s'.records, Without(s.records, op.key) + [record])
  {
    PutSuffix(s, op);
    assert Step(s, op) == StorePutAny(s, op.key, op.payload, Dictionary(op.metadata), op.expected, op.now).0;
    assert Appendix(s.records, Newest(s, op)) == Without(s.records, op.key) + [Newest(s, op)];
  }

  /**
   The checks of a put in their order, for any metadata: the key, the payload's size, the
   expected version.  A put they reject changes nothing.
   */
  lemma PutRefusals(s: StoreState, key: Key, payload: Bytes, metadata: Metadata, expected: Option<int>, now: int, stored: int)
    requires ValidStore(s) && StoredVersion(s, key, stored)
    ensures var outcome := StorePutAny(s, key, payload, metadata, expected, now);
      && (key == Text("") ==> outcome == (s, Err(EmptyKey)))
      && (key != Text("") && |payload| > s.maxBytes ==> outcome == (s, Err(PayloadTooLarge)))
      && (key != Text("") && |payload| <= s.maxBytes && expected.Some? && expected.value != stored ==>
            outcome == (s, Err(VersionConflict(expected.value, stored))))
  {
    StoredVersionIs(s, key, stored);
  }

  /** The put passes the three checks. */
  ghost predicate Passes(s: StoreState, key: Key, payload: Bytes, expected: Option<int>, stored: int) {
    key != Text("") && |payload| <= s.maxBytes && (expected == None || expected == Some(stored))
  }

  /** The records are kept as a suffix of the resident ones without the key, followed by the new one. */
  ghost predicate Replaced(before: seq<StateRecord>, after: seq<StateRecord>, record: StateRecord) {
    && after != [] && after[|after| - 1] == record
    && (Absent(before, record.key) ==> IsSuffix(after, before + [record]))
    && (forall i :: 0 <= i < |before| && before[i].key == record.key ==> IsSuffix(after, Dropped(before, i) + [record]))
  }

  lemma StoredReplaced(before: seq<StateRecord>, after: seq<StateRecord>, record: StateRecord)
    requires UniqueKeys(before) && after != [] && after[|after| - 1] == record
    requires IsSuffix(after, Without(before, record.key) + [record])
    ensures Replaced(before, after, record)
  {
    ReplacedKey(before, record.key);
  }

  lemma PassingPut(s: StoreState, key: Key, payload: Bytes, fields: JsonObject, expected: Option<int>, now: int, stored: int)
    returns (op: Op)
    requires ValidStore(s) && StoredVersion(s, key, stored) && Passes(s, key, payload, expected, stored)
    ensures op == Put(key, payload, fields, expected, now) && PutSucceeds(s, op) && VersionOf(s, key) == stored
  {
    StoredVersionIs(s, key, stored);
    op := Put(key, payload, fields, expected, now);
  }

  /** Past the checks, and only then, a dictionary is stored as the next version of its key, as the newest entry. */
  lemma PutExactly(s: StoreState, key: Key, payload: Bytes, fields: JsonObject, expected: Option<int>, now: int, stored: int)
    requires ValidStore(s) && StoredVersion(s, key, stored)
    ensures var (s', result) := StorePutAny(s, key, payload, Dictionary(fields), expected, now);
      var record := StateRecord(key, stored + 1, payload, fields, now);
      && (result.Ok? <==> Passes(s, key, payload, expected, stored))
      && (result.Ok? ==> result == Ok(record) && Replaced(s.records, s'.records, record))
  {
    if Passes(s, key, payload, expected, stored) {
      var op := PassingPut(s, key, payload, fields, expected, now, stored);
      PutStored(s, op);
      StoredReplaced(s.records, StorePutAny(s, key, payload, Dictionary(fields), expected, now).0.records,
                     StateRecord(key, stored + 1, payload, fields, now));
    } else {
      PutRefusals(s, key, payload, Dictionary(fields), expected, now, stored);
    }
  }

  /** Past the checks any other metadata fails, keeps the records, and loses the bytes of the one it was to replace. */
  lemma BadPutExactly(s: StoreState, key: Key, payload: Bytes, exception: PythonError, expected: Option<int>, now: int, stored: int)
    requires ValidStore(s) && StoredVersion(s, key, stored) && Passes(s, key, payload, expected, stored)
    ensures var (s', result) := StorePutAny(s, key, payload, NotADictionary(exception), expected, now);
      && result == Err(BadMetadata(exception))
      && (Absent(s.records, key) ==> s' == s)
      && (forall i :: 0 <= i < |s.records| && s.records[i].key == key ==>
            s' == s.(bytes := s.bytes - |s.records[i].payload|))
  {
    StoredVersionIs(s, key, stored);
    ReplacedKey(s.records, key);
  }

  // ---------- the eviction loop, for any excluded key ----------

  /** With no entry to spare, the loop keeps the longest suffix that fits. */
  lemma {:induction false} EvictWithoutExcluded(records: seq<StateRecord>, exclude: Key, limit: int)
    requires Absent(records, exclude)
    ensures Evict(records, exclude, limit) == LongestFit(records, limit)
    decreases |records|
  {
    if records != [] && Total(records) > limit {
      EvictWithoutExcluded(records[1..], exclude, limit);
    }
  }

  lemma MiddleTotal(a: seq<StateRecord>, r: StateRecord, b: seq<StateRecord>)
    ensures Total(a + ([r] + b)) == Total(a + b) + |r.payload|
  {
    TotalAppend(a, [r] + b);
    TotalAppend([r], b);
    TotalAppend(a, b);
    assert Total([r]) == |r.payload|;
  }

  lemma EvictDrops(records: seq<StateRecord>, exclude: Key, limit: int)
    requires records != [] && Total(records) > limit && records[0].key != exclude
    ensures Evict(records, exclude, limit) == Evict(records[1..], exclude, limit)
  {
  }

  /** An excluded entry that has become the oldest goes to the end, and the next oldest is evicted in its place. */
  lemma EvictRotates(spared: StateRecord, b: seq<StateRecord>, limit: int)
    requires b != [] && Total([spared] + b) > limit
    ensures Evict([spared] + b, spared.key, limit) == Evict(b[1..] + [spared], spared.key, limit)
  {
    var all := [spared] + b;
    assert all[1..] == b;
    assert (b + [spared])[1..] == b[1..] + [spared];
  }

  lemma TailOf<T>(a: seq<T>, b: seq<T>)
    requires a != []
    ensures (a + b)[0] == a[0] && (a + b)[1..] == a[1..] + b
  {
  }

  lemma EvictSparesFirst(spared: StateRecord, b: seq<StateRecord>, limit: int)
    requires Absent(b, spared.key) && Total([spared] + b) > limit
    requires b != [] ==>
      var kept := Evict(b[1..] + ([spared] + []), spared.key, limit);
      spared in kept && Without(kept, spared.key) == LongestFit(b[1..] + [], limit - |spared.payload|)
    ensures var kept := Evict([spared] + b, spared.key, limit);
      spared in kept && Without(kept, spared.key) == LongestFit(b, limit - |spared.payload|)
  {
    MiddleTotal([], spared, b);
    assert [] + ([spared] + b) == [spared] + b && [] + b == b;
    if b == [] {
      assert [spared] + b == [spared];
      WithoutMiddle([], spared, []);
      assert [] + ([spared] + []) == [spared];
    } else {
      EvictRotates(spared, b, limit);
      assert [spared] + [] == [spared] && b[1..] + [] == b[1..];
    }
  }

  /**
   The excluded entry is never evicted, wherever it stands; of the others exactly the longest
   suffix stays that fits beside it.
   */
  lemma {:induction false} EvictSparesExcluded(a: seq<StateRecord>, spared: StateRecord, b: seq<StateRecord>, limit: int)
    requires Absent(a, spared.key) && Absent(b, spared.key)
    ensures var kept := Evict(a + ([spared] + b), spared.key, limit);
      && spared in kept
      && Without(kept, spared.key) == LongestFit(a + b, limit - |spared.payload|)
    decreases |a| + |b|
  {
    var all := a + ([spared] + b);
    MiddleTotal(a, spared, b);
    if Total(all) <= limit {
      WithoutMiddle(a, spared, b);
    } else if a != [] {
      TailOf(a, [spared] + b);
      TailOf(a, b);
      EvictDrops(all, spared.key, limit);
      EvictSparesExcluded(a[1..], spared, b, limit);
    } else {
      assert all == [spared] + b && a + b == b;
      if b != [] {
        EvictSparesExcluded(b[1..], spared, [], limit);
      }
      EvictSparesFirst(spared, b, limit);
    }
  }
}
