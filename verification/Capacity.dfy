/** Capacity inclusion: on read-through traffic a larger store always contains a smaller one. */
module Capacity {
  import opened Wrappers
  import opened Json
  import opened Store
  import opened StoreTheorems

  /** A read-through access is a get, followed by a put when the get missed; a drop is an unconditional delete. */
  datatype Access =
    | Read(key: Key, payload: Bytes, metadata: JsonObject, now: int)
    | Drop(key: Key)

  function Apply(s: StoreState, a: Access): StoreState {
    match a
    case Read(key, payload, metadata, now) =>
      if Resident(s, key) then Step(s, Get(key)) else Step(s, Put(key, payload, metadata, None, now))
    case Drop(key) => Step(s, Delete(key, None))
  }

  function ApplyAll(s: StoreState, accesses: seq<Access>): StoreState {
    if accesses == [] then s else Apply(ApplyAll(s, accesses[..|accesses| - 1]), accesses[|accesses| - 1])
  }

  /** Payload sizes are a function of the key, and every payload fits the smaller store. */
  ghost predicate Sized(size: Key -> nat, limit: int, a: Access) {
    a.Read? ==> !a.key.Empty() && |a.payload| == size(a.key) <= limit
  }

  ghost predicate AllSized(size: Key -> nat, records: seq<StateRecord>) {
    forall r :: r in records ==> |r.payload| == size(r.key)
  }

  /** The keys of `a`, in recency order, are the most recent keys of `b`. */
  ghost predicate KeysSuffix(a: seq<StateRecord>, b: seq<StateRecord>) {
    |a| <= |b| && forall i :: 0 <= i < |a| ==> a[i].key == b[|b| - |a| + i].key
  }

  ghost predicate SameKeys(a: seq<StateRecord>, b: seq<StateRecord>) {
    |a| == |b| && forall i :: 0 <= i < |a| ==> a[i].key == b[i].key
  }

  lemma TailKeys(a: seq<StateRecord>, b: seq<StateRecord>)
    requires SameKeys(a, b) && a != []
    ensures SameKeys(a[1..], b[1..]) && a[0].key == b[0].key
  {
  }

  lemma {:induction false} SameKeysSameTotal(size: Key -> nat, a: seq<StateRecord>, b: seq<StateRecord>)
    requires SameKeys(a, b) && AllSized(size, a) && AllSized(size, b)
    ensures Total(a) == Total(b)
  {
    if a != [] {
      TailKeys(a, b);
      SameKeysSameTotal(size, a[1..], b[1..]);
      assert |a[0].payload| == size(a[0].key) && |b[0].payload| == size(b[0].key);
    }
  }

  lemma {:induction false} WithoutSuffix(a: seq<StateRecord>, b: seq<StateRecord>, key: Key)
    requires KeysSuffix(a, b)
    ensures KeysSuffix(Without(a, key), Without(b, key))
    decreases |b|
  {
    if |a| < |b| {
      assert KeysSuffix(a, b[1..]);
      WithoutSuffix(a, b[1..], key);
      ConsSuffix(Without(a, key), b[0], Without(b[1..], key));
    } else {
      SameKeysWithout(a, b, key);
    }
  }

  lemma ConsSuffix(a: seq<StateRecord>, r: StateRecord, b: seq<StateRecord>)
    requires KeysSuffix(a, b)
    ensures KeysSuffix(a, [r] + b)
  {
  }

  lemma {:induction false} SameKeysWithout(a: seq<StateRecord>, b: seq<StateRecord>, key: Key)
    requires SameKeys(a, b)
    ensures SameKeys(Without(a, key), Without(b, key))
  {
    if a != [] {
      TailKeys(a, b);
      SameKeysWithout(a[1..], b[1..], key);
      if a[0].key != key {
        ConsKeys(a[0], Without(a[1..], key), b[0], Without(b[1..], key));
      }
    }
  }

  lemma ConsKeys(x: StateRecord, a: seq<StateRecord>, y: StateRecord, b: seq<StateRecord>)
    requires SameKeys(a, b) && x.key == y.key
    ensures SameKeys([x] + a, [y] + b)
  {
  }

  lemma AppendSuffix(a: seq<StateRecord>, b: seq<StateRecord>, x: StateRecord, y: StateRecord)
    requires KeysSuffix(a, b) && x.key == y.key
    ensures KeysSuffix(a + [x], b + [y])
  {
  }

  /** The same most recent keys fit a larger limit too, so the larger store drops no more of them. */
  lemma {:induction false} FitSuffix(size: Key -> nat, a: seq<StateRecord>, b: seq<StateRecord>, small: int, large: int)
    requires 0 <= small <= large && KeysSuffix(a, b) && AllSized(size, a) && AllSized(size, b)
    ensures KeysSuffix(LongestFit(a, small), LongestFit(b, large))
  {
    FitShrinks(a, small);
    FitShrinks(b, large);
    var kept := LongestFit(a, small);
    var n := |kept|;
    var same := b[|b| - n..];
    SameKeysSameTotal(size, kept, same);
    FitIsLongest(a, small, 0);
    FitIsLongest(b, large, n);
  }

  lemma SuffixOfSuffix(a: seq<StateRecord>, all: seq<StateRecord>, b: seq<StateRecord>)
    requires IsSuffix(a, all) && KeysSuffix(all, b)
    ensures KeysSuffix(a, b)
  {
  }

  lemma ResidentSuffix(a: seq<StateRecord>, b: seq<StateRecord>, key: Key)
    requires KeysSuffix(a, b) && Lookup(a, key).Some?
    ensures Lookup(b, key).Some?
  {
  }

  lemma ApplyValid(size: Key -> nat, limit: int, s: StoreState, a: Access)
    requires ValidStore(s) && AllSized(size, s.records) && Sized(size, limit, a)
    ensures ValidStore(Apply(s, a)) && Apply(s, a).maxBytes == s.maxBytes && AllSized(size, Apply(s, a).records)
    ensures Drift(Apply(s, a)) == Drift(s)
  {
    var op := if a.Drop? then Delete(a.key, None)
      else if Resident(s, a.key) then Get(a.key) else Put(a.key, a.payload, a.metadata, None, a.now);
    StepValid(s, op);
    StepShape(s, op);
    if Touches(s, op, op.key) {
      assert forall r :: r in Step(s, op).records ==> r in Appendix(s.records, Newest(s, op));
    }
  }

  lemma ReadHitRecords(s: StoreState, a: Access)
    requires a.Read? && Resident(s, a.key)
    ensures Apply(s, a).records == Without(s.records, a.key) + [Lookup(s.records, a.key).value]
  {
  }

  /** A read that will miss and can be put. */
  predicate Misses(s: StoreState, a: Access) {
    a.Read? && !a.key.Empty() && |a.payload| <= s.maxBytes && !Resident(s, a.key)
  }

  function FirstRecord(a: Access): StateRecord
    requires a.Read?
  {
    StateRecord(a.key, 1, a.payload, a.metadata, a.now)
  }

  lemma ReadMissPuts(s: StoreState, a: Access) returns (put: Op)
    requires Misses(s, a)
    ensures PutSucceeds(s, put) && Apply(s, a) == Step(s, put) && Newest(s, put) == FirstRecord(a)
  {
    put := Put(a.key, a.payload, a.metadata, None, a.now);
  }

  lemma ReadMissRecords(s: StoreState, a: Access)
    requires Drift(s) == 0 && Misses(s, a)
    ensures Apply(s, a).records == LongestFit(Without(s.records, a.key) + [FirstRecord(a)], s.maxBytes)
  {
    var put := ReadMissPuts(s, a);
    PutShape(s, put);
  }

  lemma ReadMissSuffix(s: StoreState, a: Access)
    requires ValidStore(s) && Misses(s, a)
    ensures IsSuffix(Apply(s, a).records, Without(s.records, a.key) + [FirstRecord(a)])
  {
    var put := ReadMissPuts(s, a);
    PutSuffix(s, put);
  }

  /** One access keeps the smaller store's recency order a suffix of the larger store's. */
  lemma {:induction false} ApplyInclusion(size: Key -> nat, small: StoreState, large: StoreState, a: Access)
    requires ValidStore(small) && ValidStore(large) && small.maxBytes <= large.maxBytes && Drift(small) == 0 == Drift(large)
    requires AllSized(size, small.records) && AllSized(size, large.records)
    requires Sized(size, small.maxBytes, a) && KeysSuffix(small.records, large.records)
    ensures KeysSuffix(Apply(small, a).records, Apply(large, a).records)
  {
    var key := a.key;
    var s, l := Without(small.records, key), Without(large.records, key);
    WithoutSuffix(small.records, large.records, key);
    if a.Drop? {
      DropRecords(small, key);
      DropRecords(large, key);
    } else if Resident(small, key) {
      ResidentSuffix(small.records, large.records, key);
      ReadHitRecords(small, a);
      ReadHitRecords(large, a);
      AppendSuffix(s, l, Lookup(small.records, key).value, Lookup(large.records, key).value);
    } else if Resident(large, key) {
      ReadMissSuffix(small, a);
      ReadHitRecords(large, a);
      AppendSuffix(s, l, FirstRecord(a), Lookup(large.records, key).value);
      SuffixOfSuffix(Apply(small, a).records, s + [FirstRecord(a)], Apply(large, a).records);
    } else {
      ReadMissRecords(small, a);
      ReadMissRecords(large, a);
      AppendSuffix(s, l, FirstRecord(a), FirstRecord(a));
      FitSuffix(size, s + [FirstRecord(a)], l + [FirstRecord(a)], small.maxBytes, large.maxBytes);
    }
  }

  lemma DropRecords(s: StoreState, key: Key)
    ensures Apply(s, Drop(key)).records == Without(s.records, key)
  {
    if Lookup(s.records, key) == None { WithoutAbsent(s.records, key); }
  }

  /**
   After any read-through history the smaller store's recency order is a suffix of the
   larger store's, so every hit in the smaller store is a hit in the larger one.
   */
  lemma {:induction false} CapacityInclusion(size: Key -> nat, small: int, large: int, accesses: seq<Access>)
    requires 0 < small <= large
    requires forall a :: a in accesses ==> Sized(size, small, a)
    ensures var s, l := ApplyAll(EmptyStore(small), accesses), ApplyAll(EmptyStore(large), accesses);
      && ValidStore(s) && s.maxBytes == small && Drift(s) == 0 && AllSized(size, s.records)
      && ValidStore(l) && l.maxBytes == large && Drift(l) == 0 && AllSized(size, l.records)
      && KeysSuffix(s.records, l.records)
      && forall key :: Resident(s, key) ==> Resident(l, key)
  {
    if accesses != [] {
      var n := |accesses| - 1;
      CapacityInclusion(size, small, large, accesses[..n]);
      var s, l := ApplyAll(EmptyStore(small), accesses[..n]), ApplyAll(EmptyStore(large), accesses[..n]);
      ApplyInclusion(size, s, l, accesses[n]);
      ApplyValid(size, small, s, accesses[n]);
      ApplyValid(size, small, l, accesses[n]);
    }
    var s, l := ApplyAll(EmptyStore(small), accesses), ApplyAll(EmptyStore(large), accesses);
    forall key | Resident(s, key) ensures Resident(l, key) {
      ResidentSuffix(s.records, l.records, key);
    }
  }

  // ---------- why sizes must be fixed ----------

  function Fill(key: string, n: nat): Access {
    Read(Text(key), Zeros(n), map[], 0)
  }

  function Filled(key: string, n: nat): StateRecord {
    StateRecord(Text(key), 1, Zeros(n), map[], 0)
  }

  lemma TotalUpTo3(a: StateRecord, b: StateRecord, c: StateRecord)
    ensures Total([a]) == |a.payload|
    ensures Total([a, b]) == |a.payload| + |b.payload|
    ensures Total([a, b, c]) == |a.payload| + |b.payload| + |c.payload|
  {
    assert [a][1..] == [];
    assert [a, b][1..] == [b] && [b][1..] == [];
    assert [b, c][1..] == [c] && [c][1..] == [];
    assert Total([b, c]) == |b.payload| + Total([c]) == |b.payload| + |c.payload|;
    assert [a, b, c][1..] == [b, c];
  }

  /** A store with an exact byte counter. */
  predicate Holds(s: StoreState, maxBytes: int, records: seq<StateRecord>) {
    s.maxBytes == maxBytes && s.records == records && Drift(s) == 0
  }

  /** A missed read appends the record; here it drops at most the oldest entry. */
  lemma FillMiss(s: StoreState, key: string, n: nat)
    requires key != "" && n <= s.maxBytes && !Resident(s, Text(key)) && Drift(s) == 0
    ensures var all := s.records + [Filled(key, n)];
      && (Total(all) <= s.maxBytes ==> Holds(Apply(s, Fill(key, n)), s.maxBytes, all))
      && (Total(all) > s.maxBytes >= Total(all[1..]) ==> Holds(Apply(s, Fill(key, n)), s.maxBytes, all[1..]))
  {
    WithoutAbsent(s.records, Text(key));
    var record, all := Filled(key, n), s.records + [Filled(key, n)];
    PutOk(s, record, None);
    assert Apply(s, Fill(key, n)) == Keep(all, s.maxBytes, 0, s.evictions);
    FitOrDropFirst(all, s.maxBytes);
  }

  lemma FitOrDropFirst(records: seq<StateRecord>, limit: int)
    requires records != []
    ensures Total(records) <= limit ==> LongestFit(records, limit) == records
    ensures Total(records) > limit >= Total(records[1..]) ==> LongestFit(records, limit) == records[1..]
  {
  }

  lemma FirstFill(s: StoreState, key: string, n: nat)
    requires key != "" && Holds(s, s.maxBytes, []) && n <= s.maxBytes
    ensures Holds(Apply(s, Fill(key, n)), s.maxBytes, [Filled(key, n)])
  {
    TotalUpTo3(Filled(key, n), Filled(key, n), Filled(key, n));
    FillMiss(s, key, n);
    assert [] + [Filled(key, n)] == [Filled(key, n)];
  }

  lemma SecondFill(s: StoreState)
    requires Holds(s, s.maxBytes, [Filled("x", 3)]) && s.maxBytes >= 1
    ensures s.maxBytes == 3 ==> Holds(Apply(s, Fill("y", 1)), 3, [Filled("y", 1)])
    ensures s.maxBytes == 4 ==> Holds(Apply(s, Fill("y", 1)), 4, [Filled("x", 3), Filled("y", 1)])
  {
    var x, y := Filled("x", 3), Filled("y", 1);
    TotalUpTo3(x, y, y);
    TotalUpTo3(y, y, y);
    FillMiss(s, "y", 1);
    assert [x] + [y] == [x, y] && [x, y][1..] == [y];
  }

  lemma SmallRest(s: StoreState)
    requires Holds(s, 3, [Filled("y", 1)])
    ensures Resident(Apply(Apply(s, Fill("x", 1)), Fill("z", 1)), Text("y"))
  {
    var x, y, z := Filled("x", 1), Filled("y", 1), Filled("z", 1);
    TotalUpTo3(y, x, z);
    FillMiss(s, "x", 1);
    assert [y] + [x] == [y, x] && [y, x][1..] == [x];
    var s1 := Apply(s, Fill("x", 1));
    assert s1.records[1..] == [x] && [x][1..] == [];
    FillMiss(s1, "z", 1);
    assert [y, x] + [z] == [y, x, z];
    assert Apply(s1, Fill("z", 1)).records[0] == y;
  }

  lemma LargeHit(s: StoreState)
    requires Holds(s, 4, [Filled("x", 3), Filled("y", 1)])
    ensures Holds(Apply(s, Fill("x", 1)), 4, [Filled("y", 1), Filled("x", 3)])
  {
    var x, y := Filled("x", 3), Filled("y", 1);
    assert Without([y], Text("x")) == [y];
    assert s.records[1..] == [y];
    ReadHitRecords(s, Fill("x", 1));
    TotalUpTo3(x, y, y);
    TotalUpTo3(y, x, x);
  }

  lemma LargeEviction(s: StoreState)
    requires Holds(s, 4, [Filled("y", 1), Filled("x", 3)])
    ensures !Resident(Apply(s, Fill("z", 1)), Text("y"))
  {
    var x, y, z := Filled("x", 3), Filled("y", 1), Filled("z", 1);
    TotalUpTo3(y, x, z);
    TotalUpTo3(x, z, z);
    assert s.records[0] == y && s.records[1..] == [x] && [x][1..] == [];
    FillMiss(s, "z", 1);
    assert [y, x] + [z] == [y, x, z] && [y, x, z][1..] == [x, z];
    assert Apply(s, Fill("z", 1)).records == [x, z];
    assert Text("y") !in KeysOf([x, z]);
  }

  const FOUR_READS := [Fill("x", 3), Fill("y", 1), Fill("x", 1), Fill("z", 1)]

  /** In the three-byte store x is evicted and comes back smaller. */
  lemma SmallRun(s: StoreState)
    requires s == EmptyStore(3)
    ensures Resident(ApplyAll(s, FOUR_READS), Text("y"))
  {
    FourReads(s);
    FirstFill(s, "x", 3);
    SecondFill(Apply(s, Fill("x", 3)));
    SmallRest(Apply(Apply(s, Fill("x", 3)), Fill("y", 1)));
  }

  /** In the four-byte store x never leaves, and y is evicted for it. */
  lemma LargeRun(s: StoreState)
    requires s == EmptyStore(4)
    ensures !Resident(ApplyAll(s, FOUR_READS), Text("y"))
  {
    FourReads(s);
    FirstFill(s, "x", 3);
    SecondFill(Apply(s, Fill("x", 3)));
    var s2 := Apply(Apply(s, Fill("x", 3)), Fill("y", 1));
    LargeHit(s2);
    LargeEviction(Apply(s2, Fill("x", 1)));
  }

  /**
   The inclusion fails when a key's payload may come back with another size: after these
   four reads the three-byte store holds y and the four-byte store does not.
   */
  lemma InclusionNeedsFixedSizes()
    ensures forall a :: a in FOUR_READS ==> a.Read? && !a.key.Empty() && |a.payload| <= 3
    ensures Resident(ApplyAll(EmptyStore(3), FOUR_READS), Text("y"))
    ensures !Resident(ApplyAll(EmptyStore(4), FOUR_READS), Text("y"))
  {
    SmallRun(EmptyStore(3));
    LargeRun(EmptyStore(4));
  }

  lemma FourReads(s: StoreState)
    ensures ApplyAll(s, FOUR_READS) ==
            Apply(Apply(Apply(Apply(s, Fill("x", 3)), Fill("y", 1)), Fill("x", 1)), Fill("z", 1))
  {
    var a, b, c, d := Fill("x", 3), Fill("y", 1), Fill("x", 1), Fill("z", 1);
    assert [a, b, c, d][..3] == [a, b, c] && [a, b, c][..2] == [a, b] && [a, b][..1] == [a] && [a][..0] == [];
    assert FOUR_READS == [a, b, c, d];
    assert ApplyAll(s, [a]) == Apply(s, a);
    assert ApplyAll(s, [a, b]) == Apply(ApplyAll(s, [a]), b);
    assert ApplyAll(s, [a, b, c]) == Apply(ApplyAll(s, [a, b]), c);
  }
}
