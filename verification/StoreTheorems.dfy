/** Histories of the store: eviction, recency and versions over whole runs of operations. */
module StoreTheorems {
  import opened Wrappers
  import opened Json
  import opened Store

  datatype Op =
    | Get(key: Key)
    | Put(key: Key, payload: Bytes, metadata: JsonObject, expected: Option<int>, now: int)
    | BadPut(key: Key, payload: Bytes, expected: Option<int>, exception: PythonError)
    | Delete(key: Key, expected: Option<int>)

  function Step(s: StoreState, op: Op): StoreState {
    match op
    case Get(key) => StoreGet(s, key).0
    case Put(key, payload, metadata, expected, now) => StorePut(s, key, payload, metadata, expected, now).0
    case BadPut(key, payload, expected, exception) => StoreBadPut(s, key, payload, expected, exception).0
    case Delete(key, expected) => StoreDelete(s, key, expected).0
  }

  function Run(s: StoreState, ops: seq<Op>): StoreState {
    if ops == [] then s else Step(Run(s, ops[..|ops| - 1]), ops[|ops| - 1])
  }

  lemma RunNext(s: StoreState, ops: seq<Op>, i: nat)
    requires i < |ops|
    ensures Run(s, ops[..i + 1]) == Step(Run(s, ops[..i]), ops[i])
  {
    assert ops[..i + 1][..i] == ops[..i];
  }

  lemma RunAppend(s: StoreState, ops: seq<Op>, op: Op)
    ensures Run(s, ops + [op]) == Step(Run(s, ops), op)
  {
    assert (ops + [op])[..|ops|] == ops;
  }

  predicate Resident(s: StoreState, key: Key) {
    Lookup(s.records, key).Some?
  }

  predicate PutSucceeds(s: StoreState, op: Op) {
    op.Put? && PutFault(s, op.key, op.payload, op.expected) == None
  }

  // ---------- the dictionary, by membership ----------

  lemma {:induction false} LookupMember(records: seq<StateRecord>, r: StateRecord)
    requires UniqueKeys(records)
    ensures Lookup(records, r.key) == Some(r) <==> r in records
  {
  }

  // ---------- the byte counter ----------

  /** The bytes one operation makes the counter lose: a put that fails on its metadata forgets the payload it was to replace. */
  function Forgets(s: StoreState, op: Op): nat {
    if op.BadPut? && PutFault(s, op.key, op.payload, op.expected) == None then SizeOf(Lookup(s.records, op.key)) else 0
  }

  function Forgotten(s: StoreState, ops: seq<Op>): nat {
    if ops == [] then 0
    else
      var n := |ops| - 1;
      Forgotten(s, ops[..n]) + Forgets(Run(s, ops[..n]), ops[n])
  }

  lemma StepValid(s: StoreState, op: Op)
    requires ValidStore(s)
    ensures ValidStore(Step(s, op)) && Step(s, op).maxBytes == s.maxBytes
    ensures Drift(Step(s, op)) == Drift(s) + Forgets(s, op)
  {
    match op
    case Get(key) => GetValid(s, key);
    case Put(key, payload, metadata, expected, now) => PutValid(s, key, payload, metadata, expected, now);
    case BadPut(key, payload, expected, exception) => BadPutValid(s, key, payload, expected, exception);
    case Delete(key, expected) => DeleteValid(s, key, expected);
  }

  /** Every history keeps the store valid, and the counter misses exactly the bytes its failed puts forgot. */
  lemma {:induction false} RunValid(s: StoreState, ops: seq<Op>)
    requires ValidStore(s)
    ensures ValidStore(Run(s, ops)) && Run(s, ops).maxBytes == s.maxBytes
    ensures Drift(Run(s, ops)) == Drift(s) + Forgotten(s, ops)
  {
    if ops != [] {
      RunValid(s, ops[..|ops| - 1]);
      StepValid(Run(s, ops[..|ops| - 1]), ops[|ops| - 1]);
    }
  }

  /** No put of the history failed on its metadata while a nonempty payload was resident under its key. */
  ghost predicate NothingForgotten(s: StoreState, ops: seq<Op>)
    decreases |ops|
  {
    ops == [] ||
    (NothingForgotten(s, ops[..|ops| - 1]) && Forgets(Run(s, ops[..|ops| - 1]), ops[|ops| - 1]) == 0)
  }

  lemma {:induction false} ForgottenZero(s: StoreState, ops: seq<Op>)
    ensures Forgotten(s, ops) == 0 <==> NothingForgotten(s, ops)
  {
    if ops != [] {
      ForgottenZero(s, ops[..|ops| - 1]);
    }
  }

  /**
   The byte counter is the sum of the resident payloads if and only if no put failed on its
   metadata while a nonempty payload was resident under its key; it is never above the bound,
   and the resident payloads exceed it by exactly what such puts forgot.
   */
  lemma {:induction false} CounterExactly(maxBytes: int, ops: seq<Op>)
    requires maxBytes > 0
    ensures var s := Run(EmptyStore(maxBytes), ops);
      && s.bytes <= s.maxBytes == maxBytes
      && Total(s.records) == s.bytes + Forgotten(EmptyStore(maxBytes), ops)
      && (s.bytes == Total(s.records) <==> NothingForgotten(EmptyStore(maxBytes), ops))
  {
    RunValid(EmptyStore(maxBytes), ops);
    ForgottenZero(EmptyStore(maxBytes), ops);
  }

  /** A caller who only puts dictionaries keeps the counter exact and the resident payloads within the bound. */
  lemma {:induction false} DictionariesKeepExact(maxBytes: int, ops: seq<Op>)
    requires maxBytes > 0 && forall op :: op in ops ==> !op.BadPut?
    ensures var s := Run(EmptyStore(maxBytes), ops); s.bytes == Total(s.records) <= maxBytes
  {
    CounterExactly(maxBytes, ops);
    DictionariesForgetNothing(EmptyStore(maxBytes), ops);
  }

  lemma {:induction false} DictionariesForgetNothing(s: StoreState, ops: seq<Op>)
    requires forall op :: op in ops ==> !op.BadPut?
    ensures NothingForgotten(s, ops)
  {
    if ops != [] {
      var before := ops[..|ops| - 1];
      assert forall op :: op in before ==> op in ops;
      DictionariesForgetNothing(s, before);
      assert ops[|ops| - 1] in ops;
    }
  }

  function Zeros(n: nat): Bytes {
    seq(n, _ => 0)
  }

  /** A put, then the same failing put again and again. */
  function Failures(key: Key, n: nat, times: nat): seq<Op> {
    if times == 0 then [Put(key, Zeros(n), map[], None, 0)]
    else Failures(key, n, times - 1) + [BadPut(key, [], None, TypeError)]
  }

  lemma FirstPut(maxBytes: int, key: Key, n: nat)
    requires 0 < n <= maxBytes && !key.Empty()
    ensures Step(EmptyStore(maxBytes), Put(key, Zeros(n), map[], None, 0)) ==
            StoreState(maxBytes, [StateRecord(key, 1, Zeros(n), map[], 0)], n, 0)
  {
    var record := StateRecord(key, 1, Zeros(n), map[], 0);
    assert [record][1..] == [];
    assert Total([record]) == n;
    assert [] + [record] == [record];
  }

  lemma FailureAgain(s: StoreState, record: StateRecord)
    requires s.records == [record] && !record.key.Empty() && s.maxBytes > 0
    ensures Step(s, BadPut(record.key, [], None, TypeError)) == s.(bytes := s.bytes - |record.payload|)
  {
  }

  lemma NoFailure(maxBytes: int, key: Key, n: nat)
    requires 0 < n <= maxBytes && !key.Empty()
    ensures Run(EmptyStore(maxBytes), Failures(key, n, 0)) ==
            StoreState(maxBytes, [StateRecord(key, 1, Zeros(n), map[], 0)], n, 0)
  {
    var put := Put(key, Zeros(n), map[], None, 0);
    FirstPut(maxBytes, key, n);
    RunAppend(EmptyStore(maxBytes), [], put);
    assert [] + [put] == [put];
  }

  lemma FailureStep(s: StoreState, ops: seq<Op>, record: StateRecord, maxBytes: int, bytes: int)
    requires !record.key.Empty() && maxBytes > 0
    requires Run(s, ops) == StoreState(maxBytes, [record], bytes, 0)
    ensures Run(s, ops + [BadPut(record.key, [], None, TypeError)]) == StoreState(maxBytes, [record], bytes - |record.payload|, 0)
  {
    RunAppend(s, ops, BadPut(record.key, [], None, TypeError));
    FailureAgain(Run(s, ops), record);
  }

  function Repeated(n: nat, times: nat): nat {
    if times == 0 then 0 else Repeated(n, times - 1) + n
  }

  lemma {:induction false} RepeatedIs(n: nat, times: nat)
    ensures Repeated(n, times) == times * n
  {
    if times > 0 {
      RepeatedIs(n, times - 1);
      assert times * n == (times - 1) * n + n;
    }
  }

  /** After these failures the record is still there, and the counter has this value. */
  ghost predicate Leaves(maxBytes: int, key: Key, n: nat, times: nat, bytes: int) {
    Run(EmptyStore(maxBytes), Failures(key, n, times)) ==
    StoreState(maxBytes, [StateRecord(key, 1, Zeros(n), map[], 0)], bytes, 0)
  }

  lemma FailOnceMore(maxBytes: int, key: Key, n: nat, times: nat, bytes: int)
    requires 0 < n <= maxBytes && !key.Empty() && Leaves(maxBytes, key, n, times, bytes)
    ensures Leaves(maxBytes, key, n, times + 1, bytes - n)
  {
    FailureStep(EmptyStore(maxBytes), Failures(key, n, times), StateRecord(key, 1, Zeros(n), map[], 0), maxBytes, bytes);
  }

  lemma {:induction false} FailuresLose(maxBytes: int, key: Key, n: nat, times: nat)
    requires 0 < n <= maxBytes && !key.Empty()
    ensures Leaves(maxBytes, key, n, times, n - Repeated(n, times))
  {
    if times == 0 {
      NoFailure(maxBytes, key, n);
    } else {
      FailuresLose(maxBytes, key, n, times - 1);
      FailOnceMore(maxBytes, key, n, times - 1, n - Repeated(n, times - 1));
    }
  }

  /** The failing put can be repeated: each time the counter loses the same payload once more, without limit. */
  lemma {:induction false} FailuresForget(maxBytes: int, key: Key, n: nat, times: nat)
    requires 0 < n <= maxBytes && !key.Empty()
    ensures Run(EmptyStore(maxBytes), Failures(key, n, times)) ==
            StoreState(maxBytes, [StateRecord(key, 1, Zeros(n), map[], 0)], n - times * n, 0)
  {
    FailuresLose(maxBytes, key, n, times);
    RepeatedIs(n, times);
  }

  /** One failing put is enough for twice the bound to stay resident. */
  lemma BoundExceeded(maxBytes: int, key: Key, other: Key)
    requires maxBytes > 0 && !key.Empty() && !other.Empty() && key != other
    ensures var s := Run(EmptyStore(maxBytes), Failures(key, maxBytes, 1) + [Put(other, Zeros(maxBytes), map[], None, 0)]);
      Total(s.records) == 2 * maxBytes && s.bytes == maxBytes
  {
    var ops := Failures(key, maxBytes, 1) + [Put(other, Zeros(maxBytes), map[], None, 0)];
    var a, b := StateRecord(key, 1, Zeros(maxBytes), map[], 0), StateRecord(other, 1, Zeros(maxBytes), map[], 0);
    FailuresForget(maxBytes, key, maxBytes, 1);
    assert ops[..|ops| - 1] == Failures(key, maxBytes, 1);
    TwoTotal(a, b);
    SecondPut(Run(EmptyStore(maxBytes), Failures(key, maxBytes, 1)), a, b);
  }

  lemma TwoTotal(a: StateRecord, b: StateRecord)
    ensures Total([a]) == |a.payload| && Total([a, b]) == |a.payload| + |b.payload|
  {
    assert [a][1..] == [] && [b][1..] == [] && [a, b][1..] == [b];
    assert Total([b]) == |b.payload|;
  }

  lemma SecondPut(s: StoreState, a: StateRecord, b: StateRecord)
    requires s == StoreState(s.maxBytes, [a], 0, 0) && |a.payload| == |b.payload| == s.maxBytes
    requires a.key != b.key && !b.key.Empty() && b == StateRecord(b.key, 1, b.payload, map[], 0)
    requires Total([a]) == |a.payload| && Total([a, b]) == |a.payload| + |b.payload|
    ensures Step(s, Put(b.key, b.payload, map[], None, 0)) == StoreState(s.maxBytes, [a, b], s.maxBytes, 0)
  {
    WithoutAbsent([a], b.key);
    assert Without([a], b.key) + [b] == [a, b];
    assert VersionOf(s, b.key) == 0;
    PutOk(s, b, None);
    assert Keep([a, b], s.maxBytes, s.maxBytes, 0) == StoreState(s.maxBytes, [a, b], s.maxBytes, 0);
  }

  // ---------- one operation ----------

  predicate Touches(s: StoreState, op: Op, key: Key) {
    op.key == key && match op
      case Get(_) => Resident(s, key)
      case Put(_, _, _, _, _) => PutSucceeds(s, op)
      case _ => false
  }

  /** The record that a touching operation makes the newest entry. */
  function Newest(s: StoreState, op: Op): StateRecord
    requires Touches(s, op, op.key)
  {
    if op.Get? then Lookup(s.records, op.key).value
    else StateRecord(op.key, VersionOf(s, op.key) + 1, op.payload, op.metadata, op.now)
  }

  /** All records with the touched one moved to the end. */
  function Appendix(records: seq<StateRecord>, newest: StateRecord): seq<StateRecord> {
    Without(records, newest.key) + [newest]
  }

  /** `kept` is a nonempty suffix of `all`. */
  ghost predicate IsSuffix(kept: seq<StateRecord>, all: seq<StateRecord>) {
    0 < |kept| <= |all| && kept == all[|all| - |kept|..]
  }

  lemma KeepSuffix(records: seq<StateRecord>, maxBytes: int, drift: int, evictions: nat)
    requires UniqueKeys(records) && records != [] && |records[|records| - 1].payload| <= maxBytes + drift
    ensures var kept := Keep(records, maxBytes, drift, evictions);
      && IsSuffix(kept.records, records) && kept.records[|kept.records| - 1] == records[|records| - 1]
      && kept.evictions == evictions + |records| - |kept.records|
  {
    FitShrinks(records, maxBytes + drift);
    EvictKeepsLongestFit(records, maxBytes + drift);
  }

  lemma PutPublishes(s: StoreState, op: Op)
    requires PutSucceeds(s, op)
    ensures Newest(s, op).key == op.key && Newest(s, op).payload == op.payload
    ensures Step(s, op) == Keep(Appendix(s.records, Newest(s, op)), s.maxBytes, Drift(s), s.evictions)
  {
    PutOk(s, Newest(s, op), op.expected);
  }

  /** A successful put leaves a suffix of the appended records, ending in the new one. */
  lemma PutSuffix(s: StoreState, op: Op)
    requires ValidStore(s) && PutSucceeds(s, op)
    ensures var all := Appendix(s.records, Newest(s, op));
      && IsSuffix(Step(s, op).records, all)
      && Step(s, op).records[|Step(s, op).records| - 1] == Newest(s, op)
      && Step(s, op).evictions == s.evictions + |all| - |Step(s, op).records|
  {
    var newest := Newest(s, op);
    PutPublishes(s, op);
    Appended(s, newest);
    KeepSuffix(Appendix(s.records, newest), s.maxBytes, Drift(s), s.evictions);
  }

  lemma GetMoves(s: StoreState, op: Op)
    requires ValidStore(s) && op.Get? && Resident(s, op.key)
    ensures var all := Appendix(s.records, Newest(s, op));
      && Newest(s, op).key == op.key && Step(s, op) == s.(records := all) && |all| == |s.records|
  {
    WithoutTotal(s.records, op.key);
  }

  lemma TouchShape(s: StoreState, op: Op)
    requires ValidStore(s) && Touches(s, op, op.key)
    ensures Newest(s, op).key == op.key
    ensures IsSuffix(Step(s, op).records, Appendix(s.records, Newest(s, op)))
    ensures Step(s, op).records[|Step(s, op).records| - 1] == Newest(s, op)
    ensures Step(s, op).evictions == s.evictions + |Appendix(s.records, Newest(s, op))| - |Step(s, op).records|
    ensures op.Get? ==> Step(s, op).records == Appendix(s.records, Newest(s, op))
  {
    if op.Put? {
      PutPublishes(s, op);
      PutSuffix(s, op);
    } else {
      GetMoves(s, op);
    }
  }

  /** What every operation does to the ordered records. */
  lemma StepShape(s: StoreState, op: Op)
    requires ValidStore(s)
    ensures !Touches(s, op, op.key) && (op.Get? || op.Put?) ==> Step(s, op) == s
    ensures op.BadPut? ==> Step(s, op) == s.(bytes := s.bytes - Forgets(s, op))
    ensures !Touches(s, op, op.key) && op.Delete? ==>
      Step(s, op).records == s.records || Step(s, op).records == Without(s.records, op.key)
    ensures Touches(s, op, op.key) ==>
      && Newest(s, op).key == op.key
      && IsSuffix(Step(s, op).records, Appendix(s.records, Newest(s, op)))
      && Step(s, op).records[|Step(s, op).records| - 1] == Newest(s, op)
      && Step(s, op).evictions == s.evictions + |Appendix(s.records, Newest(s, op))| - |Step(s, op).records|
    ensures op.Get? && Touches(s, op, op.key) ==> Step(s, op).records == Appendix(s.records, Newest(s, op))
  {
    if Touches(s, op, op.key) {
      TouchShape(s, op);
    }
  }

  /**
   A successful put makes the key the newest entry and keeps exactly the longest suffix,
   in recency order, whose payloads fit the bound and the bytes the counter has lost sight
   of; the new key always survives.  A put of a dictionary that is rejected changes nothing.
   */
  lemma PutKeepsLongestSuffix(s: StoreState, op: Op)
    requires ValidStore(s) && op.Put?
    ensures !PutSucceeds(s, op) ==> Step(s, op) == s
    ensures PutSucceeds(s, op) ==>
      var all := Appendix(s.records, Newest(s, op));
      var kept := Step(s, op).records;
      && IsSuffix(kept, all) && kept[|kept| - 1] == Newest(s, op)
      && (forall d :: 0 <= d <= |all| ==> (Total(all[d..]) <= s.maxBytes + Drift(s) <==> d >= |all| - |kept|))
      && Step(s, op).evictions == s.evictions + |all| - |kept|
      && Step(s, op).bytes == Total(kept) - Drift(s)
  {
    StepShape(s, op);
    if PutSucceeds(s, op) {
      PutShape(s, op);
      LongestByDropping(Appendix(s.records, Newest(s, op)), Allowance(s));
    }
  }

  lemma PutShape(s: StoreState, op: Op)
    requires PutSucceeds(s, op)
    ensures Step(s, op).records == LongestFit(Appendix(s.records, Newest(s, op)), Allowance(s))
    ensures Step(s, op).bytes == Total(Step(s, op).records) - Drift(s)
  {
    PutPublishes(s, op);
  }

  lemma LongestByDropping(all: seq<StateRecord>, limit: int)
    requires limit >= 0
    ensures forall d :: 0 <= d <= |all| ==> (Total(all[d..]) <= limit <==> d >= |all| - |LongestFit(all, limit)|)
  {
    forall d | 0 <= d <= |all|
      ensures Total(all[d..]) <= limit <==> d >= |all| - |LongestFit(all, limit)|
    {
      FitIsLongest(all, limit, |all| - d);
    }
  }

  // ---------- recency ----------

  /** The position of the last put or get hit on the key, or -1. */
  function LastTouch(s: StoreState, ops: seq<Op>, key: Key): (t: int)
    ensures -1 <= t < |ops|
  {
    if ops == [] then -1
    else
      var n := |ops| - 1;
      if Touches(Run(s, ops[..n]), ops[n], key) then n else LastTouch(s, ops[..n], key)
  }

  function Touched(s: StoreState, ops: seq<Op>): Key -> int {
    key => LastTouch(s, ops, key)
  }

  /** The records are sorted by some time of their keys. */
  ghost predicate TimeOrdered(time: Key -> int, records: seq<StateRecord>) {
    && (forall i, j :: 0 <= i < j < |records| ==> time(records[i].key) < time(records[j].key))
    && (forall r :: r in records ==> time(r.key) >= 0)
  }

  ghost predicate TouchOrdered(s: StoreState, ops: seq<Op>, records: seq<StateRecord>) {
    TimeOrdered(Touched(s, ops), records)
  }

  lemma TailOrdered(time: Key -> int, records: seq<StateRecord>)
    requires records != [] && TimeOrdered(time, records)
    ensures TimeOrdered(time, records[1..]) && time(records[0].key) >= 0
    ensures forall i :: 0 <= i < |records| - 1 ==> time(records[0].key) < time(records[1..][i].key)
  {
  }

  lemma {:induction false} WithoutOrdered(time: Key -> int, records: seq<StateRecord>, key: Key)
    requires TimeOrdered(time, records)
    ensures TimeOrdered(time, Without(records, key))
  {
    if records != [] {
      TailOrdered(time, records);
      WithoutOrdered(time, records[1..], key);
      FirstOrdered(time, records[0], records[1..], Without(records[1..], key));
    }
  }

  lemma FirstOrdered(time: Key -> int, first: StateRecord, rest: seq<StateRecord>, fewer: seq<StateRecord>)
    requires TimeOrdered(time, fewer) && time(first.key) >= 0
    requires forall r :: r in fewer ==> r in rest
    requires forall i :: 0 <= i < |rest| ==> time(first.key) < time(rest[i].key)
    ensures TimeOrdered(time, [first] + fewer)
  {
    var all := [first] + fewer;
    forall i, j | 0 <= i < j < |all| ensures time(all[i].key) < time(all[j].key) {
      assert all[j] == fewer[j - 1];
      if i == 0 {
        assert fewer[j - 1] in rest;
      } else {
        assert all[i] == fewer[i - 1];
      }
    }
  }

  lemma SuffixOrdered(time: Key -> int, records: seq<StateRecord>, from: nat)
    requires from <= |records| && TimeOrdered(time, records)
    ensures TimeOrdered(time, records[from..])
  {
  }

  lemma Untouched(s: StoreState, ops: seq<Op>, records: seq<StateRecord>)
    requires ops != [] && TouchOrdered(s, ops[..|ops| - 1], records)
    requires forall r :: r in records ==> !Touches(Run(s, ops[..|ops| - 1]), ops[|ops| - 1], r.key)
    ensures TouchOrdered(s, ops, records)
  {
  }

  lemma AppendOrdered(time: Key -> int, records: seq<StateRecord>, last: StateRecord)
    requires TimeOrdered(time, records) && time(last.key) >= 0
    requires forall r :: r in records ==> time(r.key) < time(last.key)
    ensures TimeOrdered(time, records + [last])
  {
    var all := records + [last];
    forall i, j | 0 <= i < j < |all| ensures time(all[i].key) < time(all[j].key) {
      assert all[i] == records[i] && records[i] in records;
      if j < |records| {
        assert all[j] == records[j];
      }
    }
  }

  lemma LastTouchNext(s: StoreState, ops: seq<Op>, key: Key)
    requires ops != []
    ensures LastTouch(s, ops, key) ==
      if Touches(Run(s, ops[..|ops| - 1]), ops[|ops| - 1], key) then |ops| - 1 else LastTouch(s, ops[..|ops| - 1], key)
    ensures LastTouch(s, ops[..|ops| - 1], key) < |ops| - 1
  {
  }

  lemma {:induction false} TouchedLast(s: StoreState, ops: seq<Op>, records: seq<StateRecord>, r: StateRecord)
    requires ops != [] && TouchOrdered(s, ops[..|ops| - 1], records)
    requires Touches(Run(s, ops[..|ops| - 1]), ops[|ops| - 1], r.key)
    ensures TouchOrdered(s, ops, Without(records, r.key) + [r])
  {
    var rest := Without(records, r.key);
    WithoutOrdered(Touched(s, ops[..|ops| - 1]), records, r.key);
    Untouched(s, ops, rest);
    LastTouchNext(s, ops, r.key);
    forall x | x in rest ensures Touched(s, ops)(x.key) < Touched(s, ops)(r.key) {
      LastTouchNext(s, ops, x.key);
    }
    AppendOrdered(Touched(s, ops), rest, r);
  }

  /** In every reachable state the store's order is its resident keys sorted by last touch. */
  lemma {:induction false} RecencyOrder(maxBytes: int, ops: seq<Op>)
    requires maxBytes > 0
    ensures TouchOrdered(EmptyStore(maxBytes), ops, Run(EmptyStore(maxBytes), ops).records)
  {
    if ops != [] {
      var s0, n := EmptyStore(maxBytes), |ops| - 1;
      var s, op := Run(s0, ops[..n]), ops[n];
      RecencyOrder(maxBytes, ops[..n]);
      RunValid(s0, ops[..n]);
      StepShape(s, op);
      if Touches(s, op, op.key) {
        var all := Appendix(s.records, Newest(s, op));
        TouchedLast(s0, ops, s.records, Newest(s, op));
        SuffixOrdered(Touched(s0, ops), all, |all| - |Step(s, op).records|);
      } else {
        Untouched(s0, ops, s.records);
        WithoutOrdered(Touched(s0, ops), s.records, op.key);
      }
    }
  }

  /** Every key a put evicts was last touched before every key that survives that put. */
  lemma {:induction false} EvictedWereOldest(maxBytes: int, ops: seq<Op>, op: Op, evicted: Key, survivor: Key)
    requires maxBytes > 0 && op.Put?
    requires Resident(Run(EmptyStore(maxBytes), ops), evicted)
    requires !Resident(Run(EmptyStore(maxBytes), ops + [op]), evicted)
    requires Resident(Run(EmptyStore(maxBytes), ops + [op]), survivor)
    ensures LastTouch(EmptyStore(maxBytes), ops + [op], evicted) < LastTouch(EmptyStore(maxBytes), ops + [op], survivor)
  {
    var s0, after := EmptyStore(maxBytes), ops + [op];
    assert after[..|after| - 1] == ops;
    var s := Run(s0, ops);
    RecencyOrder(maxBytes, ops);
    RunValid(s0, ops);
    StepShape(s, op);
    var all, kept := Appendix(s.records, Newest(s, op)), Run(s0, after).records;
    TouchedLast(s0, after, s.records, Newest(s, op));
    var gone, stays := Lookup(s.records, evicted).value, Lookup(kept, survivor).value;
    assert gone.key != op.key by { assert kept[|kept| - 1] == Newest(s, op); }
    DroppedBefore(all, kept, gone, stays);
    EarlierTouched(Touched(s0, after), all, gone, stays);
  }

  lemma EarlierTouched(time: Key -> int, all: seq<StateRecord>, a: StateRecord, b: StateRecord)
    requires TimeOrdered(time, all)
    requires exists i, j :: 0 <= i < j < |all| && all[i] == a && all[j] == b
    ensures time(a.key) < time(b.key)
  {
  }

  lemma DroppedBefore(all: seq<StateRecord>, kept: seq<StateRecord>, gone: StateRecord, stays: StateRecord)
    requires IsSuffix(kept, all) && gone in all && gone !in kept && stays in kept
    ensures exists i, j :: 0 <= i < j < |all| && all[i] == gone && all[j] == stays
  {
  }

  // ---------- versions ----------

  lemma TouchVersion(s: StoreState, op: Op, key: Key)
    requires ValidStore(s) && Touches(s, op, op.key)
    ensures op.Put? && op.key == key ==>
      Resident(Step(s, op), key) && VersionOf(Step(s, op), key) == VersionOf(s, key) + 1
    ensures !(op.Put? && op.key == key) && Resident(Step(s, op), key) ==>
      Resident(s, key) && VersionOf(Step(s, op), key) == VersionOf(s, key)
    ensures Resident(s, key) && !Resident(Step(s, op), key) ==>
      op.Put? && op.key != key && Step(s, op).evictions > s.evictions
  {
    TouchLookup(s, op, key);
  }

  /** What one operation does to the version and residence of a key. */
  lemma {:induction false} StepVersion(s: StoreState, op: Op, key: Key)
    requires ValidStore(s)
    ensures PutSucceeds(s, op) && op.key == key ==>
      Resident(Step(s, op), key) && VersionOf(Step(s, op), key) == VersionOf(s, key) + 1
    ensures !(PutSucceeds(s, op) && op.key == key) && Resident(Step(s, op), key) ==>
      Resident(s, key) && VersionOf(Step(s, op), key) == VersionOf(s, key)
    ensures Resident(s, key) && !Resident(Step(s, op), key) ==>
      (op.Delete? && op.key == key) || (PutSucceeds(s, op) && op.key != key && Step(s, op).evictions > s.evictions)
  {
    if Touches(s, op, op.key) {
      TouchVersion(s, op, key);
    } else if op.Delete? {
      DeleteLookup(s, op, key);
    } else {
      StepShape(s, op);
    }
  }

  lemma DeleteLookup(s: StoreState, op: Op, key: Key)
    requires ValidStore(s) && op.Delete?
    ensures Resident(Step(s, op), key) ==> Lookup(Step(s, op).records, key) == Lookup(s.records, key)
    ensures Resident(s, key) && !Resident(Step(s, op), key) ==> op.key == key
  {
  }

  lemma TouchedLookup(s: StoreState, op: Op)
    requires ValidStore(s) && Touches(s, op, op.key)
    ensures Lookup(Step(s, op).records, op.key) == Some(Newest(s, op))
  {
    StepValid(s, op);
    TouchShape(s, op);
    LookupMember(Step(s, op).records, Newest(s, op));
  }

  lemma UntouchedLookup(s: StoreState, op: Op, key: Key)
    requires ValidStore(s) && Touches(s, op, op.key) && key != op.key
    ensures Resident(Step(s, op), key) ==> Lookup(Step(s, op).records, key) == Lookup(s.records, key)
    ensures Resident(s, key) && !Resident(Step(s, op), key) ==> Step(s, op).evictions > s.evictions
  {
    StepValid(s, op);
    TouchShape(s, op);
    KeyUntouched(s.records, Step(s, op).records, Newest(s, op), key);
  }

  lemma TouchLookup(s: StoreState, op: Op, key: Key)
    requires ValidStore(s) && Touches(s, op, op.key)
    ensures key == op.key ==> Lookup(Step(s, op).records, key) == Some(Newest(s, op))
    ensures key != op.key && Resident(Step(s, op), key) ==> Lookup(Step(s, op).records, key) == Lookup(s.records, key)
    ensures key != op.key && Resident(s, key) && !Resident(Step(s, op), key) ==> op.Put? && Step(s, op).evictions > s.evictions
  {
    if key == op.key {
      TouchedLookup(s, op);
    } else {
      UntouchedLookup(s, op, key);
      if op.Get? { GetMoves(s, op); }
    }
  }

  /** A key other than the touched one keeps its record, unless it is among the entries dropped from the front. */
  lemma KeyUntouched(records: seq<StateRecord>, records': seq<StateRecord>, newest: StateRecord, key: Key)
    requires UniqueKeys(records) && UniqueKeys(records') && key != newest.key
    requires IsSuffix(records', Appendix(records, newest))
    ensures Lookup(records', key).Some? ==> Lookup(records', key) == Lookup(records, key)
    ensures Lookup(records, key).Some? && Lookup(records', key) == None ==> |records'| < |Appendix(records, newest)|
  {
    var all := Appendix(records, newest);
    if Lookup(records', key).Some? {
      var r := Lookup(records', key).value;
      assert r in all;
      LookupMember(records, r);
    }
    if Lookup(records, key).Some? && |records'| == |all| {
      var r := Lookup(records, key).value;
      assert r in all && records' == all;
      LookupMember(records', r);
    }
  }

  function PutsOn(s: StoreState, ops: seq<Op>, key: Key): nat {
    if ops == [] then 0
    else
      var n := |ops| - 1;
      PutsOn(s, ops[..n], key) + if PutSucceeds(Run(s, ops[..n]), ops[n]) && ops[n].key == key then 1 else 0
  }

  /** While a key stays resident, its version counts the successful puts on it. */
  lemma {:induction false} VersionsCountPuts(s: StoreState, ops: seq<Op>, key: Key)
    requires ValidStore(s)
    requires forall i :: 0 <= i <= |ops| ==> Resident(Run(s, ops[..i]), key)
    ensures VersionOf(Run(s, ops), key) == VersionOf(s, key) + PutsOn(s, ops, key)
  {
    if ops != [] {
      var n := |ops| - 1;
      assert forall i :: 0 <= i <= n ==> ops[..n][..i] == ops[..i];
      VersionsCountPuts(s, ops[..n], key);
      RunValid(s, ops[..n]);
      assert ops[..n + 1] == ops;
      assert Resident(Run(s, ops[..n]), key) && Resident(Run(s, ops[..n + 1]), key);
      StepVersion(Run(s, ops[..n]), ops[n], key);
    }
  }

  ghost predicate LeavesAt(s: StoreState, ops: seq<Op>, key: Key, m: nat)
    requires m < |ops|
  {
    Resident(Run(s, ops[..m]), key) && !Resident(Run(s, ops[..m + 1]), key)
  }

  lemma {:induction false} VersionGrows(s: StoreState, ops: seq<Op>, key: Key, i: nat)
    requires ValidStore(s) && i < |ops| && Resident(Run(s, ops[..i + 1]), key)
    ensures VersionOf(Run(s, ops[..i + 1]), key) >= VersionOf(Run(s, ops[..i]), key)
  {
    RunValid(s, ops[..i]);
    RunNext(s, ops, i);
    StepVersion(Run(s, ops[..i]), ops[i], key);
  }

  /** If the version of a resident key has not grown between two moments, the key left in between. */
  lemma {:induction false} DepartureBetween(s: StoreState, ops: seq<Op>, key: Key, i: nat, j: nat) returns (m: nat)
    requires ValidStore(s) && i <= j <= |ops|
    requires Resident(Run(s, ops[..i]), key)
    requires VersionOf(Run(s, ops[..j]), key) < VersionOf(Run(s, ops[..i]), key)
    ensures i <= m < j && LeavesAt(s, ops, key, m)
    decreases j - i
  {
    assert i < j;
    if Resident(Run(s, ops[..i + 1]), key) {
      VersionGrows(s, ops, key, i);
      m := DepartureBetween(s, ops, key, i + 1, j);
    } else {
      m := i;
    }
  }

  /**
   Compare-and-swap: of two successful puts on one key with the same expected version, the
   key was deleted or evicted in between.
   */
  lemma {:induction false} SameExpectationSeparated(s: StoreState, ops: seq<Op>, i: nat, j: nat) returns (m: nat)
    requires ValidStore(s) && i < j < |ops|
    requires PutSucceeds(Run(s, ops[..i]), ops[i]) && PutSucceeds(Run(s, ops[..j]), ops[j])
    requires ops[i].key == ops[j].key && ops[i].expected == ops[j].expected && ops[i].expected.Some?
    ensures i < m < j && LeavesAt(s, ops, ops[i].key, m)
    ensures (ops[m].Delete? && ops[m].key == ops[i].key) ||
            (PutSucceeds(Run(s, ops[..m]), ops[m]) && ops[m].key != ops[i].key &&
             Run(s, ops[..m + 1]).evictions > Run(s, ops[..m]).evictions)
  {
    var key := ops[i].key;
    RunValid(s, ops[..i]);
    RunNext(s, ops, i);
    StepVersion(Run(s, ops[..i]), ops[i], key);
    m := DepartureBetween(s, ops, key, i + 1, j);
    RunValid(s, ops[..m]);
    RunNext(s, ops, m);
    StepVersion(Run(s, ops[..m]), ops[m], key);
  }
}
