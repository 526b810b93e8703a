/**
 The recursive state codec: nested values are packed into plain containers with tagged
 dictionaries, and unpacked again.  `torch.save` and `torch.load` are taken to carry a
 packed value unchanged.
 */
module Codec {
  import opened Wrappers

  /** A tensor's contents are opaque; its device, layout and autograd attachment are not. */
  datatype Tensor = Tensor(data: int, device: string, contiguous: bool, attached: bool) {
    /** `detach().cpu().contiguous()` */
    function Stored(): Tensor { Tensor(data, "cpu", true, false) }

    function To(device: string): Tensor { this.(device := device) }
  }

  datatype Layer = Layer(keys: Tensor, values: Tensor)

  datatype DictKey = StrKey(text: string) | OtherKey(id: int)

  datatype Entry = Entry(key: DictKey, value: Value)

  /** A Python value; `Unsupported` is a leaf of any other type. */
  datatype Value =
    | Absent
    | Bool(flag: bool)
    | Int(number: int)
    | Float(id: int)
    | Str(text: string)
    | TensorValue(tensor: Tensor)
    | ListOf(items: seq<Value>)
    | TupleOf(items: seq<Value>)
    | DictOf(entries: seq<Entry>)
    | CacheOf(layers: seq<Layer>)
    | Unsupported(id: int)

  const KIND := StrKey("__graphkv_kind__")
  const FORMAT_VERSION := 1

  function Tagged(kind: string, field: string, value: Value): Value {
    DictOf([Entry(KIND, Str(kind)), Entry(StrKey(field), value)])
  }

  // ---------- packing ----------

  function PackLayers(layers: seq<Layer>): seq<Value> {
    seq(|layers|, i requires 0 <= i < |layers| =>
      TupleOf([TensorValue(layers[i].keys.Stored()), TensorValue(layers[i].values.Stored())]))
  }

  /** `None` is the TypeError for an unsupported value. */
  function Pack(v: Value): Option<Value>
    decreases v, 1
  {
    match v
    case CacheOf(layers) => Some(Tagged("dynamic_cache", "layers", ListOf(PackLayers(layers))))
    case TensorValue(tensor) => Some(Tagged("tensor", "value", TensorValue(tensor.Stored())))
    case DictOf(entries) => (match PackEntries(entries) case None => None case Some(packed) => Some(DictOf(packed)))
    case ListOf(items) => (match PackAll(items) case None => None case Some(packed) => Some(ListOf(packed)))
    case TupleOf(items) =>
      (match PackAll(items) case None => None case Some(packed) => Some(Tagged("tuple", "items", ListOf(packed))))
    case Unsupported(_) => None
    case _ => Some(v)
  }

  function PackAll(items: seq<Value>): (r: Option<seq<Value>>)
    ensures r.Some? ==> |r.value| == |items|
    decreases items, 0
  {
    if items == [] then Some([])
    else match (Pack(items[0]), PackAll(items[1..]))
      case (Some(first), Some(rest)) => Some([first] + rest)
      case _ => None
  }

  function PackEntries(entries: seq<Entry>): (r: Option<seq<Entry>>)
    ensures r.Some? ==> |r.value| == |entries|
    decreases entries, 0
  {
    if entries == [] then Some([])
    else match (PackEntry(entries[0]), PackEntries(entries[1..]))
      case (Some(first), Some(rest)) => Some([first] + rest)
      case _ => None
  }

  function PackEntry(entry: Entry): Option<Entry>
    decreases entry, 0
  {
    match entry
    case Entry(key, value) => match Pack(value) case None => None case Some(packed) => Some(Entry(key, packed))
  }

  // ---------- unpacking ----------

  function Find(entries: seq<Entry>, key: DictKey): (r: Option<nat>)
    ensures r.Some? ==> r.value < |entries| && entries[r.value].key == key
  {
    if entries == [] then None
    else if entries[0].key == key then Some(0)
    else match Find(entries[1..], key) case None => None case Some(i) => Some(i + 1)
  }

  /** The value filed under the kind tag, if it is one of the three reserved tags. */
  function ReservedKind(entries: seq<Entry>): Option<string> {
    match Find(entries, KIND)
    case None => None
    case Some(i) =>
      var kind := entries[i].value;
      if kind.Str? && kind.text in {"tensor", "tuple", "dynamic_cache"} then Some(kind.text) else None
  }

  function KeyValue(key: DictKey): Value {
    match key case StrKey(text) => Str(text) case OtherKey(id) => Int(id)
  }

  function Characters(text: string): seq<Value> {
    seq(|text|, i requires 0 <= i < |text| => Str([text[i]]))
  }

  function UnpackLayer(value: Value, device: string): Option<Layer> {
    if (value.TupleOf? || value.ListOf?) && |value.items| == 2 && value.items[0].TensorValue? && value.items[1].TensorValue? then
      Some(Layer(value.items[0].tensor.To(device), value.items[1].tensor.To(device)))
    else None
  }

  function UnpackLayers(items: seq<Value>, device: string): Option<seq<Layer>> {
    if items == [] then Some([])
    else match (UnpackLayer(items[0], device), UnpackLayers(items[1..], device))
      case (Some(first), Some(rest)) => Some([first] + rest)
      case _ => None
  }

  /** `None` is any exception raised on the way. */
  function Unpack(v: Value, device: string): Option<Value>
    decreases v, 1
  {
    match v
    case ListOf(items) => (match UnpackAll(items, device) case None => None case Some(values) => Some(ListOf(values)))
    case DictOf(entries) =>
      (match ReservedKind(entries)
       case None => (match UnpackEntries(entries, device) case None => None case Some(values) => Some(DictOf(values)))
       case Some(kind) =>
         var field := if kind == "tensor" then "value" else if kind == "tuple" then "items" else "layers";
         match Find(entries, StrKey(field))
         case None => None
         case Some(i) =>
           UnpackTagged(kind, entries[i].value, device))
    case _ => Some(v)
  }

  function UnpackTagged(kind: string, value: Value, device: string): Option<Value>
    decreases value, 2
  {
    if kind == "tensor" then
      if value.TensorValue? then Some(TensorValue(value.tensor.To(device))) else None
    else if kind == "tuple" then
      match value
      case ListOf(items) => (match UnpackAll(items, device) case None => None case Some(values) => Some(TupleOf(values)))
      case TupleOf(items) => (match UnpackAll(items, device) case None => None case Some(values) => Some(TupleOf(values)))
      case DictOf(entries) => Some(TupleOf(seq(|entries|, i requires 0 <= i < |entries| => KeyValue(entries[i].key))))
      case Str(text) => Some(TupleOf(Characters(text)))
      case _ => None
    else
      match value
      case ListOf(items) => (match UnpackLayers(items, device) case None => None case Some(layers) => Some(CacheOf(layers)))
      case TupleOf(items) => (match UnpackLayers(items, device) case None => None case Some(layers) => Some(CacheOf(layers)))
      case DictOf(entries) => if entries == [] then Some(CacheOf([])) else None
      case Str(text) => if text == "" then Some(CacheOf([])) else None
      case _ => None
  }

  function UnpackAll(items: seq<Value>, device: string): Option<seq<Value>>
    decreases items, 0
  {
    if items == [] then Some([])
    else match (Unpack(items[0], device), UnpackAll(items[1..], device))
      case (Some(first), Some(rest)) => Some([first] + rest)
      case _ => None
  }

  function UnpackEntries(entries: seq<Entry>, device: string): Option<seq<Entry>>
    decreases entries, 0
  {
    if entries == [] then Some([])
    else match (UnpackEntry(entries[0], device), UnpackEntries(entries[1..], device))
      case (Some(first), Some(rest)) => Some([first] + rest)
      case _ => None
  }

  function UnpackEntry(entry: Entry, device: string): Option<Entry>
    decreases entry, 0
  {
    match entry
    case Entry(key, value) => match Unpack(value, device) case None => None case Some(unpacked) => Some(Entry(key, unpacked))
  }

  // ---------- what the round trip should give ----------

  function RelocateTensor(t: Tensor, device: string): Tensor {
    t.Stored().To(device)
  }

  /** The same value with every tensor detached, contiguous and on the device. */
  function Relocate(v: Value, device: string): Value
    decreases v, 1
  {
    match v
    case TensorValue(tensor) => TensorValue(RelocateTensor(tensor, device))
    case CacheOf(layers) => CacheOf(RelocateLayers(layers, device))
    case ListOf(items) => ListOf(RelocateAll(items, device))
    case TupleOf(items) => TupleOf(RelocateAll(items, device))
    case DictOf(entries) => DictOf(RelocateEntries(entries, device))
    case _ => v
  }

  function RelocateLayers(layers: seq<Layer>, device: string): seq<Layer> {
    seq(|layers|, i requires 0 <= i < |layers| =>
      Layer(RelocateTensor(layers[i].keys, device), RelocateTensor(layers[i].values, device)))
  }

  function RelocateAll(items: seq<Value>, device: string): seq<Value>
    decreases items, 0
  {
    if items == [] then [] else [Relocate(items[0], device)] + RelocateAll(items[1..], device)
  }

  function RelocateEntries(entries: seq<Entry>, device: string): seq<Entry>
    decreases entries, 0
  {
    if entries == [] then []
    else [RelocateEntry(entries[0], device)] + RelocateEntries(entries[1..], device)
  }

  function RelocateEntry(entry: Entry, device: string): Entry
    decreases entry, 0
  {
    match entry case Entry(key, value) => Entry(key, Relocate(value, device))
  }

  /** No leaf is of an unsupported type. */
  ghost predicate Supported(v: Value) {
    match v
    case Unsupported(_) => false
    case ListOf(items) => forall x :: x in items ==> Supported(x)
    case TupleOf(items) => forall x :: x in items ==> Supported(x)
    case DictOf(entries) => forall e :: e in entries ==> Supported(e.value)
    case _ => true
  }

  /** The dictionary's value under the key is this one: Python's dictionaries have one entry a key, here the first counts. */
  ghost predicate Holds(entries: seq<Entry>, key: DictKey, value: Value) {
    exists i :: 0 <= i < |entries| && entries[i] == Entry(key, value) && forall j :: 0 <= j < i ==> entries[j].key != key
  }

  /** The value under the kind key, if there is one, is none of the three tags the format uses. */
  ghost predicate UntaggedEntries(entries: seq<Entry>) {
    && !Holds(entries, StrKey("__graphkv_kind__"), Str("tensor"))
    && !Holds(entries, StrKey("__graphkv_kind__"), Str("tuple"))
    && !Holds(entries, StrKey("__graphkv_kind__"), Str("dynamic_cache"))
  }

  /** No dictionary, at any depth, files a reserved tag under the kind key. */
  ghost predicate TagFree(v: Value) {
    match v
    case ListOf(items) => forall x :: x in items ==> TagFree(x)
    case TupleOf(items) => forall x :: x in items ==> TagFree(x)
    case DictOf(entries) => UntaggedEntries(entries) && forall e :: e in entries ==> TagFree(e.value)
    case _ => true
  }

  /** The same contents, on the device, contiguous and detached. */
  predicate RestoredTensor(t: Tensor, u: Tensor, device: string) {
    u.data == t.data && u.device == device && u.contiguous && !u.attached
  }

  /** `w` is `v` with every tensor restored on the device: same shape, same plain values, same tensor contents. */
  ghost predicate Restored(v: Value, w: Value, device: string)
    decreases v
  {
    match v
    case TensorValue(tensor) => w.TensorValue? && RestoredTensor(tensor, w.tensor, device)
    case CacheOf(layers) =>
      && w.CacheOf? && |w.layers| == |layers|
      && forall i :: 0 <= i < |layers| ==>
           && RestoredTensor(layers[i].keys, w.layers[i].keys, device)
           && RestoredTensor(layers[i].values, w.layers[i].values, device)
    case ListOf(items) =>
      w.ListOf? && |w.items| == |items| && forall i :: 0 <= i < |items| ==> Restored(items[i], w.items[i], device)
    case TupleOf(items) =>
      w.TupleOf? && |w.items| == |items| && forall i :: 0 <= i < |items| ==> Restored(items[i], w.items[i], device)
    case DictOf(entries) =>
      && w.DictOf? && |w.entries| == |entries|
      && forall i :: 0 <= i < |entries| ==>
           entries[i].key == w.entries[i].key && Restored(entries[i].value, w.entries[i].value, device)
    case _ => w == v
  }

  lemma {:induction false} FindFirst(entries: seq<Entry>, key: DictKey)
    ensures match Find(entries, key)
      case None => forall i :: 0 <= i < |entries| ==> entries[i].key != key
      case Some(k) => k < |entries| && entries[k].key == key && forall j :: 0 <= j < k ==> entries[j].key != key
  {
    if entries != [] && entries[0].key != key {
      FindFirst(entries[1..], key);
      assert forall i :: 0 < i < |entries| ==> entries[i] == entries[1..][i - 1];
    }
  }

  lemma HoldsFind(entries: seq<Entry>, key: DictKey, value: Value)
    ensures Holds(entries, key, value) <==> Find(entries, key).Some? && entries[Find(entries, key).value].value == value
  {
    FindFirst(entries, key);
    if Holds(entries, key, value) {
      var i :| 0 <= i < |entries| && entries[i] == Entry(key, value) && forall j :: 0 <= j < i ==> entries[j].key != key;
      assert Find(entries, key).value == i;
    }
  }

  lemma UntaggedKind(entries: seq<Entry>)
    ensures UntaggedEntries(entries) <==> ReservedKind(entries) == None
  {
    HoldsFind(entries, KIND, Str("tensor"));
    HoldsFind(entries, KIND, Str("tuple"));
    HoldsFind(entries, KIND, Str("dynamic_cache"));
  }

  /** Restoring gives exactly the relocated value. */
  lemma {:induction false} RestoredExactly(v: Value, w: Value, device: string)
    ensures Restored(v, w, device) <==> w == Relocate(v, device)
    decreases v, 1
  {
    match v
    case CacheOf(layers) =>
      if Restored(v, w, device) { assert w.layers == RelocateLayers(layers, device); }
    case ListOf(items) =>
      if w.ListOf? { RestoredAll(items, w.items, device); }
    case TupleOf(items) =>
      if w.TupleOf? { RestoredAll(items, w.items, device); }
    case DictOf(entries) =>
      if w.DictOf? { RestoredEntries(entries, w.entries, device); }
    case _ =>
  }

  lemma {:induction false} RestoredAll(items: seq<Value>, others: seq<Value>, device: string)
    ensures others == RelocateAll(items, device) <==>
      |others| == |items| && forall i :: 0 <= i < |items| ==> Restored(items[i], others[i], device)
    decreases items, 0
  {
    if items != [] && others != [] {
      RestoredExactly(items[0], others[0], device);
      RestoredAll(items[1..], others[1..], device);
      assert others == [others[0]] + others[1..];
      assert forall i :: 0 < i < |items| ==> items[i] == items[1..][i - 1];
      assert forall i :: 0 < i < |others| ==> others[i] == others[1..][i - 1];
      var relocated := RelocateAll(items, device);
      assert relocated[0] == Relocate(items[0], device) && relocated[1..] == RelocateAll(items[1..], device);
    }
  }

  lemma {:induction false} RestoredEntries(entries: seq<Entry>, others: seq<Entry>, device: string)
    ensures others == RelocateEntries(entries, device) <==>
      |others| == |entries| && forall i :: 0 <= i < |entries| ==>
        entries[i].key == others[i].key && Restored(entries[i].value, others[i].value, device)
    decreases entries, 0
  {
    if entries != [] && others != [] {
      RestoredEntry(entries[0], others[0], device);
      RestoredEntries(entries[1..], others[1..], device);
      assert others == [others[0]] + others[1..];
      assert forall i :: 0 < i < |entries| ==> entries[i] == entries[1..][i - 1];
      assert forall i :: 0 < i < |others| ==> others[i] == others[1..][i - 1];
      var relocated := RelocateEntries(entries, device);
      assert relocated[0] == RelocateEntry(entries[0], device) && relocated[1..] == RelocateEntries(entries[1..], device);
    }
  }

  lemma {:induction false} RestoredEntry(entry: Entry, other: Entry, device: string)
    ensures other == RelocateEntry(entry, device) <==> entry.key == other.key && Restored(entry.value, other.value, device)
    decreases entry, 0
  {
    match entry case Entry(_, value) => RestoredExactly(value, other.value, device);
  }

  // ---------- packing rejects exactly the unsupported ----------

  lemma {:induction false} PackRejectsUnsupported(v: Value)
    ensures Pack(v).Some? <==> Supported(v)
    decreases v, 1
  {
    match v
    case ListOf(items) => PackAllRejects(items);
    case TupleOf(items) => PackAllRejects(items);
    case DictOf(entries) => PackEntriesRejects(entries);
    case _ =>
  }

  lemma {:induction false} PackAllRejects(items: seq<Value>)
    ensures PackAll(items).Some? <==> forall x :: x in items ==> Supported(x)
    decreases items, 0
  {
    if items != [] {
      assert items == [items[0]] + items[1..];
      PackRejectsUnsupported(items[0]);
      PackAllRejects(items[1..]);
    }
  }

  lemma {:induction false} PackEntriesRejects(entries: seq<Entry>)
    ensures PackEntries(entries).Some? <==> forall e :: e in entries ==> Supported(e.value)
    decreases entries, 0
  {
    if entries != [] {
      assert entries == [entries[0]] + entries[1..];
      PackEntryRejects(entries[0]);
      PackEntriesRejects(entries[1..]);
    }
  }

  lemma {:induction false} PackEntryRejects(entry: Entry)
    ensures PackEntry(entry).Some? <==> Supported(entry.value)
    decreases entry, 0
  {
    match entry case Entry(_, value) => PackRejectsUnsupported(value);
  }

  // ---------- the round trip ----------

  lemma {:induction false} PackedFind(entries: seq<Entry>, key: DictKey)
    requires PackEntries(entries).Some?
    ensures Find(PackEntries(entries).value, key) == Find(entries, key)
    ensures Find(entries, key).Some? ==>
      Some(PackEntries(entries).value[Find(entries, key).value].value) == Pack(entries[Find(entries, key).value].value)
  {
    if entries != [] && entries[0].key != key {
      PackedFind(entries[1..], key);
    }
  }

  /** Packing neither introduces nor hides a reserved tag of the dictionary itself. */
  lemma PackedKind(entries: seq<Entry>)
    requires PackEntries(entries).Some?
    ensures ReservedKind(PackEntries(entries).value) == ReservedKind(entries)
  {
    PackedFind(entries, KIND);
  }

  lemma {:induction false} LayersRoundTrip(layers: seq<Layer>, device: string)
    ensures UnpackLayers(PackLayers(layers), device) == Some(RelocateLayers(layers, device))
  {
    if layers == [] {
      assert PackLayers(layers) == [] && RelocateLayers(layers, device) == [];
    } else {
      LayersRoundTrip(layers[1..], device);
      var packed, relocated := PackLayers(layers), RelocateLayers(layers, device);
      assert packed[1..] == PackLayers(layers[1..]);
      assert UnpackLayer(packed[0], device) == Some(relocated[0]);
      assert relocated == [relocated[0]] + RelocateLayers(layers[1..], device);
    }
  }

  lemma TaggedUnpacks(kind: string, field: string, value: Value, device: string)
    requires kind in {"tensor", "tuple", "dynamic_cache"}
    requires field == if kind == "tensor" then "value" else if kind == "tuple" then "items" else "layers"
    ensures Unpack(Tagged(kind, field, value), device) == UnpackTagged(kind, value, device)
  {
    var entries := Tagged(kind, field, value).entries;
    assert Find(entries, KIND) == Some(0);
    assert Find(entries, StrKey(field)) == Some(1) by {
      assert entries[1..][0] == entries[1];
    }
  }

  lemma {:induction false} RoundTrip(v: Value, device: string)
    requires Supported(v)
    ensures Pack(v).Some?
    ensures Unpack(Pack(v).value, device) == Some(Relocate(v, device)) <==> TagFree(v)
    decreases v, 1
  {
    PackRejectsUnsupported(v);
    match v
    case CacheOf(layers) =>
      TaggedUnpacks("dynamic_cache", "layers", ListOf(PackLayers(layers)), device);
      LayersRoundTrip(layers, device);
    case TensorValue(tensor) =>
      TaggedUnpacks("tensor", "value", TensorValue(tensor.Stored()), device);
    case ListOf(items) =>
      RoundTripAll(items, device);
    case TupleOf(items) =>
      RoundTripAll(items, device);
      TaggedUnpacks("tuple", "items", ListOf(PackAll(items).value), device);
    case DictOf(entries) =>
      RoundTripEntries(entries, device);
      DictRoundTrip(entries, device);
      UntaggedKind(entries);
    case _ =>
  }

  /**
   The round trip, exactly: a supported value comes back, up to device, contiguity and
   autograd, if and only if none of its dictionaries carries a reserved kind tag.
   */
  lemma RoundTripExact(v: Value, device: string)
    requires Supported(v)
    ensures Pack(v).Some?
    ensures var w := Unpack(Pack(v).value, device); w.Some? && Restored(v, w.value, device) <==> TagFree(v)
  {
    RoundTrip(v, device);
    var w := Unpack(Pack(v).value, device);
    if w.Some? { RestoredExactly(v, w.value, device); }
  }

  /** A dictionary comes back as a dictionary exactly when it carries no reserved tag itself. */
  lemma DictRoundTrip(entries: seq<Entry>, device: string)
    requires PackEntries(entries).Some?
    ensures Unpack(DictOf(PackEntries(entries).value), device) == Some(DictOf(RelocateEntries(entries, device))) <==>
      ReservedKind(entries) == None &&
      UnpackEntries(PackEntries(entries).value, device) == Some(RelocateEntries(entries, device))
  {
    PackedKind(entries);
    var packed := PackEntries(entries).value;
    match ReservedKind(entries)
    case None =>
    case Some(kind) =>
      var field := if kind == "tensor" then "value" else if kind == "tuple" then "items" else "layers";
      match Find(packed, StrKey(field))
      case None =>
      case Some(i) => TaggedIsNoDict(kind, packed[i].value, device);
  }

  lemma TaggedIsNoDict(kind: string, value: Value, device: string)
    ensures UnpackTagged(kind, value, device).Some? ==> !UnpackTagged(kind, value, device).value.DictOf?
  {
  }

  lemma {:induction false} RoundTripAll(items: seq<Value>, device: string)
    requires forall x :: x in items ==> Supported(x)
    ensures PackAll(items).Some?
    ensures UnpackAll(PackAll(items).value, device) == Some(RelocateAll(items, device)) <==> forall x :: x in items ==> TagFree(x)
    decreases items, 0
  {
    PackAllRejects(items);
    if items != [] {
      assert items == [items[0]] + items[1..];
      RoundTrip(items[0], device);
      RoundTripAll(items[1..], device);
      var packed := PackAll(items).value;
      assert packed[1..] == PackAll(items[1..]).value;
      var relocated := RelocateAll(items, device);
      assert relocated[0] == Relocate(items[0], device) && relocated[1..] == RelocateAll(items[1..], device);
    }
  }

  lemma {:induction false} RoundTripEntries(entries: seq<Entry>, device: string)
    requires forall e :: e in entries ==> Supported(e.value)
    ensures PackEntries(entries).Some?
    ensures UnpackEntries(PackEntries(entries).value, device) == Some(RelocateEntries(entries, device)) <==>
      forall e :: e in entries ==> TagFree(e.value)
    decreases entries, 0
  {
    PackEntriesRejects(entries);
    if entries != [] {
      assert entries == [entries[0]] + entries[1..];
      RoundTripEntry(entries[0], device);
      RoundTripEntries(entries[1..], device);
      var packed := PackEntries(entries).value;
      assert packed[1..] == PackEntries(entries[1..]).value;
      var relocated := RelocateEntries(entries, device);
      assert relocated[0] == RelocateEntry(entries[0], device) && relocated[1..] == RelocateEntries(entries[1..], device);
    }
  }

  lemma {:induction false} RoundTripEntry(entry: Entry, device: string)
    requires Supported(entry.value)
    ensures PackEntry(entry).Some?
    ensures UnpackEntry(PackEntry(entry).value, device) == Some(RelocateEntry(entry, device)) <==> TagFree(entry.value)
    decreases entry, 0
  {
    match entry case Entry(_, value) => RoundTrip(value, device);
  }

  // ---------- the envelope ----------

  function Encode(state: Value): Option<Value> {
    match Pack(state)
    case None => None
    case Some(packed) => Some(DictOf([Entry(StrKey("format"), Int(FORMAT_VERSION)), Entry(StrKey("state"), packed)]))
  }

  function Decode(envelope: Value, device: string): Option<Value> {
    if !envelope.DictOf? then None
    else match (Find(envelope.entries, StrKey("format")), Find(envelope.entries, StrKey("state")))
      case (Some(f), Some(i)) =>
        if envelope.entries[f].value == Int(FORMAT_VERSION) then Unpack(envelope.entries[i].value, device) else None
      case _ => None
  }

  lemma Opened(state: Value, device: string)
    requires Pack(state).Some?
    ensures Encode(state).Some? && Decode(Encode(state).value, device) == Unpack(Pack(state).value, device)
  {
    var entries := Encode(state).value.entries;
    assert Find(entries, StrKey("format")) == Some(0);
    assert entries[1..][0] == entries[1];
    assert Find(entries, StrKey("state")) == Some(1);
  }

  /** The same exact condition for the encoder and the decoder. */
  lemma EncodeDecodeExact(state: Value, device: string)
    ensures Encode(state).Some? <==> Supported(state)
    ensures Supported(state) ==>
      var w := Decode(Encode(state).value, device); w.Some? && Restored(state, w.value, device) <==> TagFree(state)
  {
    PackRejectsUnsupported(state);
    if Supported(state) {
      Opened(state, device);
      RoundTripExact(state, device);
    }
  }

  /** A payload of any other format, or without one, is refused. */
  lemma OtherFormatsRefused(entries: seq<Entry>, device: string)
    requires forall i :: 0 <= i < |entries| && entries[i].key == StrKey("format") ==> entries[i].value != Int(1)
    ensures Decode(DictOf(entries), device) == None
  {
    FindFirst(entries, StrKey("format"));
  }

  // ---------- what travels ----------

  /** Plain containers only, with every tensor on the CPU, contiguous and detached. */
  ghost predicate Plain(v: Value) {
    match v
    case TensorValue(t) => t.device == "cpu" && t.contiguous && !t.attached
    case ListOf(items) => forall x :: x in items ==> Plain(x)
    case TupleOf(items) => forall x :: x in items ==> Plain(x)
    case DictOf(entries) => forall e :: e in entries ==> Plain(e.value)
    case CacheOf(_) => false
    case Unsupported(_) => false
    case _ => true
  }

  lemma PlainTagged(kind: string, field: string, value: Value)
    requires Plain(value)
    ensures Plain(Tagged(kind, field, value))
  {
  }

  /** Whatever is packed travels without cache objects and on the CPU. */
  lemma {:induction false} PackedIsPlain(v: Value)
    requires Pack(v).Some?
    ensures Plain(Pack(v).value)
    decreases v, 1
  {
    match v
    case CacheOf(layers) =>
      forall x | x in PackLayers(layers) ensures Plain(x) {
        var i :| 0 <= i < |layers| && PackLayers(layers)[i] == x;
        assert forall y :: y in x.items ==> y == x.items[0] || y == x.items[1];
      }
      PlainTagged("dynamic_cache", "layers", ListOf(PackLayers(layers)));
    case TensorValue(tensor) => PlainTagged("tensor", "value", TensorValue(tensor.Stored()));
    case ListOf(items) => PackedAllPlain(items);
    case TupleOf(items) =>
      PackedAllPlain(items);
      PlainTagged("tuple", "items", ListOf(PackAll(items).value));
    case DictOf(entries) => PackedEntriesPlain(entries);
    case _ =>
  }

  lemma {:induction false} PackedAllPlain(items: seq<Value>)
    requires PackAll(items).Some?
    ensures forall x :: x in PackAll(items).value ==> Plain(x)
    decreases items, 0
  {
    if items != [] {
      PackedIsPlain(items[0]);
      PackedAllPlain(items[1..]);
    }
  }

  lemma {:induction false} PackedEntriesPlain(entries: seq<Entry>)
    requires PackEntries(entries).Some?
    ensures forall e :: e in PackEntries(entries).value ==> Plain(e.value)
    decreases entries, 0
  {
    if entries != [] {
      PackedEntryPlain(entries[0]);
      PackedEntriesPlain(entries[1..]);
    }
  }

  lemma {:induction false} PackedEntryPlain(entry: Entry)
    requires PackEntry(entry).Some?
    ensures Plain(PackEntry(entry).value.value)
    decreases entry, 0
  {
    match entry case Entry(_, value) => PackedIsPlain(value);
  }

  /** A dictionary that breaks the round trip: a user's own entry under the kind key. */
  lemma ReservedTagBreaksRoundTrip(device: string)
    ensures var v := DictOf([Entry(KIND, Str("tuple")), Entry(StrKey("items"), ListOf([]))]);
      Supported(v) && Pack(v).Some? && Unpack(Pack(v).value, device) == Some(TupleOf([]))
  {
    var items := ListOf([]);
    var tag, rest := Entry(KIND, Str("tuple")), [Entry(StrKey("items"), items)];
    assert Pack(items) == Some(items);
    assert rest[1..] == [];
    assert PackEntry(rest[0]) == Some(rest[0]) && PackEntry(tag) == Some(tag);
    assert PackEntries(rest[1..]) == Some([]) && [rest[0]] + [] == rest;
    assert PackEntries(rest) == Some(rest);
    assert ([tag] + rest)[1..] == rest;
    assert PackEntries([tag] + rest) == Some([tag] + rest);
    assert DictOf([tag] + rest) == Tagged("tuple", "items", items);
    TaggedUnpacks("tuple", "items", items, device);
  }

  // ---------- what a reserved tag does ----------

  /** What the entry a tag points to comes back as, when it is read as the items of a tuple. */
  ghost predicate ComesBackAsTuple(field: Value, w: Option<Value>, device: string) {
    match field
    case ListOf(items) => TagFree(field) ==> w.Some? && Restored(TupleOf(items), w.value, device)
    case TupleOf(_) => w == Some(TupleOf([Str("__graphkv_kind__"), Str("items")]))
    case TensorValue(_) => w == Some(TupleOf([Str("__graphkv_kind__"), Str("value")]))
    case CacheOf(_) => w == Some(TupleOf([Str("__graphkv_kind__"), Str("layers")]))
    case DictOf(entries) =>
      && w.Some? && w.value.TupleOf? && |w.value.items| == |entries|
      && forall i :: 0 <= i < |entries| && entries[i].key.StrKey? ==> w.value.items[i] == Str(entries[i].key.text)
    case Str(text) =>
      && w.Some? && w.value.TupleOf? && |w.value.items| == |text|
      && forall i :: 0 <= i < |text| ==> w.value.items[i] == Str([text[i]])
    case _ => w == None
  }

  /** Layers can only be read from nothing: no packed value is a pair of bare tensors. */
  ghost predicate ComesBackAsCache(field: Value, w: Option<Value>) {
    if field in {ListOf([]), DictOf([]), Str("")} then w == Some(CacheOf([])) else w == None
  }

  lemma PackIsNoTensor(v: Value)
    requires Pack(v).Some?
    ensures !Pack(v).value.TensorValue? && !Pack(v).value.TupleOf?
  {
  }

  lemma {:induction false} FieldUnpacks(entries: seq<Entry>, kind: string, key: string, field: Value, device: string)
    requires Supported(DictOf(entries)) && kind in {"tensor", "tuple", "dynamic_cache"}
    requires key == if kind == "tensor" then "value" else if kind == "tuple" then "items" else "layers"
    requires Holds(entries, StrKey("__graphkv_kind__"), Str(kind)) && Holds(entries, StrKey(key), field)
    ensures Pack(field).Some? && Pack(DictOf(entries)).Some?
    ensures Unpack(Pack(DictOf(entries)).value, device) == UnpackTagged(kind, Pack(field).value, device)
  {
    PackEntriesRejects(entries);
    HoldsFind(entries, KIND, Str(kind));
    HoldsFind(entries, StrKey(key), field);
    PackedKind(entries);
    PackedFind(entries, StrKey(key));
  }

  lemma TagsAsItems(kind: string, field: string, value: Value, device: string)
    ensures UnpackTagged("tuple", Tagged(kind, field, value), device) ==
            Some(TupleOf([Str("__graphkv_kind__"), Str(field)]))
  {
    var entries := Tagged(kind, field, value).entries;
    assert seq(|entries|, i requires 0 <= i < |entries| => KeyValue(entries[i].key)) == [Str("__graphkv_kind__"), Str(field)];
  }

  lemma TupleFieldGives(field: Value, device: string)
    requires Supported(field) && Pack(field).Some?
    ensures ComesBackAsTuple(field, UnpackTagged("tuple", Pack(field).value, device), device)
  {
    match field
    case ListOf(items) =>
      if TagFree(field) {
        RoundTripAll(items, device);
        RestoredExactly(TupleOf(items), TupleOf(RelocateAll(items, device)), device);
      }
    case TupleOf(items) => TagsAsItems("tuple", "items", ListOf(PackAll(items).value), device);
    case TensorValue(tensor) => TagsAsItems("tensor", "value", TensorValue(tensor.Stored()), device);
    case CacheOf(layers) => TagsAsItems("dynamic_cache", "layers", ListOf(PackLayers(layers)), device);
    case DictOf(entries) => PackedKeys(entries);
    case _ =>
  }

  lemma {:induction false} PackedKeys(entries: seq<Entry>)
    requires PackEntries(entries).Some?
    ensures forall i :: 0 <= i < |entries| ==> PackEntries(entries).value[i].key == entries[i].key
  {
    if entries != [] {
      PackedKeys(entries[1..]);
      assert forall i :: 0 < i < |entries| ==> entries[i] == entries[1..][i - 1];
    }
  }

  lemma CacheFieldGives(field: Value, device: string)
    requires Supported(field) && Pack(field).Some?
    ensures ComesBackAsCache(field, UnpackTagged("dynamic_cache", Pack(field).value, device))
  {
    match field
    case ListOf(items) =>
      if items != [] { NoLayer(items[0], device); }
    case _ =>
  }

  lemma NoLayer(item: Value, device: string)
    requires Pack(item).Some?
    ensures UnpackLayer(Pack(item).value, device) == None
  {
    match item
    case ListOf(items) =>
      if |items| == 2 {
        PackIsNoTensor(items[0]);
        assert PackAll(items).value[0] == Pack(items[0]).value;
      }
    case _ =>
  }

  /**
   What a dictionary with its own reserved tag comes back as: nothing under "tensor"; under
   "tuple" the items of its "items" entry, whatever kind of value that is; under
   "dynamic_cache" an empty cache or nothing; and nothing when the entry is missing.
   */
  lemma {:induction false} ReservedTagGives(entries: seq<Entry>, kind: string, key: string, device: string)
    requires Supported(DictOf(entries)) && Holds(entries, StrKey("__graphkv_kind__"), Str(kind))
    requires (kind, key) in {("tensor", "value"), ("tuple", "items"), ("dynamic_cache", "layers")}
    ensures Pack(DictOf(entries)).Some?
    ensures var w := Unpack(Pack(DictOf(entries)).value, device);
      && ((forall field :: !Holds(entries, StrKey(key), field)) ==> w == None)
      && forall field :: Holds(entries, StrKey(key), field) ==>
           match kind
           case "tensor" => w == None
           case "tuple" => ComesBackAsTuple(field, w, device)
           case _ => ComesBackAsCache(field, w)
  {
    PackRejectsUnsupported(DictOf(entries));
    var w := Unpack(Pack(DictOf(entries)).value, device);
    forall field | Holds(entries, StrKey(key), field)
      ensures kind == "tensor" ==> w == None
      ensures kind == "tuple" ==> ComesBackAsTuple(field, w, device)
      ensures kind == "dynamic_cache" ==> ComesBackAsCache(field, w)
    {
      HoldsFind(entries, StrKey(key), field);
      FieldUnpacks(entries, kind, key, field, device);
      PackIsNoTensor(field);
      TupleFieldGives(field, device);
      CacheFieldGives(field, device);
    }
    if forall field :: !Holds(entries, StrKey(key), field) {
      MissingField(entries, kind, key, device);
    }
  }

  lemma {:induction false} MissingField(entries: seq<Entry>, kind: string, key: string, device: string)
    requires Supported(DictOf(entries)) && Holds(entries, StrKey("__graphkv_kind__"), Str(kind))
    requires (kind, key) in {("tensor", "value"), ("tuple", "items"), ("dynamic_cache", "layers")}
    requires forall field :: !Holds(entries, StrKey(key), field)
    ensures Pack(DictOf(entries)).Some? && Unpack(Pack(DictOf(entries)).value, device) == None
  {
    PackEntriesRejects(entries);
    HoldsFind(entries, KIND, Str(kind));
    if Find(entries, StrKey(key)).Some? {
      HoldsFind(entries, StrKey(key), entries[Find(entries, StrKey(key)).value].value);
    }
    PackedKind(entries);
    PackedFind(entries, StrKey(key));
  }

  // ---------- rebuilding a layered cache ----------

  class DynamicCache {
    var layers: seq<Layer>

    constructor ()
      ensures layers == []
    {
      layers := [];
    }

    /** Updating the layer just past the end adds it. */
    method Update(keys: Tensor, values: Tensor, layerIndex: nat)
      requires layerIndex == |layers|
      modifies this
      ensures layers == old(layers) + [Layer(keys, values)]
    {
      layers := layers + [Layer(keys, values)];
    }
  }

  /** The rebuilt cache has the stored layers, in order, on the device. */
  method RebuildCache(stored: seq<Layer>, device: string) returns (cache: DynamicCache)
    ensures fresh(cache)
    ensures |cache.layers| == |stored|
    ensures forall i :: 0 <= i < |stored| ==>
      cache.layers[i] == Layer(stored[i].keys.(device := device), stored[i].values.(device := device))
  {
    cache := new DynamicCache();
    for i := 0 to |stored|
      invariant fresh(cache) && |cache.layers| == i
      invariant forall j :: 0 <= j < i ==> cache.layers[j] == Layer(stored[j].keys.To(device), stored[j].values.To(device))
    {
      cache.Update(stored[i].keys.To(device), stored[i].values.To(device), i);
    }
  }
}
