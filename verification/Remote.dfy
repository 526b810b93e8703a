/** The state server and its client: one request per connection, over framed byte streams. */
module Remote {
  import opened Wrappers
  import opened Json
  import opened Store
  import opened StoreTheorems
  import opened Protocol

  /** What a request can fail with on the server. */
  datatype Fault =
    | Malformed(error: ProtocolError)
    | KeyRequired
    | UnsupportedOperation
    | BadVersionField(value: Json)
    | Refused(cause: StoreError)

  /** The class of the exception that `int(value)` raises. */
  function IntError(value: Json): PythonError {
    match value
    case JStr(_) => ValueError
    case JFloat(NotANumber) => ValueError
    case JFloat(_) => OverflowError
    case _ => TypeError
  }

  function ClassName(error: PythonError): string {
    match error
    case TypeError => "TypeError"
    case ValueError => "ValueError"
    case OverflowError => "OverflowError"
  }

  /** `type(exc).__name__`. */
  function TypeName(fault: Fault): string {
    match fault
    case Malformed(EndOfStream) => "EOFError"
    case Malformed(NotAnObject) => "AttributeError"
    case Malformed(BadPayloadField(value)) => ClassName(IntError(value))
    case BadVersionField(value) => ClassName(IntError(value))
    case Refused(VersionConflict(_, _)) => "VersionConflict"
    case Refused(BadMetadata(exception)) => ClassName(exception)
    case Refused(_) => "ValueError"
    case _ => "ProtocolError"
  }

  /**
   The two ends: the shared header codec, their payload limits, the text of an exception, and
   the dictionary Python builds from a list it accepts as a list of pairs.
   */
  datatype Link = Link(codec: HeaderCodec, serverMax: nat, clientMax: nat, text: Fault -> string, pairs: seq<Json> -> JsonObject)

  // ---------- Python on JSON values ----------

  /** Python truth of a JSON value. */
  predicate Truthy(value: Json) {
    match value
    case JNull => false
    case JBool(flag) => flag
    case JInt(n) => n != 0
    case JFloat(Finite(_, zero, _)) => !zero
    case JFloat(_) => true
    case JStr(text) => text != ""
    case JList(items) => items != []
    case JObj(fields) => fields != map[]
  }

  /** An item that `dict()` takes for a key and its value: two things, the first of them hashable. */
  predicate Pairlike(item: Json) {
    match item
    case JStr(text) => |text| == 2
    case JList(pair) => |pair| == 2 && !pair[0].JList? && !pair[0].JObj?
    case JObj(fields) => |fields| == 2
    case _ => false
  }

  /** The class of the exception that `dict()` raises at the first item that is not a pair. */
  function PairError(items: seq<Json>): PythonError {
    if items == [] then TypeError
    else if Pairlike(items[0]) then PairError(items[1..])
    else match items[0]
      case JStr(_) => ValueError
      case JList(pair) => if |pair| == 2 then TypeError else ValueError
      case JObj(_) => ValueError
      case _ => TypeError
  }

  /** `dict(value)`. */
  function ToDict(link: Link, value: Json): Metadata {
    match value
    case JObj(fields) => Dictionary(fields)
    case JStr(text) => if text == "" then Dictionary(map[]) else NotADictionary(ValueError)
    case JList(items) =>
      if items == [] then Dictionary(map[])
      else if forall item :: item in items ==> Pairlike(item) then Dictionary(link.pairs(items))
      else NotADictionary(PairError(items))
    case _ => NotADictionary(TypeError)
  }

  // ---------- the server ----------

  function Field(header: Header, name: string): Json {
    if name in header then header[name] else JNull
  }

  function ExpectedVersion(request: Header): Result<Option<int>, Fault> {
    match Field(request, "expected_version")
    case JNull => Ok(None)
    case value => match ToInt(value) case None => Err(BadVersionField(value)) case Some(n) => Ok(Some(n))
  }

  /** What the store makes of a request's metadata: `dict(metadata or {})`. */
  function PutMetadata(link: Link, request: Header): Metadata {
    var value := Field(request, "metadata");
    if Truthy(value) then ToDict(link, value) else Dictionary(map[])
  }

  function StatsHeader(s: StoreState): Header {
    map["stats" := JObj(map["entries" := JInt(|s.records|), "bytes" := JInt(s.bytes),
                            "max_bytes" := JInt(s.maxBytes), "evictions" := JInt(s.evictions)])]
  }

  function GetResponse(found: Option<StateRecord>): (Header, Bytes) {
    match found
    case None => (map["found" := JBool(false)], [])
    case Some(record) =>
      (map["found" := JBool(true), "version" := JInt(record.version), "metadata" := JObj(record.metadata),
           "created_ns" := JInt(record.createdNs)], record.payload)
  }

  function PutResponse(put: Result<StateRecord, StoreError>): Result<(Header, Bytes), Fault> {
    match put
    case Err(error) => Err(Refused(error))
    case Ok(record) => Ok((map["version" := JInt(record.version), "created_ns" := JInt(record.createdNs)], []))
  }

  function DeleteResponse(deleted: Result<bool, StoreError>): Result<(Header, Bytes), Fault> {
    match deleted
    case Err(error) => Err(Refused(error))
    case Ok(flag) => Ok((map["deleted" := JBool(flag)], []))
  }

  /** An operation on one key. */
  function DispatchKey(link: Link, s: StoreState, operation: Json, key: Key, request: Header, payload: Bytes, now: int)
    : (StoreState, Result<(Header, Bytes), Fault>)
  {
    if operation == JStr("get") then
      var (s', found) := StoreGet(s, key);
      (s', Ok(GetResponse(found)))
    else if operation == JStr("put") then
      match ExpectedVersion(request)
      case Err(fault) => (s, Err(fault))
      case Ok(expected) =>
        var (s', put) := StorePutAny(s, key, payload, PutMetadata(link, request), expected, now);
        (s', PutResponse(put))
    else if operation == JStr("delete") then
      match ExpectedVersion(request)
      case Err(fault) => (s, Err(fault))
      case Ok(expected) =>
        var (s', deleted) := StoreDelete(s, key, expected);
        (s', DeleteResponse(deleted))
    else (s, Err(UnsupportedOperation))
  }

  function Dispatch(link: Link, s: StoreState, request: Header, payload: Bytes, now: int): (StoreState, Result<(Header, Bytes), Fault>) {
    var operation := Field(request, "op");
    if operation == JStr("ping") then (s, Ok((map[], [])))
    else if operation == JStr("stats") then (s, Ok((StatsHeader(s), [])))
    else match Field(request, "key")
      case JStr(text) => if text == "" then (s, Err(KeyRequired)) else DispatchKey(link, s, operation, Text(text), request, payload, now)
      case _ => (s, Err(KeyRequired))
  }

  function OkHeader(response: Header): Header {
    map["status" := JStr("ok")] + response
  }

  function ErrorHeader(link: Link, fault: Fault): Header {
    map["status" := JStr("error"), "error_type" := JStr(TypeName(fault)), "error" := JStr(link.text(fault))]
  }

  /** The error envelope; nothing at all when not even that can be framed. */
  function ErrorReply(link: Link, fault: Fault): Bytes {
    match Frame(link.codec, ErrorHeader(link, fault), []) case Ok(frame) => frame case Err(_) => []
  }

  function Reply(link: Link, outcome: Result<(Header, Bytes), Fault>): Bytes {
    match outcome
    case Err(fault) => ErrorReply(link, fault)
    case Ok((response, payload)) =>
      match Frame(link.codec, OkHeader(response), payload)
      case Ok(frame) => frame
      case Err(error) => ErrorReply(link, Malformed(error))
  }

  /** One connection: receive, dispatch, reply. */
  function ServeConnection(link: Link, s: StoreState, inbox: Bytes, now: int): (StoreState, Bytes) {
    match Parse(link.codec, inbox, link.serverMax).0
    case Err(error) => (s, ErrorReply(link, Malformed(error)))
    case Ok((request, payload)) =>
      var (s', outcome) := Dispatch(link, s, request, payload, now);
      (s', Reply(link, outcome))
  }

  // ---------- the client ----------

  datatype ClientError = Conflict | RemoteFailure | Transport(error: ProtocolError) | BadResponse | BadArgument(exception: PythonError)

  function Understand(response: Header, payload: Bytes): Result<(Header, Bytes), ClientError> {
    if Field(response, "status") == JStr("ok") then Ok((response, payload))
    else if Field(response, "error_type") == JStr("VersionConflict") then Err(Conflict)
    else Err(RemoteFailure)
  }

  function ReadReply(link: Link, reply: Bytes): Result<(Header, Bytes), ClientError> {
    match Parse(link.codec, reply, link.clientMax).0
    case Err(error) => Err(Transport(error))
    case Ok((response, received)) => Understand(response, received)
  }

  function Request(link: Link, s: StoreState, header: Header, payload: Bytes, now: int)
    : (StoreState, Result<(Header, Bytes), ClientError>)
  {
    match Frame(link.codec, header, payload)
    case Err(error) => (s, Err(Transport(error)))
    case Ok(frame) =>
      var (s', reply) := ServeConnection(link, s, frame, now);
      (s', ReadReply(link, reply))
  }

  function GetHeader(key: string): Header {
    map["op" := JStr("get"), "key" := JStr(key)]
  }

  function WithExpected(header: Header, expected: Option<int>): Header {
    if expected.Some? then header["expected_version" := JInt(expected.value)] else header
  }

  function PutHeader(key: string, metadata: JsonObject, expected: Option<int>): Header {
    WithExpected(map["op" := JStr("put"), "key" := JStr(key), "metadata" := JObj(metadata)], expected)
  }

  function DeleteHeader(key: string, expected: Option<int>): Header {
    WithExpected(map["op" := JStr("delete"), "key" := JStr(key)], expected)
  }

  /** `dict(header.get("metadata", {}))`. */
  function ResponseMetadata(link: Link, response: Header): Metadata {
    if "metadata" in response then ToDict(link, response["metadata"]) else Dictionary(map[])
  }

  function ReadGet(link: Link, key: string, answer: Result<(Header, Bytes), ClientError>): Result<Option<StateRecord>, ClientError> {
    match answer
    case Err(error) => Err(error)
    case Ok((response, payload)) =>
      if "found" !in response then Err(BadResponse)
      else if !Truthy(response["found"]) then Ok(None)
      else match (ToInt(Field(response, "version")), ResponseMetadata(link, response), ToInt(Field(response, "created_ns")))
        case (Some(version), Dictionary(metadata), Some(createdNs)) =>
          Ok(Some(StateRecord(Text(key), version, payload, metadata, createdNs)))
        case _ => Err(BadResponse)
  }

  function ReadPut(key: string, payload: Bytes, metadata: JsonObject, answer: Result<(Header, Bytes), ClientError>)
    : Result<StateRecord, ClientError>
  {
    match answer
    case Err(error) => Err(error)
    case Ok((response, _)) =>
      match (ToInt(Field(response, "version")), ToInt(Field(response, "created_ns")))
      case (Some(version), Some(createdNs)) => Ok(StateRecord(Text(key), version, payload, metadata, createdNs))
      case _ => Err(BadResponse)
  }

  function ReadDelete(answer: Result<(Header, Bytes), ClientError>): Result<bool, ClientError> {
    match answer
    case Err(error) => Err(error)
    case Ok((response, _)) =>
      if "deleted" in response then Ok(Truthy(response["deleted"])) else Err(BadResponse)
  }

  function ClientGet(link: Link, s: StoreState, key: string, now: int): (StoreState, Result<Option<StateRecord>, ClientError>) {
    var (s', answer) := Request(link, s, GetHeader(key), [], now);
    (s', ReadGet(link, key, answer))
  }

  function ClientPut(link: Link, s: StoreState, key: string, payload: Bytes, metadata: JsonObject, expected: Option<int>, now: int)
    : (StoreState, Result<StateRecord, ClientError>)
  {
    var (s', answer) := Request(link, s, PutHeader(key, metadata, expected), payload, now);
    (s', ReadPut(key, payload, metadata, answer))
  }

  /** The client converts the metadata itself, before anything is sent. */
  function ClientPutAny(link: Link, s: StoreState, key: string, payload: Bytes, metadata: Metadata, expected: Option<int>, now: int)
    : (StoreState, Result<StateRecord, ClientError>)
  {
    match metadata
    case Dictionary(fields) => ClientPut(link, s, key, payload, fields, expected, now)
    case NotADictionary(exception) => (s, Err(BadArgument(exception)))
  }

  function ClientDelete(link: Link, s: StoreState, key: string, expected: Option<int>, now: int)
    : (StoreState, Result<bool, ClientError>)
  {
    var (s', answer) := Request(link, s, DeleteHeader(key, expected), [], now);
    (s', ReadDelete(answer))
  }

  // ---------- simulation ----------

  /** A header and payload get through in one direction. */
  ghost predicate Fits(codec: HeaderCodec, header: Header, payload: Bytes, maxPayload: nat) {
    Frame(codec, header, payload).Ok? && |payload| <= maxPayload
  }

  /** Both frames of a request get through. */
  ghost predicate Deliverable(link: Link, s: StoreState, header: Header, payload: Bytes, now: int) {
    && Fits(link.codec, header, payload, link.serverMax)
    && match Dispatch(link, s, WithPayloadSize(header, payload), payload, now).1
       case Ok((response, sent)) => Fits(link.codec, OkHeader(response), sent, link.clientMax)
       case Err(fault) => Fits(link.codec, ErrorHeader(link, fault), [], link.clientMax)
  }

  /** What the client makes of the server's outcome once both frames got through. */
  function Carried(outcome: Result<(Header, Bytes), Fault>): Result<(Header, Bytes), ClientError> {
    match outcome
    case Ok((response, sent)) => Ok((WithPayloadSize(OkHeader(response), sent), sent))
    case Err(Refused(VersionConflict(_, _))) => Err(Conflict)
    case Err(_) => Err(RemoteFailure)
  }

  lemma ParseFrame(codec: HeaderCodec, header: Header, payload: Bytes, maxPayload: nat)
    requires Faithful(codec) && Fits(codec, header, payload, maxPayload)
    ensures Parse(codec, Frame(codec, header, payload).value, maxPayload).0 == Ok((WithPayloadSize(header, payload), payload))
  {
    FrameRoundTrip(codec, header, payload, [], maxPayload);
    assert Frame(codec, header, payload).value + [] == Frame(codec, header, payload).value;
  }

  /** No response overrides the envelope's status. */
  lemma ResponsesKeepStatus(link: Link, s: StoreState, request: Header, payload: Bytes, now: int)
    ensures var outcome := Dispatch(link, s, request, payload, now).1;
      outcome.Ok? ==> "status" !in outcome.value.0
  {
  }

  lemma ErrorCarried(link: Link, fault: Fault)
    ensures Understand(WithPayloadSize(ErrorHeader(link, fault), []), []) == Carried(Err(fault))
  {
    var header := WithPayloadSize(ErrorHeader(link, fault), []);
    assert Field(header, "status") == JStr("error") && Field(header, "error_type") == JStr(TypeName(fault));
  }

  lemma OkCarried(response: Header, sent: Bytes)
    requires "status" !in response
    ensures Understand(WithPayloadSize(OkHeader(response), sent), sent) == Carried(Ok((response, sent)))
  {
    assert Field(WithPayloadSize(OkHeader(response), sent), "status") == JStr("ok");
  }

  /** The client reads back what the server made of the outcome. */
  lemma ReplyRead(link: Link, outcome: Result<(Header, Bytes), Fault>)
    requires Faithful(link.codec) && (outcome.Ok? ==> "status" !in outcome.value.0)
    requires match outcome
      case Ok((response, sent)) => Fits(link.codec, OkHeader(response), sent, link.clientMax)
      case Err(fault) => Fits(link.codec, ErrorHeader(link, fault), [], link.clientMax)
    ensures ReadReply(link, Reply(link, outcome)) == Carried(outcome)
  {
    match outcome
    case Ok((response, sent)) =>
      ParseFrame(link.codec, OkHeader(response), sent, link.clientMax);
      OkCarried(response, sent);
    case Err(fault) =>
      ParseFrame(link.codec, ErrorHeader(link, fault), [], link.clientMax);
      ErrorCarried(link, fault);
  }

  /** A delivered request is a dispatch on the server's store, seen through the envelope. */
  lemma RequestDispatches(link: Link, s: StoreState, header: Header, payload: Bytes, now: int)
    requires Faithful(link.codec) && Deliverable(link, s, header, payload, now)
    ensures var (s', outcome) := Dispatch(link, s, WithPayloadSize(header, payload), payload, now);
      Request(link, s, header, payload, now) == (s', Carried(outcome))
  {
    ParseFrame(link.codec, header, payload, link.serverMax);
    ResponsesKeepStatus(link, s, WithPayloadSize(header, payload), payload, now);
    ReplyRead(link, Dispatch(link, s, WithPayloadSize(header, payload), payload, now).1);
  }

  /**
   A direct result, as the client reports it: a version conflict and an argument that cannot be
   converted stay what they are, any other refusal is a remote failure.
   */
  function Reported<T>(direct: Result<T, StoreError>): Result<T, ClientError> {
    match direct
    case Ok(value) => Ok(value)
    case Err(VersionConflict(_, _)) => Err(Conflict)
    case Err(BadMetadata(exception)) => Err(BadArgument(exception))
    case Err(_) => Err(RemoteFailure)
  }

  lemma DispatchOnText(link: Link, s: StoreState, request: Header, name: string, key: string, payload: Bytes, now: int)
    requires Field(request, "op") == JStr(name) && name != "ping" && name != "stats"
    requires Field(request, "key") == JStr(key) && key != ""
    ensures Dispatch(link, s, request, payload, now) == DispatchKey(link, s, JStr(name), Text(key), request, payload, now)
  {
  }

  lemma GetRequest(link: Link, s: StoreState, key: string, now: int)
    requires key != ""
    ensures Dispatch(link, s, WithPayloadSize(GetHeader(key), []), [], now) ==
            (StoreGet(s, Text(key)).0, Ok(GetResponse(StoreGet(s, Text(key)).1)))
  {
  }

  lemma PutFields(key: string, metadata: JsonObject, expected: Option<int>, payload: Bytes)
    ensures var request := WithPayloadSize(PutHeader(key, metadata, expected), payload);
      && Field(request, "op") == JStr("put") && Field(request, "key") == JStr(key)
      && Field(request, "metadata") == JObj(metadata)
      && Field(request, "expected_version") == if expected.Some? then JInt(expected.value) else JNull
  {
  }

  lemma PutRequest(link: Link, s: StoreState, key: string, payload: Bytes, metadata: JsonObject, expected: Option<int>, now: int)
    requires key != ""
    ensures Dispatch(link, s, WithPayloadSize(PutHeader(key, metadata, expected), payload), payload, now) ==
      var (s', put) := StorePut(s, Text(key), payload, metadata, expected, now); (s', PutResponse(put))
  {
    var request := WithPayloadSize(PutHeader(key, metadata, expected), payload);
    PutFields(key, metadata, expected, payload);
    DispatchOnText(link, s, request, "put", key, payload, now);
    assert ExpectedVersion(request) == Ok(expected);
    assert PutMetadata(link, request) == Dictionary(metadata);
  }

  lemma DeleteFields(key: string, expected: Option<int>)
    ensures var request := WithPayloadSize(DeleteHeader(key, expected), []);
      && Field(request, "op") == JStr("delete") && Field(request, "key") == JStr(key)
      && Field(request, "expected_version") == if expected.Some? then JInt(expected.value) else JNull
  {
  }

  lemma DeleteRequest(link: Link, s: StoreState, key: string, expected: Option<int>, now: int)
    requires key != ""
    ensures Dispatch(link, s, WithPayloadSize(DeleteHeader(key, expected), []), [], now) ==
      var (s', deleted) := StoreDelete(s, Text(key), expected); (s', DeleteResponse(deleted))
  {
    var request := WithPayloadSize(DeleteHeader(key, expected), []);
    DeleteFields(key, expected);
    DispatchOnText(link, s, request, "delete", key, [], now);
    assert ExpectedVersion(request) == Ok(expected);
  }

  /** The client reads back from the envelope exactly what the server put into it. */
  lemma GetResponseRead(link: Link, key: string, found: Option<StateRecord>)
    requires found.Some? ==> found.value.key == Text(key)
    ensures ReadGet(link, key, Carried(Ok(GetResponse(found)))) == Ok(found)
  {
  }

  lemma PutResponseRead(key: string, payload: Bytes, metadata: JsonObject, put: Result<StateRecord, StoreError>)
    requires put.Ok? ==> put.value.key == Text(key) && put.value.payload == payload && put.value.metadata == metadata
    requires put.Err? ==> !put.error.BadMetadata?
    ensures ReadPut(key, payload, metadata, Carried(PutResponse(put))) == Reported(put)
  {
  }

  lemma DeleteResponseRead(deleted: Result<bool, StoreError>)
    requires deleted.Err? ==> !deleted.error.BadMetadata?
    ensures ReadDelete(Carried(DeleteResponse(deleted))) == Reported(deleted)
  {
  }

  /** A get through the network is a get on the store. */
  lemma {:induction false} GetSimulates(link: Link, s: StoreState, key: string, now: int)
    requires Faithful(link.codec) && key != ""
    requires Deliverable(link, s, GetHeader(key), [], now)
    ensures ClientGet(link, s, key, now) == (StoreGet(s, Text(key)).0, Ok(StoreGet(s, Text(key)).1))
  {
    RequestDispatches(link, s, GetHeader(key), [], now);
    GetRequest(link, s, key, now);
    GetResponseRead(link, key, StoreGet(s, Text(key)).1);
  }

  /** A put through the network is a put on the store. */
  lemma {:induction false} PutSimulates(link: Link, s: StoreState, key: string, payload: Bytes, metadata: JsonObject, expected: Option<int>, now: int)
    requires Faithful(link.codec) && key != ""
    requires Deliverable(link, s, PutHeader(key, metadata, expected), payload, now)
    ensures var (s', put) := StorePut(s, Text(key), payload, metadata, expected, now);
      ClientPut(link, s, key, payload, metadata, expected, now) == (s', Reported(put))
  {
    RequestDispatches(link, s, PutHeader(key, metadata, expected), payload, now);
    PutRequest(link, s, key, payload, metadata, expected, now);
    PutResponseRead(key, payload, metadata, StorePut(s, Text(key), payload, metadata, expected, now).1);
  }

  /** A delete through the network is a delete on the store. */
  lemma {:induction false} DeleteSimulates(link: Link, s: StoreState, key: string, expected: Option<int>, now: int)
    requires Faithful(link.codec) && key != ""
    requires Deliverable(link, s, DeleteHeader(key, expected), [], now)
    ensures var (s', deleted) := StoreDelete(s, Text(key), expected);
      ClientDelete(link, s, key, expected, now) == (s', Reported(deleted))
  {
    RequestDispatches(link, s, DeleteHeader(key, expected), [], now);
    DeleteRequest(link, s, key, expected, now);
    DeleteResponseRead(StoreDelete(s, Text(key), expected).1);
  }

  // ---------- sessions ----------

  datatype Answer =
    | GotRecord(record: Option<StateRecord>)
    | Stored(put: Result<StateRecord, ClientError>)
    | Deleted(deleted: Result<bool, ClientError>)
    | Failed(error: ClientError)

  function KeyText(op: Op): string {
    if op.key.Text? then op.key.text else ""
  }

  function Direct(s: StoreState, op: Op): (StoreState, Answer) {
    match op
    case Get(key) => var (s', found) := StoreGet(s, key); (s', GotRecord(found))
    case Put(key, payload, metadata, expected, now) =>
      var (s', put) := StorePut(s, key, payload, metadata, expected, now); (s', Stored(Reported(put)))
    case BadPut(key, payload, expected, exception) =>
      var (s', error) := StoreBadPut(s, key, payload, expected, exception); (s', Stored(Reported(Err(error))))
    case Delete(key, expected) =>
      var (s', deleted) := StoreDelete(s, key, expected); (s', Deleted(Reported(deleted)))
  }

  function Networked(link: Link, s: StoreState, op: Op): (StoreState, Answer) {
    var key := KeyText(op);
    match op
    case Get(_) =>
      var (s', got) := ClientGet(link, s, key, 0);
      (s', match got case Ok(found) => GotRecord(found) case Err(error) => Failed(error))
    case Put(_, payload, metadata, expected, now) =>
      var (s', put) := ClientPut(link, s, key, payload, metadata, expected, now); (s', Stored(put))
    case BadPut(_, payload, expected, exception) =>
      var (s', put) := ClientPutAny(link, s, key, payload, NotADictionary(exception), expected, 0); (s', Stored(put))
    case Delete(_, expected) =>
      var (s', deleted) := ClientDelete(link, s, key, expected, 0); (s', Deleted(deleted))
  }

  ghost predicate OpDeliverable(link: Link, s: StoreState, op: Op) {
    var key := KeyText(op);
    match op
    case Get(_) => Deliverable(link, s, GetHeader(key), [], 0)
    case Put(_, payload, metadata, expected, now) => Deliverable(link, s, PutHeader(key, metadata, expected), payload, now)
    case BadPut(_, _, _, _) => true
    case Delete(_, expected) => Deliverable(link, s, DeleteHeader(key, expected), [], 0)
  }

  function DirectSession(s: StoreState, ops: seq<Op>): (StoreState, seq<Answer>)
    decreases |ops|
  {
    if ops == [] then (s, [])
    else
      var (s', first) := Direct(s, ops[0]);
      var (end, more) := DirectSession(s', ops[1..]);
      (end, [first] + more)
  }

  function NetworkedSession(link: Link, s: StoreState, ops: seq<Op>): (StoreState, seq<Answer>)
    decreases |ops|
  {
    if ops == [] then (s, [])
    else
      var (s', first) := Networked(link, s, ops[0]);
      var (end, more) := NetworkedSession(link, s', ops[1..]);
      (end, [first] + more)
  }

  /** Every frame of the session, run directly, would get through. */
  ghost predicate SessionDeliverable(link: Link, s: StoreState, ops: seq<Op>)
    decreases |ops|
  {
    ops == [] || (OpDeliverable(link, s, ops[0]) && SessionDeliverable(link, Direct(s, ops[0]).0, ops[1..]))
  }

  /**
   When an operation through the network is the operation on the store.  A put always is.  A get
   or a delete is unless the key is empty.  A put whose metadata cannot be converted fails in
   the client and touches nothing, so it is when the store would neither refuse it for another
   reason nor forget a payload over it.
   */
  predicate Agrees(s: StoreState, op: Op) {
    match op
    case Put(_, _, _, _, _) => true
    case BadPut(key, payload, expected, _) => PutFault(s, key, payload, expected) == None && SizeOf(Lookup(s.records, key)) == 0
    case _ => KeyText(op) != ""
  }

  /** On the empty key the server refuses every operation and touches nothing. */
  lemma {:induction false} EmptyKeyRefused(link: Link, s: StoreState, header: Header, payload: Bytes, now: int)
    requires Faithful(link.codec) && Deliverable(link, s, header, payload, now)
    requires Field(header, "key") == JStr("") && Field(header, "op") in [JStr("get"), JStr("put"), JStr("delete")]
    ensures Request(link, s, header, payload, now) == (s, Err(RemoteFailure))
  {
    RequestDispatches(link, s, header, payload, now);
    assert Field(WithPayloadSize(header, payload), "key") == JStr("");
    assert Field(WithPayloadSize(header, payload), "op") == Field(header, "op");
  }

  lemma EmptyKeyDirect(s: StoreState, op: Op)
    requires ValidStore(s) && op.key == Text("") && !op.BadPut?
    ensures Direct(s, op) == (s, match op
      case Get(_) => GotRecord(None)
      case Put(_, _, _, _, _) => Stored(Err(RemoteFailure))
      case _ => Deleted(Ok(false)))
  {
    assert Text("") !in KeysOf(s.records);
  }

  lemma EmptyKeyExactly(link: Link, s: StoreState, op: Op)
    requires Faithful(link.codec) && ValidStore(s) && op.key == Text("") && OpDeliverable(link, s, op) && !op.BadPut?
    ensures Networked(link, s, op) == Direct(s, op) <==> op.Put?
  {
    EmptyKeyDirect(s, op);
    match op
    case Get(_) => EmptyKeyRefused(link, s, GetHeader(""), [], 0);
    case Put(_, payload, metadata, expected, now) =>
      PutHeaderFields("", metadata, expected);
      EmptyKeyRefused(link, s, PutHeader("", metadata, expected), payload, now);
    case Delete(_, expected) =>
      DeleteHeaderFields("", expected);
      EmptyKeyRefused(link, s, DeleteHeader("", expected), [], 0);
  }

  lemma PutHeaderFields(key: string, metadata: JsonObject, expected: Option<int>)
    ensures Field(PutHeader(key, metadata, expected), "op") == JStr("put")
    ensures Field(PutHeader(key, metadata, expected), "key") == JStr(key)
  {
  }

  lemma DeleteHeaderFields(key: string, expected: Option<int>)
    ensures Field(DeleteHeader(key, expected), "op") == JStr("delete")
    ensures Field(DeleteHeader(key, expected), "key") == JStr(key)
  {
  }

  lemma BadPutExactly(link: Link, s: StoreState, op: Op)
    requires op.BadPut? && op.key.Text?
    ensures Networked(link, s, op) == Direct(s, op) <==> Agrees(s, op)
  {
  }

  lemma {:induction false} KeyedSimulates(link: Link, s: StoreState, op: Op)
    requires Faithful(link.codec) && op.key.Text? && op.key.text != "" && OpDeliverable(link, s, op) && !op.BadPut?
    ensures Networked(link, s, op) == Direct(s, op)
  {
    var key := KeyText(op);
    match op
    case Get(_) => GetSimulates(link, s, key, 0);
    case Put(_, payload, metadata, expected, now) => PutSimulates(link, s, key, payload, metadata, expected, now);
    case Delete(_, expected) => DeleteSimulates(link, s, key, expected, 0);
  }

  /** Client and store differ on a delivered operation exactly when it does not agree. */
  lemma AgreeExactly(link: Link, s: StoreState, op: Op)
    requires Faithful(link.codec) && ValidStore(s) && op.key.Text? && OpDeliverable(link, s, op)
    ensures Networked(link, s, op) == Direct(s, op) <==> Agrees(s, op)
  {
    if op.BadPut? {
      BadPutExactly(link, s, op);
    } else if KeyText(op) != "" {
      KeyedSimulates(link, s, op);
    } else {
      EmptyKeyExactly(link, s, op);
    }
  }

  /** Every operation of the session agrees with the store as it is then. */
  ghost predicate SessionAgrees(s: StoreState, ops: seq<Op>)
    decreases |ops|
  {
    ops == [] || (ops[0].key.Text? && Agrees(s, ops[0]) && SessionAgrees(Direct(s, ops[0]).0, ops[1..]))
  }

  lemma DirectIsStep(s: StoreState, op: Op)
    ensures Direct(s, op).0 == Step(s, op)
  {
  }

  /** For any sequence of agreeing operations the client's answers and the server's final store are those of direct calls. */
  lemma {:induction false} SessionSimulates(link: Link, s: StoreState, ops: seq<Op>)
    requires Faithful(link.codec) && ValidStore(s)
    requires SessionAgrees(s, ops) && SessionDeliverable(link, s, ops)
    ensures NetworkedSession(link, s, ops) == DirectSession(s, ops)
    decreases |ops|
  {
    if ops != [] {
      AgreeExactly(link, s, ops[0]);
      DirectIsStep(s, ops[0]);
      StepValid(s, ops[0]);
      SessionSimulates(link, Direct(s, ops[0]).0, ops[1..]);
    }
  }

  // ---------- what requests do to the store ----------

  /** The store operation a request amounts to, if it gets as far as the store's records. */
  function RequestOp(link: Link, request: Header, payload: Bytes, now: int): Option<Op> {
    var operation := Field(request, "op");
    if operation == JStr("ping") || operation == JStr("stats") then None
    else match Field(request, "key")
      case JStr(text) => if text == "" then None else KeyOp(link, operation, Text(text), request, payload, now)
      case _ => None
  }

  function KeyOp(link: Link, operation: Json, key: Key, request: Header, payload: Bytes, now: int): Option<Op> {
    if operation == JStr("get") then Some(Get(key))
    else match (ExpectedVersion(request), PutMetadata(link, request))
      case (Err(_), _) => None
      case (Ok(expected), Dictionary(fields)) =>
        if operation == JStr("put") then Some(Put(key, payload, fields, expected, now))
        else if operation == JStr("delete") then Some(Delete(key, expected)) else None
      case (Ok(expected), NotADictionary(exception)) =>
        if operation == JStr("put") then Some(BadPut(key, payload, expected, exception))
        else if operation == JStr("delete") then Some(Delete(key, expected)) else None
  }

  /** Whatever a request holds, it is one operation of the store or leaves the store alone. */
  lemma DispatchIsStep(link: Link, s: StoreState, request: Header, payload: Bytes, now: int)
    ensures Dispatch(link, s, request, payload, now).0 ==
      match RequestOp(link, request, payload, now) case None => s case Some(op) => Step(s, op)
  {
  }

  datatype Arrival = Arrival(request: Header, payload: Bytes, now: int)

  function DispatchAll(link: Link, s: StoreState, arrivals: seq<Arrival>): StoreState {
    if arrivals == [] then s
    else
      var last := arrivals[|arrivals| - 1];
      Dispatch(link, DispatchAll(link, s, arrivals[..|arrivals| - 1]), last.request, last.payload, last.now).0
  }

  function ArrivalOps(link: Link, arrivals: seq<Arrival>): seq<Op> {
    if arrivals == [] then []
    else
      var last := arrivals[|arrivals| - 1];
      var op := RequestOp(link, last.request, last.payload, last.now);
      ArrivalOps(link, arrivals[..|arrivals| - 1]) + if op.Some? then [op.value] else []
  }

  /** So whatever requests a server receives, its store has the history of their operations. */
  lemma {:induction false} ServerRuns(link: Link, s: StoreState, arrivals: seq<Arrival>)
    ensures DispatchAll(link, s, arrivals) == Run(s, ArrivalOps(link, arrivals))
  {
    if arrivals != [] {
      var before, last := arrivals[..|arrivals| - 1], arrivals[|arrivals| - 1];
      ServerRuns(link, s, before);
      DispatchIsStep(link, DispatchAll(link, s, before), last.request, last.payload, last.now);
      var op := RequestOp(link, last.request, last.payload, last.now);
      if op.Some? {
        assert (ArrivalOps(link, before) + [op.value])[..|ArrivalOps(link, before)|] == ArrivalOps(link, before);
      } else {
        assert ArrivalOps(link, before) + [] == ArrivalOps(link, before);
      }
    }
  }

  /** A put that sends a nonzero number as its metadata fails, keeps the record, and loses its bytes from the counter. */
  lemma NumberAsMetadata(link: Link, s: StoreState, key: string, number: int, payload: Bytes, now: int)
    requires ValidStore(s) && key != "" && number != 0 && |payload| <= s.maxBytes
    ensures var request := map["op" := JStr("put"), "key" := JStr(key), "metadata" := JInt(number)];
      Dispatch(link, s, request, payload, now) ==
      (s.(bytes := s.bytes - SizeOf(Lookup(s.records, Text(key)))), Err(Refused(BadMetadata(TypeError))))
  {
    var request := map["op" := JStr("put"), "key" := JStr(key), "metadata" := JInt(number)];
    DispatchOnText(link, s, request, "put", key, payload, now);
    assert ExpectedVersion(request) == Ok(None);
    assert PutMetadata(link, request) == NotADictionary(TypeError);
  }

  // ---------- the objects ----------

  class StateTcpServer {
    const store: MemoryStateStore
    const link: Link

    constructor (store: MemoryStateStore, link: Link)
      ensures this.store == store && this.link == link
    {
      this.store := store;
      this.link := link;
    }

    /** One connection: receive a request, dispatch it, send the response or the error envelope. */
    method Handle(sock: Socket, now: int)
      requires store.Valid()
      modifies store, sock
      ensures store.Valid()
      ensures store.State() == ServeConnection(link, old(store.State()), old(sock.inbox), now).0
      ensures sock.outbox == old(sock.outbox) + ServeConnection(link, old(store.State()), old(sock.inbox), now).1
    {
      var received := RecvFrame(sock, link.codec, link.serverMax);
      if received.Err? {
        SendError(sock, Malformed(received.error));
        return;
      }
      var outcome := DispatchOn(received.value.0, received.value.1, now);
      SendReply(sock, outcome);
    }

    method SendReply(sock: Socket, outcome: Result<(Header, Bytes), Fault>)
      modifies sock
      ensures sock.outbox == old(sock.outbox) + Reply(link, outcome)
    {
      if outcome.Err? {
        SendError(sock, outcome.error);
        return;
      }
      var failed := SendFrame(sock, link.codec, OkHeader(outcome.value.0), outcome.value.1);
      if failed.Some? {
        SendError(sock, Malformed(failed.value));
      }
    }

    method SendError(sock: Socket, fault: Fault)
      modifies sock`outbox
      ensures sock.outbox == old(sock.outbox) + ErrorReply(link, fault)
    {
      var failed := SendFrame(sock, link.codec, ErrorHeader(link, fault), []);
      if failed.Some? {
        assert sock.outbox + [] == sock.outbox;
      }
    }

    method DispatchOn(request: Header, payload: Bytes, now: int) returns (outcome: Result<(Header, Bytes), Fault>)
      requires store.Valid()
      modifies store
      ensures store.Valid() && (store.State(), outcome) == Dispatch(link, old(store.State()), request, payload, now)
    {
      var operation := Field(request, "op");
      if operation == JStr("ping") {
        return Ok((map[], []));
      }
      if operation == JStr("stats") {
        return Ok((map["stats" := JObj(map["entries" := JInt(|store.records|), "bytes" := JInt(store.bytes),
                                           "max_bytes" := JInt(store.maxBytes), "evictions" := JInt(store.evictions)])], []));
      }
      var key := Field(request, "key");
      if !key.JStr? || key.text == "" {
        return Err(KeyRequired);
      }
      outcome := DispatchOnKey(operation, Text(key.text), request, payload, now);
    }

    method DispatchOnKey(operation: Json, key: Key, request: Header, payload: Bytes, now: int)
      returns (outcome: Result<(Header, Bytes), Fault>)
      requires store.Valid()
      modifies store
      ensures store.Valid() && (store.State(), outcome) == DispatchKey(link, old(store.State()), operation, key, request, payload, now)
    {
      if operation == JStr("get") {
        var found := store.Get(key);
        return Ok(GetResponse(found));
      }
      if operation == JStr("put") {
        var expected := ExpectedVersion(request);
        if expected.Err? {
          return Err(expected.error);
        }
        var put := store.Put(key, payload, PutMetadata(link, request), expected.value, now);
        return PutResponse(put);
      }
      if operation == JStr("delete") {
        var expected := ExpectedVersion(request);
        if expected.Err? {
          return Err(expected.error);
        }
        var deleted := store.Delete(key, expected.value);
        return DeleteResponse(deleted);
      }
      return Err(UnsupportedOperation);
    }
  }

  class TcpStateStoreClient {
    const server: StateTcpServer

    constructor (server: StateTcpServer)
      ensures this.server == server
    {
      this.server := server;
    }

    /** A fresh connection for each request. */
    method Exchange(header: Header, payload: Bytes, now: int) returns (r: Result<(Header, Bytes), ClientError>)
      requires server.store.Valid()
      modifies server.store
      ensures server.store.Valid()
      ensures (server.store.State(), r) == Request(server.link, old(server.store.State()), header, payload, now)
    {
      var sock := new Socket([]);
      var failed := SendFrame(sock, server.link.codec, header, payload);
      if failed.Some? {
        return Err(Transport(failed.value));
      }
      var accepted := new Socket(sock.outbox);
      assert sock.outbox == Frame(server.link.codec, header, payload).value;
      server.Handle(accepted, now);
      assert accepted.outbox == ServeConnection(server.link, old(server.store.State()), sock.outbox, now).1;
      sock.inbox := accepted.outbox;
      r := Receive(sock);
    }

    method Receive(sock: Socket) returns (r: Result<(Header, Bytes), ClientError>)
      modifies sock`inbox
      ensures r == ReadReply(server.link, old(sock.inbox))
    {
      var received := RecvFrame(sock, server.link.codec, server.link.clientMax);
      if received.Err? {
        return Err(Transport(received.error));
      }
      return Understand(received.value.0, received.value.1);
    }

    method Get(key: string, now: int) returns (r: Result<Option<StateRecord>, ClientError>)
      requires server.store.Valid()
      modifies server.store
      ensures server.store.Valid()
      ensures (server.store.State(), r) == ClientGet(server.link, old(server.store.State()), key, now)
    {
      var answer := Exchange(GetHeader(key), [], now);
      return ReadGet(server.link, key, answer);
    }

    method Put(key: string, payload: Bytes, metadata: Metadata, expected: Option<int>, now: int)
      returns (r: Result<StateRecord, ClientError>)
      requires server.store.Valid()
      modifies server.store
      ensures server.store.Valid()
      ensures (server.store.State(), r) ==
        ClientPutAny(server.link, old(server.store.State()), key, payload, metadata, expected, now)
    {
      if metadata.NotADictionary? {
        return Err(BadArgument(metadata.exception));
      }
      var answer := Exchange(PutHeader(key, metadata.fields, expected), payload, now);
      return ReadPut(key, payload, metadata.fields, answer);
    }

    method Delete(key: string, expected: Option<int>, now: int) returns (r: Result<bool, ClientError>)
      requires server.store.Valid()
      modifies server.store
      ensures server.store.Valid()
      ensures (server.store.State(), r) == ClientDelete(server.link, old(server.store.State()), key, expected, now)
    {
      var answer := Exchange(DeleteHeader(key, expected), [], now);
      return ReadDelete(answer);
    }
  }
}
