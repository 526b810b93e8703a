/** What the server answers to each request, on the wire's own terms, and what a client makes of a request that does not get through. */
module RemoteTheorems {
  import opened Wrappers
  import opened Json
  import opened Store
  import opened StoreOperations
  import opened Protocol
  import opened Remote

  /** The request names this operation and this key. */
  ghost predicate Asks(request: Header, operation: string, key: string) {
    "op" in request && request["op"] == JStr(operation) && "key" in request && request["key"] == JStr(key)
  }

  /** The request's expected version, absent when it is missing or null. */
  ghost predicate Expects(request: Header, expected: Option<int>) {
    if "expected_version" !in request || request["expected_version"] == JNull then expected == None
    else expected.Some? && StandsFor(request["expected_version"], expected.value)
  }

  lemma ExpectsVersion(request: Header, expected: Option<int>)
    requires Expects(request, expected)
    ensures ExpectedVersion(request) == Ok(expected)
  {
  }

  // ---------- answers ----------

  lemma ServedGet(link: Link, s: StoreState, request: Header, key: string, payload: Bytes, now: int, found: Option<StateRecord>)
    requires ValidStore(s) && key != "" && Asks(request, "get", key) && Shared(s, Text(key), found)
    ensures Dispatch(link, s, request, payload, now) == (StoreGet(s, Text(key)).0, Ok(match found
      case None => (map["found" := JBool(false)], [])
      case Some(record) =>
        (map["found" := JBool(true), "version" := JInt(record.version), "metadata" := JObj(record.metadata),
             "created_ns" := JInt(record.createdNs)], record.payload)))
  {
    SharedLookup(s, Text(key), found);
    DispatchOnText(link, s, request, "get", key, payload, now);
  }

  /** A put of an object that passes the checks is answered with its new version and time; one that does not, with its error. */
  lemma ServedPut(link: Link, s: StoreState, request: Header, key: string, fields: JsonObject, expected: Option<int>, payload: Bytes,
                  now: int, stored: int)
    requires ValidStore(s) && key != "" && Asks(request, "put", key) && Expects(request, expected)
    requires "metadata" in request && request["metadata"] == JObj(fields)
    requires StoredVersion(s, Text(key), stored)
    ensures Dispatch(link, s, request, payload, now).0 == StorePut(s, Text(key), payload, fields, expected, now).0
    ensures Dispatch(link, s, request, payload, now).1 ==
      if |payload| > s.maxBytes then Err(Refused(PayloadTooLarge))
      else if expected.Some? && expected.value != stored then Err(Refused(VersionConflict(expected.value, stored)))
      else Ok((map["version" := JInt(stored + 1), "created_ns" := JInt(now)], []))
  {
    ExpectsVersion(request, expected);
    DispatchOnText(link, s, request, "put", key, payload, now);
    assert PutMetadata(link, request) == Dictionary(fields);
    PutRefusals(s, Text(key), payload, Dictionary(fields), expected, now, stored);
    PutExactly(s, Text(key), payload, fields, expected, now, stored);
  }

  lemma ServedDelete(link: Link, s: StoreState, request: Header, key: string, expected: Option<int>, payload: Bytes, now: int,
                     found: Option<StateRecord>)
    requires ValidStore(s) && key != "" && Asks(request, "delete", key) && Expects(request, expected) && Shared(s, Text(key), found)
    ensures Dispatch(link, s, request, payload, now).0 == StoreDelete(s, Text(key), expected).0
    ensures Dispatch(link, s, request, payload, now).1 == match found
      case None => Ok((map["deleted" := JBool(false)], []))
      case Some(record) =>
        if expected.Some? && expected.value != record.version then Err(Refused(VersionConflict(expected.value, record.version)))
        else Ok((map["deleted" := JBool(true)], []))
  {
    ExpectsVersion(request, expected);
    SharedLookup(s, Text(key), found);
    DispatchOnText(link, s, request, "delete", key, payload, now);
  }

  /** The statistics give the number of records, the byte counter, the bound and the evictions; a ping gives nothing. */
  lemma ServedStats(link: Link, s: StoreState, request: Header, payload: Bytes, now: int)
    requires "op" in request
    ensures request["op"] == JStr("ping") ==> Dispatch(link, s, request, payload, now) == (s, Ok((map[], [])))
    ensures request["op"] == JStr("stats") ==>
      Dispatch(link, s, request, payload, now) ==
      (s, Ok((map["stats" := JObj(map["entries" := JInt(|s.records|), "bytes" := JInt(s.bytes), "max_bytes" := JInt(s.maxBytes),
                                      "evictions" := JInt(s.evictions)])], [])))
  {
  }

  // ---------- refusals ----------

  /** A request without a nonempty string as key, other than a ping or for statistics, is refused. */
  lemma KeylessRefused(link: Link, s: StoreState, request: Header, payload: Bytes, now: int)
    requires "op" in request ==> request["op"] != JStr("ping") && request["op"] != JStr("stats")
    requires "key" in request ==> !request["key"].JStr? || request["key"] == JStr("")
    ensures Dispatch(link, s, request, payload, now) == (s, Err(KeyRequired)) && TypeName(KeyRequired) == "ProtocolError"
  {
  }

  /** So is an operation that is none of the five. */
  lemma UnknownRefused(link: Link, s: StoreState, request: Header, key: string, payload: Bytes, now: int)
    requires "key" in request && request["key"] == JStr(key) && key != ""
    requires "op" in request ==>
      request["op"] !in {JStr("ping"), JStr("stats"), JStr("get"), JStr("put"), JStr("delete")}
    ensures Dispatch(link, s, request, payload, now) == (s, Err(UnsupportedOperation)) && TypeName(UnsupportedOperation) == "ProtocolError"
  {
  }

  /** So is a put or a delete whose expected version is no number, with the exception that Python's conversion raises. */
  lemma BadVersionRefused(link: Link, s: StoreState, request: Header, operation: string, key: string, payload: Bytes, now: int)
    requires operation in {"put", "delete"} && key != "" && Asks(request, operation, key)
    requires "expected_version" in request && request["expected_version"] != JNull
    requires forall n :: !StandsFor(request["expected_version"], n)
    ensures var value := request["expected_version"];
      && Dispatch(link, s, request, payload, now) == (s, Err(BadVersionField(value)))
      && TypeName(BadVersionField(value)) ==
         if value.JStr? || value == JFloat(NotANumber) then "ValueError"
         else if value.JFloat? then "OverflowError" else "TypeError"
  {
    ToIntStands(request["expected_version"]);
    DispatchOnText(link, s, request, operation, key, payload, now);
  }

  /** The class of the exception each error of the store is reported with. */
  lemma StoreErrorNames(expected: int, found: int)
    ensures TypeName(Refused(VersionConflict(expected, found))) == "VersionConflict"
    ensures TypeName(Refused(PayloadTooLarge)) == "ValueError" && TypeName(Refused(EmptyKey)) == "ValueError"
    ensures TypeName(Refused(BadMetadata(TypeError))) == "TypeError" && TypeName(Refused(BadMetadata(ValueError))) == "ValueError"
  {
  }

  /** The values Python takes for false. */
  ghost predicate IsFalse(value: Json) {
    || value in {JNull, JBool(false), JInt(0), JStr(""), JList([]), JObj(map[])}
    || (value.JFloat? && value.float.Finite? && value.float.zero)
  }

  lemma TruthExactly(value: Json)
    ensures Truthy(value) <==> !IsFalse(value)
  {
  }

  /** An item that is a pair with a hashable first element: two characters, two values, or a dictionary of two. */
  ghost predicate IsPair(item: Json) {
    || (item.JStr? && exists a, b :: item.text == [a, b])
    || (item.JList? && exists a, b :: item.items == [a, b] && !a.JList? && !a.JObj?)
    || (item.JObj? && |item.fields.Keys| == 2)
  }

  lemma PairsExactly(item: Json)
    ensures Pairlike(item) <==> IsPair(item)
  {
    match item
    case JStr(text) =>
      if |text| == 2 { assert text == [text[0], text[1]]; }
    case JList(pair) =>
      if |pair| == 2 { assert pair == [pair[0], pair[1]]; }
    case JObj(fields) => assert |fields| == |fields.Keys|;
    case _ =>
  }

  /**
   Which metadata a put request may carry: none, null, or any false value, for an empty
   dictionary; an object; a list of pairs.  Everything else cannot be converted.
   */
  lemma MetadataExactly(link: Link, request: Header)
    ensures var metadata := PutMetadata(link, request);
      if "metadata" !in request then metadata == Dictionary(map[])
      else match request["metadata"]
        case JNull => metadata == Dictionary(map[])
        case JBool(flag) => if flag then metadata == NotADictionary(TypeError) else metadata == Dictionary(map[])
        case JInt(n) => if n != 0 then metadata == NotADictionary(TypeError) else metadata == Dictionary(map[])
        case JFloat(Finite(_, zero, _)) => if !zero then metadata == NotADictionary(TypeError) else metadata == Dictionary(map[])
        case JFloat(_) => metadata == NotADictionary(TypeError)
        case JStr(text) => if text != "" then metadata == NotADictionary(ValueError) else metadata == Dictionary(map[])
        case JObj(fields) => metadata == Dictionary(fields)
        case JList(items) =>
          if items == [] then metadata == Dictionary(map[])
          else metadata == Dictionary(link.pairs(items)) || metadata.NotADictionary?
    ensures "metadata" in request && request["metadata"].JList? && request["metadata"].items != [] ==>
      (PutMetadata(link, request).Dictionary? <==> forall item :: item in request["metadata"].items ==> IsPair(item))
  {
    forall item ensures Pairlike(item) <==> IsPair(item) {
      PairsExactly(item);
    }
  }

  /** A list that is not all pairs fails at its first item that is none, by the kind of that item. */
  lemma {:induction false} PairErrorExactly(items: seq<Json>) returns (k: nat)
    requires exists item :: item in items && !IsPair(item)
    ensures k < |items| && !IsPair(items[k]) && forall j :: 0 <= j < k ==> IsPair(items[j])
    ensures PairError(items) ==
      if items[k].JStr? || items[k].JObj? || (items[k].JList? && |items[k].items| != 2) then ValueError else TypeError
  {
    PairsExactly(items[0]);
    if Pairlike(items[0]) {
      assert forall item :: item in items ==> item == items[0] || item in items[1..];
      var k' := PairErrorExactly(items[1..]);
      k := k' + 1;
      assert forall j :: 0 < j < |items| ==> items[j] == items[1..][j - 1];
    } else {
      k := 0;
    }
  }

  /** `dict` itself takes an object, an empty string, and a list of pairs. */
  lemma DictExactly(link: Link, value: Json)
    ensures ToDict(link, value).Dictionary? <==>
      value.JObj? || value == JStr("") || (value.JList? && forall item :: item in value.items ==> IsPair(item))
    ensures value.JObj? ==> ToDict(link, value) == Dictionary(value.fields)
    ensures value == JStr("") || value == JList([]) ==> ToDict(link, value) == Dictionary(map[])
  {
    forall item ensures Pairlike(item) <==> IsPair(item) {
      PairsExactly(item);
    }
  }

  // ---------- what the client makes of a response ----------

  /** The response tells a version, a time and a dictionary, or names none. */
  ghost predicate Tells(link: Link, response: Header, version: int, createdNs: int, fields: JsonObject) {
    && "version" in response && StandsFor(response["version"], version)
    && "created_ns" in response && StandsFor(response["created_ns"], createdNs)
    && if "metadata" in response then ToDict(link, response["metadata"]) == Dictionary(fields) else fields == map[]
  }

  lemma FieldStands(response: Header, name: string)
    ensures ToInt(Field(response, name)).Some? <==> exists n :: name in response && StandsFor(response[name], n)
    ensures forall n :: name in response && StandsFor(response[name], n) <==> ToInt(Field(response, name)) == Some(n)
  {
    if name in response {
      ToIntStands(response[name]);
      forall n ensures StandsFor(response[name], n) <==> ToInt(response[name]) == Some(n) {}
    }
    if ToInt(Field(response, name)).Some? {
      assert name in response && StandsFor(response[name], ToInt(Field(response, name)).value);
    }
  }

  /** A get's response must say whether the key was found, and if so hold a whole record; the record is the one told. */
  lemma ReadGetExactly(link: Link, key: string, response: Header, payload: Bytes)
    ensures var r := ReadGet(link, key, Ok((response, payload)));
      if "found" !in response then r == Err(BadResponse)
      else if IsFalse(response["found"]) then r == Ok(None)
      else
        && (r == Err(BadResponse) || (r.Ok? && r.value.Some?))
        && forall version, createdNs, fields ::
             Tells(link, response, version, createdNs, fields) <==>
             r == Ok(Some(StateRecord(Text(key), version, payload, fields, createdNs)))
  {
    if "found" in response { TruthExactly(response["found"]); }
    FieldStands(response, "version");
    FieldStands(response, "created_ns");
  }

  /** A delete's response must say whether something was deleted. */
  lemma ReadDeleteExactly(response: Header, payload: Bytes)
    ensures var r := ReadDelete(Ok((response, payload)));
      if "deleted" !in response then r == Err(BadResponse) else r == Ok(!IsFalse(response["deleted"]))
  {
    if "deleted" in response { TruthExactly(response["deleted"]); }
  }

  // ---------- requests that do not get through ----------

  /** Every error envelope fits a frame. */
  ghost predicate EnvelopesFit(link: Link) {
    forall fault :: Fits(link.codec, ErrorHeader(link, fault), [], link.clientMax)
  }

  lemma ErrorRead(link: Link, fault: Fault)
    requires Faithful(link.codec) && EnvelopesFit(link)
    ensures ReadReply(link, ErrorReply(link, fault)) == Carried(Err(fault))
  {
    assert Fits(link.codec, ErrorHeader(link, fault), [], link.clientMax);
    ParseFrame(link.codec, ErrorHeader(link, fault), [], link.clientMax);
    ErrorCarried(link, fault);
  }

  /** A frame whose payload is over the receiver's limit is refused, whatever follows. */
  lemma OversizedParse(codec: HeaderCodec, header: Header, payload: Bytes, maxPayload: nat)
    requires Faithful(codec) && Frame(codec, header, payload).Ok? && |payload| > maxPayload
    ensures Parse(codec, Frame(codec, header, payload).value, maxPayload).0 == Err(PayloadNotAllowed(|payload|))
  {
    var sized := header["payload_bytes" := JInt(|payload|)];
    var encoded, stream := codec.encode(sized), Frame(codec, header, payload).value;
    FrameExactly(codec, header, payload);
    PrefixRoundTrip(|encoded|);
    ParseExactly(codec, stream, |encoded|, maxPayload);
    assert StandsFor(sized["payload_bytes"], |payload|);
  }

  /** What the client reads when the server has an outcome to send. */
  ghost predicate Answers(link: Link, outcome: Result<(Header, Bytes), Fault>, answer: Result<(Header, Bytes), ClientError>) {
    match outcome
    case Err(Refused(VersionConflict(_, _))) => answer == Err(Conflict)
    case Err(_) => answer == Err(RemoteFailure)
    case Ok((response, sent)) =>
      var full := (map["status" := JStr("ok")] + response)["payload_bytes" := JInt(|sent|)];
      if |link.codec.encode(full)| > 0x10_0000 then answer == Err(RemoteFailure)
      else if |sent| > link.clientMax then answer == Err(Transport(PayloadNotAllowed(|sent|)))
      else answer == Ok((full, sent))
  }

  lemma ReplyExactly(link: Link, outcome: Result<(Header, Bytes), Fault>)
    requires Faithful(link.codec) && EnvelopesFit(link) && (outcome.Ok? ==> "status" !in outcome.value.0)
    ensures Answers(link, outcome, ReadReply(link, Reply(link, outcome)))
  {
    match outcome
    case Err(fault) => ErrorRead(link, fault);
    case Ok((response, sent)) =>
      FrameExactly(link.codec, OkHeader(response), sent);
      match Frame(link.codec, OkHeader(response), sent)
      case Err(error) => ErrorRead(link, Malformed(error));
      case Ok(_) =>
        if |sent| > link.clientMax {
          OversizedParse(link.codec, OkHeader(response), sent, link.clientMax);
        } else {
          ReplyRead(link, outcome);
        }
  }

  /**
   A request, exactly: a header over one mebibyte is not sent; a payload over the server's
   limit is refused there; every other request is a dispatch, even if the client then cannot
   read the response because its header is too long or its payload over the client's limit.
   */
  lemma RequestExactly(link: Link, s: StoreState, header: Header, payload: Bytes, now: int)
    requires Faithful(link.codec) && EnvelopesFit(link)
    ensures var sent := header["payload_bytes" := JInt(|payload|)];
      var (s', answer) := Request(link, s, header, payload, now);
      if |link.codec.encode(sent)| > 0x10_0000 then s' == s && answer == Err(Transport(HeaderTooLarge))
      else if |payload| > link.serverMax then s' == s && answer == Err(RemoteFailure)
      else
        var (after, outcome) := Dispatch(link, s, sent, payload, now);
        s' == after && Answers(link, outcome, answer)
  {
    FrameExactly(link.codec, header, payload);
    if Frame(link.codec, header, payload).Ok? {
      if |payload| > link.serverMax {
        OversizedParse(link.codec, header, payload, link.serverMax);
        ErrorRead(link, Malformed(PayloadNotAllowed(|payload|)));
      } else {
        ParseFrame(link.codec, header, payload, link.serverMax);
        ResponsesKeepStatus(link, s, WithPayloadSize(header, payload), payload, now);
        ReplyExactly(link, Dispatch(link, s, WithPayloadSize(header, payload), payload, now).1);
      }
    }
  }
}
