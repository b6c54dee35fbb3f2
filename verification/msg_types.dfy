/** The wire message of the metric-aware pipeline (pkg/msg/types.go): its
    shape, the `extras` splice performed by MarshalJSON, and semantic
    equality. JSON encoding and JSON diffing are library calls and enter the
    model as the functions of a `Json` record. */
module MsgTypes {
  import opened Base

  datatype Op = RegisterSchema | NewResource | DelResource | UpdateResource

  datatype ResourceMeta = ResourceMeta(schemaId: string, namespace: string, name: string)

  /** `meta` is a Go pointer: None for a schema registration. */
  datatype Message = Message(op: Op, meta: Option<ResourceMeta>, data: Bytes)

  /** Metric fields merged into a message as `extras`; the value type is left
      open. */
  type Fields<V> = map<string, V>

  /** The library calls the codec and the store depend on.
      `sameDocument(a, b)` holds when the JSON diff of `a` and `b` succeeds and
      finds no difference; `encodeFields` is `json.Marshal` of a field map
      (None when it fails, e.g. on a NaN value). */
  datatype Json<!V> = Json(sameDocument: (Bytes, Bytes) -> bool, encodeFields: Fields<V> -> Option<Bytes>)

  const Comma: uint8 := 44
  const CloseBrace: uint8 := 125

  /** The bytes `{"extras":` */
  const ExtrasPrefix: Bytes := [123, 34, 101, 120, 116, 114, 97, 115, 34, 58]

  /** What `json.Marshal` produces for the anonymous struct
      `{Extras map "json:extras,omitempty"}` holding a non-empty map whose own
      encoding is `fieldsJson`. */
  function ExtrasObject(fieldsJson: Bytes): (r: Bytes)
    ensures |r| == |ExtrasPrefix| + |fieldsJson| + 1
    ensures r[0] == 123 && r[|r| - 1] == CloseBrace
  {
    ExtrasPrefix + fieldsJson + [CloseBrace]
  }

  /** The byte surgery of MarshalJSON on a non-empty payload: a two-byte
      payload (`{}`) is replaced by the extras object; otherwise its last byte
      becomes a comma and the extras object minus its opening brace is
      appended. */
  function Merge(data: Bytes, extraBytes: Bytes): (r: Bytes)
    requires |data| > 0 && |extraBytes| > 0
    ensures |data| == 2 ==> r == extraBytes
    ensures |data| != 2 ==> |r| == |data| + |extraBytes| - 1
    ensures |data| != 2 ==> r[..|data| - 1] == data[..|data| - 1]
    ensures |data| != 2 ==> r[|data| - 1] == Comma && r[|data|..] == extraBytes[1..]
  {
    if |data| == 2 then extraBytes
    else data[..|data| - 1] + [Comma] + extraBytes[1..]
  }

  /** MarshalJSON as written indexes the last payload byte whenever extras
      are present, so it is defined only on these inputs. */
  predicate InSpliceDomain<V>(m: Message, extras: Fields<V>) {
    |extras| == 0 || |m.data| > 0
  }

  /** `Message.MarshalJSON` as written. The result is the message handed to
      the final `json.Marshal`, which cannot fail for these field types.
      None is the error path of encoding the extras. */
  function MarshalJSONAsWritten<V>(m: Message, extras: Fields<V>, json: Json<V>): (r: Option<Message>)
    requires InSpliceDomain(m, extras)
    ensures r.Some? ==> r.value.op == m.op && r.value.meta == m.meta
    ensures |extras| == 0 ==> r == Some(m)
  {
    if |extras| == 0 then Some(m)
    else match json.encodeFields(extras)
      case None => None
      case Some(fieldsJson) => Some(Message(m.op, m.meta, Merge(m.data, ExtrasObject(fieldsJson))))
  }

  /** MarshalJSON with a bodyless message treated like an empty object: the
      emitted payload is then the extras object itself. This is the
      definition the message store uses. */
  function MarshalJSON<V>(m: Message, extras: Fields<V>, json: Json<V>): (r: Option<Message>)
    ensures r.Some? ==> r.value.op == m.op && r.value.meta == m.meta
    ensures |extras| == 0 ==> r == Some(m)
    ensures |extras| > 0 ==> (r.None? <==> json.encodeFields(extras).None?)
    ensures |extras| > 0 && r.Some? && (|m.data| == 0 || |m.data| == 2) ==>
        r.value.data == ExtrasObject(json.encodeFields(extras).value)
    ensures |extras| > 0 && r.Some? && |m.data| != 0 && |m.data| != 2 ==>
        var extraBytes := ExtrasObject(json.encodeFields(extras).value);
        && |r.value.data| == |m.data| + |extraBytes| - 1
        && r.value.data == m.data[..|m.data| - 1] + [Comma] + extraBytes[1..]
  {
    if |extras| == 0 then Some(m)
    else match json.encodeFields(extras)
      case None => None
      case Some(fieldsJson) =>
        var extraBytes := ExtrasObject(fieldsJson);
        Some(Message(m.op, m.meta, if |m.data| == 0 then extraBytes else Merge(m.data, extraBytes)))
  }

  /** Wherever the code as written is defined, the corrected MarshalJSON
      emits exactly the same message. */
  lemma MarshalJSONAgreesWithAsWritten<V>(m: Message, extras: Fields<V>, json: Json<V>)
    requires InSpliceDomain(m, extras)
    ensures MarshalJSON(m, extras, json) == MarshalJSONAsWritten(m, extras, json)
  {
  }

  /** The bodyless Update the store synthesises when metrics arrive for an
      entity it has never seen lies outside the as-written splice domain as
      soon as there is one metric field: Go indexes `Data[-1]` and panics. */
  lemma BodylessMetricMessageOutsideSpliceDomain<V>(meta: ResourceMeta, fields: Fields<V>)
    requires |fields| > 0
    ensures !InSpliceDomain(Message(UpdateResource, Some(meta), []), fields)
  {
  }

  /** Strips a spliced extras object of `extrasLength` bytes and closes the
      object again. */
  function StripExtras(merged: Bytes, extrasLength: nat): Bytes
    requires extrasLength <= |merged|
  {
    merged[..|merged| - extrasLength] + [CloseBrace]
  }

  /** The splice only appends: from a merged object payload the cached base
      payload is recovered byte for byte, and the result is still a
      brace-delimited object. */
  lemma MergeRoundTrip(data: Bytes, fieldsJson: Bytes)
    requires |data| > 2 && data[0] == 123 && data[|data| - 1] == CloseBrace
    ensures var merged := Merge(data, ExtrasObject(fieldsJson));
      && merged[0] == 123 && merged[|merged| - 1] == CloseBrace
      && StripExtras(merged, |ExtrasObject(fieldsJson)|) == data
  {
    var extraBytes := ExtrasObject(fieldsJson);
    var merged := Merge(data, extraBytes);
    assert merged[..|data| - 1] == data[..|data| - 1];
    assert |merged| - |extraBytes| == |data| - 1;
    assert data == data[..|data| - 1] + [CloseBrace];
  }

  /** `Message.Equal`: same op, deep-equal meta, both payloads non-empty and
      a JSON diff that succeeds with no difference. */
  predicate Equal<V>(m: Message, other: Message, json: Json<V>) {
    && m.op == other.op
    && m.meta == other.meta
    && |m.data| > 0 && |other.data| > 0
    && json.sameDocument(m.data, other.data)
  }

  /** Equal is false on any op or meta difference and on any empty payload;
      past those guards it is exactly the outcome of the JSON diff. */
  lemma EqualCharacterised<V>(m: Message, other: Message, json: Json<V>)
    ensures m.op != other.op || m.meta != other.meta || |m.data| == 0 || |other.data| == 0
        ==> !Equal(m, other, json)
    ensures m.op == other.op && m.meta == other.meta && |m.data| > 0 && |other.data| > 0
        ==> (Equal(m, other, json) <==> json.sameDocument(m.data, other.data))
  {
  }

  /** A bodyless message is not even equal to itself, so it never suppresses
      a publish. */
  lemma BodylessNeverEqual<V>(m: Message, json: Json<V>)
    requires |m.data| == 0
    ensures !Equal(m, m, json)
  {
  }

  /** With a symmetric JSON diff, Equal is symmetric. */
  lemma EqualSymmetric<V>(m: Message, other: Message, json: Json<V>)
    requires forall a, b :: json.sameDocument(a, b) ==> json.sameDocument(b, a)
    ensures Equal(m, other, json) ==> Equal(other, m, json)
  {
  }

  /** What reaches `Publish`: the encoded message, or the nil slice left
      behind when encoding failed (the store logs the error and publishes
      anyway). */
  datatype Frame = Frame(msg: Message) | NilFrame

  function ToFrame(encoded: Option<Message>): Frame {
    match encoded
    case Some(m) => Frame(m)
    case None => NilFrame
  }
}
