/** `ResponseInterceptor.intercept`: every successful handler result is
    wrapped in the envelope `{ status: 'success', message, data[, meta] }`;
    a paginated result `{ items, meta }` has its items as `data` and its
    `meta` lifted beside them. */
module ResponseInterceptor {
  import opened Wrappers
  import opened Json
  import opened Errors
  import opened HttpFilter

  const DEFAULT_MESSAGE := "Request successful"

  /** `isPaginatedData`: a non-null object with own `items` and `meta`
      properties whose `items` is an array. */
  predicate IsPaginatedData(data: Json) {
    data.JObj? && HasKey(data.fields, "items") && HasKey(data.fields, "meta") &&
    Lookup(data.fields, "items").JArr?
  }

  /** The handler's `@ResponseMessage` metadata, or the default when it is
      absent or empty. */
  function EnvelopeMessage(metadata: Option<string>): (m: string)
    ensures m != ""
    ensures metadata.Some? && metadata.value != "" ==> m == metadata.value
  {
    if metadata.Some? && metadata.value != "" then metadata.value else DEFAULT_MESSAGE
  }

  /** The envelope's properties, in order, with the lifted meta last when
      it is truthy. */
  function EnvelopeFields(message: string, responseData: Json, meta: Json): seq<Field> {
    [Field("status", JStr("success")), Field("message", JStr(message)), Field("data", responseData)] +
    (if Truthy(meta) then [Field("meta", meta)] else [])
  }

  lemma EnvelopeFieldsWithMeta(message: string, responseData: Json, meta: Json)
    requires Truthy(meta)
    ensures var fs := EnvelopeFields(message, responseData, meta);
      Lookup(fs, "status") == JStr("success") && Lookup(fs, "message") == JStr(message) &&
      Lookup(fs, "data") == responseData && Lookup(fs, "meta") == meta
  {
    var t := [Field("meta", meta)];
    assert t[1..] == [];
    assert Lookup(t, "meta") == meta;
    var d := [Field("data", responseData)] + t;
    LookupCons(Field("data", responseData), t, "meta");
    var m := [Field("message", JStr(message))] + d;
    LookupCons(Field("message", JStr(message)), d, "meta");
    LookupCons(Field("message", JStr(message)), d, "data");
    var fs := EnvelopeFields(message, responseData, meta);
    assert fs == [Field("status", JStr("success"))] + m;
    LookupCons(Field("status", JStr("success")), m, "meta");
    LookupCons(Field("status", JStr("success")), m, "data");
    LookupCons(Field("status", JStr("success")), m, "message");
  }

  lemma EnvelopeFieldsWithoutMeta(message: string, responseData: Json, meta: Json)
    requires !Truthy(meta)
    ensures var fs := EnvelopeFields(message, responseData, meta);
      Lookup(fs, "status") == JStr("success") && Lookup(fs, "message") == JStr(message) &&
      Lookup(fs, "data") == responseData
  {
    var d := [Field("data", responseData)];
    assert d[1..] == [];
    assert Lookup(d, "data") == responseData;
    var m := [Field("message", JStr(message))] + d;
    LookupCons(Field("message", JStr(message)), d, "data");
    var fs := EnvelopeFields(message, responseData, meta);
    assert fs == [Field("status", JStr("success"))] + m;
    LookupCons(Field("status", JStr("success")), m, "data");
    LookupCons(Field("status", JStr("success")), m, "message");
  }

  /** The envelope has no property but status, message, data and meta,
      and meta only when it is truthy. */
  lemma EnvelopeKeys(message: string, responseData: Json, meta: Json)
    ensures Keys(EnvelopeFields(message, responseData, meta)) ==
      ["status", "message", "data"] + (if Truthy(meta) then ["meta"] else [])
    ensures forall k :: HasKey(EnvelopeFields(message, responseData, meta), k) ==>
      k == "status" || k == "message" || k == "data" || k == "meta"
    ensures HasKey(EnvelopeFields(message, responseData, meta), "meta") <==> Truthy(meta)
  {
    var head := [Field("status", JStr("success")), Field("message", JStr(message)), Field("data", responseData)];
    var tail := if Truthy(meta) then [Field("meta", meta)] else [];
    KeysConcat(head, tail);
    assert head[1..] == [Field("message", JStr(message)), Field("data", responseData)];
    assert head[1..][1..] == [Field("data", responseData)];
    assert head[1..][1..][1..] == [];
    assert Keys(head[1..][1..]) == ["data"];
    assert Keys(head) == ["status", "message", "data"];
    assert tail != [] ==> tail[1..] == [];
    assert Keys(tail) == if Truthy(meta) then ["meta"] else [];
  }

  /** What the envelope carries as `data` and as the lifted `meta`. */
  function Lifted(data: Json): (p: (Json, Json))
    ensures IsPaginatedData(data) ==> p == (Lookup(data.fields, "items"), Lookup(data.fields, "meta"))
    ensures !IsPaginatedData(data) ==> p == (data, JUndefined)
  {
    if IsPaginatedData(data) then (Lookup(data.fields, "items"), Lookup(data.fields, "meta")) else (data, JUndefined)
  }

  /** The envelope for handler result `data`. `...(meta && { meta })` adds
      the `meta` property only when the lifted meta is truthy. */
  function Envelope(metadata: Option<string>, data: Json): (r: Json)
    ensures r.JObj?
    ensures Lookup(r.fields, "status") == JStr("success")
    ensures Lookup(r.fields, "message") == JStr(EnvelopeMessage(metadata))
    ensures IsPaginatedData(data) ==>
      Lookup(r.fields, "data") == Lookup(data.fields, "items") &&
      (HasKey(r.fields, "meta") <==> Truthy(Lookup(data.fields, "meta"))) &&
      (HasKey(r.fields, "meta") ==> Lookup(r.fields, "meta") == Lookup(data.fields, "meta"))
    ensures !IsPaginatedData(data) ==> Lookup(r.fields, "data") == data && !HasKey(r.fields, "meta")
    ensures forall k :: HasKey(r.fields, k) ==> k == "status" || k == "message" || k == "data" || k == "meta"
  {
    var (responseData, meta) := Lifted(data);
    EnvelopeKeys(EnvelopeMessage(metadata), responseData, meta);
    var fields := EnvelopeFields(EnvelopeMessage(metadata), responseData, meta);
    if Truthy(meta) then
      (EnvelopeFieldsWithMeta(EnvelopeMessage(metadata), responseData, meta); JObj(fields))
    else
      (EnvelopeFieldsWithoutMeta(EnvelopeMessage(metadata), responseData, meta); JObj(fields))
  }

  /** A page `{ items, meta }` with a meta object answers with the items as
      data and the same meta. */
  lemma PageEnvelope(metadata: Option<string>, items: seq<Json>, meta: seq<Field>)
    ensures var r := Envelope(metadata, JObj([Field("items", JArr(items)), Field("meta", JObj(meta))]));
      Lookup(r.fields, "data") == JArr(items) && Lookup(r.fields, "meta") == JObj(meta)
  {
    var page := [Field("items", JArr(items)), Field("meta", JObj(meta))];
    assert page[1..][1..] == [];
    assert Keys(page) == ["items", "meta"];
  }

  /** A page whose meta is null loses its meta: the items come back without
      it. */
  lemma NullMetaDropped(metadata: Option<string>, items: seq<Json>)
    ensures var r := Envelope(metadata, JObj([Field("items", JArr(items)), Field("meta", JNull)]));
      Lookup(r.fields, "data") == JArr(items) && !HasKey(r.fields, "meta")
  {
    var page := [Field("items", JArr(items)), Field("meta", JNull)];
    assert page[1..][1..] == [];
    assert Keys(page) == ["items", "meta"];
  }

  /** An array, a string or an object without `meta` is passed through as
      it is. */
  lemma PlainDataPassesThrough(metadata: Option<string>, items: seq<Json>, text: string)
    ensures Lookup(Envelope(metadata, JArr(items)).fields, "data") == JArr(items)
    ensures Lookup(Envelope(metadata, JStr(text)).fields, "data") == JStr(text)
    ensures Lookup(Envelope(metadata, JObj([Field("items", JArr(items))])).fields, "data") ==
      JObj([Field("items", JArr(items))])
  {
    var one := [Field("items", JArr(items))];
    assert one[1..] == [];
    assert Keys(one) == ["items"];
  }

  /** A success envelope can never be taken for an error body: their
      status words differ. */
  lemma EnvelopesDisjoint(metadata: Option<string>, data: Json, ex: Exception)
    ensures Lookup(Envelope(metadata, data).fields, "status") != StatusWord(Catch(ex))
  {
  }
}
