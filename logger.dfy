/** `AppLogger`: redaction of sensitive log data (`sanitizeData`), the
    level chosen for performance metrics, and the two output formats'
    treatment of an entry's properties. Winston transports, colours,
    timestamps and the batch logger are left out. */
module Logging {
  import opened Wrappers
  import opened Strings
  import opened Json

  // ------------------------------------------------------------ redaction

  const REDACTED := "[REDACTED]"

  /** `sensitiveFields`, in the source's spelling. */
  const SENSITIVE_FIELDS: seq<string> := [
    "password", "token", "secret", "key", "auth", "credential", "ssn",
    "creditCard", "bankAccount", "pin", "signature"]

  /** The key test of `sanitizeObject`: the lower-cased key contains one of
      the field names as they are written. */
  predicate IsSensitive(key: string) {
    exists i :: 0 <= i < |SENSITIVE_FIELDS| && Contains(ToLower(key), SENSITIVE_FIELDS[i])
  }

  /** The test with both sides lower-cased, which the list's camel-case
      entries call for. */
  predicate IsSensitiveFolded(key: string) {
    exists i :: 0 <= i < |SENSITIVE_FIELDS| && Contains(ToLower(key), ToLower(SENSITIVE_FIELDS[i]))
  }

  /** The new value of one property under `sanitizeObject`. */
  function SanitizeEntry(key: string, value: Json, sensitive: string -> bool): Json
    decreases value, 1
  {
    if sensitive(key) then JStr(REDACTED) else Sanitize(value, sensitive)
  }

  /** `sanitizeObject(obj)` over a value, for a key test `sensitive`:
      falsy values and non-objects come back as they are; every property of
      an object or array (an array's keys are its indices) whose key is
      sensitive becomes '[REDACTED]', and every other one is sanitized in
      turn. */
  function Sanitize(v: Json, sensitive: string -> bool): (r: Json)
    ensures !Truthy(v) || !IsObjectType(v) ==> r == v
    ensures v.JArr? ==> r.JArr? && |r.items| == |v.items|
    ensures v.JObj? ==> r.JObj? && |r.fields| == |v.fields|
    ensures v.JObj? ==> forall i :: 0 <= i < |v.fields| ==> r.fields[i].key == v.fields[i].key
    decreases v, 0
  {
    match v
    case JArr(items) =>
      JArr(seq(|items|, i requires 0 <= i < |items| => SanitizeEntry(NatToString(i), items[i], sensitive)))
    case JObj(fields) =>
      JObj(seq(|fields|, i requires 0 <= i < |fields| =>
        Field(fields[i].key, SanitizeEntry(fields[i].key, fields[i].value, sensitive))))
    case _ => v
  }

  /** `sanitizeData(data)` as the source runs it, with its own key test. */
  function SanitizeData(data: Json): Json {
    Sanitize(data, IsSensitive)
  }

  /** Sanitizing keeps an object's keys, in order. */
  lemma SanitizeKeepsKeys(v: Json, sensitive: string -> bool)
    requires v.JObj?
    ensures Keys(Sanitize(v, sensitive).fields) == Keys(v.fields)
  {
    SameKeys(Sanitize(v, sensitive).fields, v.fields);
  }

  lemma {:induction false} SameKeys(a: seq<Field>, b: seq<Field>)
    requires |a| == |b| && forall i :: 0 <= i < |a| ==> a[i].key == b[i].key
    ensures Keys(a) == Keys(b)
  {
    if |a| > 0 {
      SameKeys(a[1..], b[1..]);
    }
  }

  /** No property left anywhere under `v` has a sensitive key unless its
      value is '[REDACTED]'. */
  predicate Clean(v: Json, sensitive: string -> bool)
    decreases v
  {
    match v
    case JArr(items) =>
      forall i :: 0 <= i < |items| ==>
        (sensitive(NatToString(i)) ==> items[i] == JStr(REDACTED)) && Clean(items[i], sensitive)
    case JObj(fields) =>
      forall i :: 0 <= i < |fields| ==>
        (sensitive(fields[i].key) ==> fields[i].value == JStr(REDACTED)) && Clean(fields[i].value, sensitive)
    case _ => true
  }

  /** Whatever the data, what `sanitizeData` returns is clean. */
  lemma {:induction false} SanitizedIsClean(v: Json, sensitive: string -> bool)
    ensures Clean(Sanitize(v, sensitive), sensitive)
    decreases v
  {
    match v
    case JArr(items) =>
      forall i | 0 <= i < |items| ensures Clean(SanitizeEntry(NatToString(i), items[i], sensitive), sensitive) {
        SanitizedIsClean(items[i], sensitive);
      }
    case JObj(fields) =>
      forall i | 0 <= i < |fields|
        ensures Clean(SanitizeEntry(fields[i].key, fields[i].value, sensitive), sensitive)
      {
        SanitizedIsClean(fields[i].value, sensitive);
      }
    case _ =>
  }

  /** Clean data is exactly the data sanitizing leaves alone. */
  lemma {:induction false} CleanIffFixed(v: Json, sensitive: string -> bool)
    ensures Clean(v, sensitive) <==> Sanitize(v, sensitive) == v
    decreases v
  {
    if Sanitize(v, sensitive) == v {
      SanitizedIsClean(v, sensitive);
    } else {
      match v
      case JArr(items) =>
        var r := Sanitize(v, sensitive).items;
        var i :| 0 <= i < |items| && r[i] != items[i];
        CleanIffFixed(items[i], sensitive);
      case JObj(fields) =>
        var r := Sanitize(v, sensitive).fields;
        var i :| 0 <= i < |fields| && r[i] != fields[i];
        CleanIffFixed(fields[i].value, sensitive);
      case _ =>
    }
  }

  /** Sanitizing twice is sanitizing once. */
  lemma SanitizeIdempotent(v: Json, sensitive: string -> bool)
    ensures Sanitize(Sanitize(v, sensitive), sensitive) == Sanitize(v, sensitive)
  {
    SanitizedIsClean(v, sensitive);
    CleanIffFixed(Sanitize(v, sensitive), sensitive);
  }

  /** A property of an object comes out redacted exactly when its key is
      sensitive or it already held the text '[REDACTED]'. */
  lemma RedactedIff(v: Json, sensitive: string -> bool, i: int)
    requires v.JObj? && 0 <= i < |v.fields|
    ensures Sanitize(v, sensitive).fields[i].value == JStr(REDACTED) <==>
      sensitive(v.fields[i].key) || v.fields[i].value == JStr(REDACTED)
  {
  }

  // -------------------------------------------------- the source's key test

  /** A field name holding an upper-case letter is never found in a
      lower-cased key. */
  lemma NoUpperNoMatch(s: string, sub: string, j: int)
    requires forall k :: 0 <= k < |s| ==> !IsAsciiUpper(s[k])
    requires 0 <= j < |sub| && IsAsciiUpper(sub[j])
    ensures !Contains(s, sub)
  {
    ContainsAt(s, sub);
    forall i | 0 <= i <= |s| - |sub| ensures !OccursAt(s, sub, i) {
      assert s[i..i + |sub|][j] == s[i + j];
    }
  }

  /** A field name holding a character the key lacks is not in the key. */
  lemma MissingCharNoMatch(s: string, sub: string, j: int)
    requires 0 <= j < |sub| && sub[j] !in s
    ensures !Contains(s, sub)
  {
    ContainsAt(s, sub);
    forall i | 0 <= i <= |s| - |sub| ensures !OccursAt(s, sub, i) {
      assert s[i..i + |sub|][j] == s[i + j];
    }
  }

  /** 'creditCard' and 'bankAccount' can never match, since only the key is
      lower-cased. */
  lemma CamelCaseFieldsNeverMatch(key: string)
    ensures !Contains(ToLower(key), SENSITIVE_FIELDS[7])
    ensures !Contains(ToLower(key), SENSITIVE_FIELDS[8])
  {
    assert SENSITIVE_FIELDS[7][6] == 'C';
    NoUpperNoMatch(ToLower(key), SENSITIVE_FIELDS[7], 6);
    assert SENSITIVE_FIELDS[8][4] == 'A';
    NoUpperNoMatch(ToLower(key), SENSITIVE_FIELDS[8], 4);
  }

  /** None of the listed names occurs in a key that lower-cases to
      'creditcard' or 'bankaccount': each holds a letter the key lacks. */
  lemma CamelKeyNotSensitive(key: string)
    requires key == "creditCard" || key == "bankAccount"
    ensures !IsSensitive(key)
  {
    var s := ToLower(key);
    var cc := key == "creditCard";
    assert cc ==> s == "creditcard";
    assert !cc ==> s == "bankaccount";
    forall i | 0 <= i < |SENSITIVE_FIELDS| ensures !Contains(s, SENSITIVE_FIELDS[i]) {
      var j :=
        if cc then (if i == 1 || i == 4 then 1 else if i == 5 then 5 else if i == 7 then 6 else 0)
        else (if i == 1 || i == 4 then 3 else if i == 3 || i == 5 || i == 7 then 1 else if i == 8 then 4 else 0);
      MissingCharNoMatch(s, SENSITIVE_FIELDS[i], j);
    }
  }

  /** As written, a property named 'creditCard' or 'bankAccount' is logged
      in clear. */
  lemma CreditCardLoggedInClear()
    ensures !IsSensitive("creditCard") && !IsSensitive("bankAccount")
    ensures var v := JObj([Field("creditCard", JStr("4111"))]);
      SanitizeData(v) == v
  {
    CamelKeyNotSensitive("creditCard");
    CamelKeyNotSensitive("bankAccount");
    SanitizeOneProperty("creditCard", JStr("4111"), IsSensitive);
  }

  /** An object of one property, sanitized. */
  lemma SanitizeOneProperty(key: string, value: Json, sensitive: string -> bool)
    ensures Sanitize(JObj([Field(key, value)]), sensitive) ==
      JObj([Field(key, if sensitive(key) then JStr(REDACTED) else Sanitize(value, sensitive))])
  {
    var r := Sanitize(JObj([Field(key, value)]), sensitive);
    assert r.fields[0] == Field(key, SanitizeEntry(key, value, sensitive));
  }

  /** Lower-casing leaves a string without upper-case letters as it is. */
  lemma ToLowerOfLower(s: string)
    requires forall k :: 0 <= k < |s| ==> !IsAsciiUpper(s[k])
    ensures ToLower(s) == s
  {
  }

  /** Whatever the source's test redacts the corrected one redacts too. */
  lemma FoldedCoversWritten(key: string)
    ensures IsSensitive(key) ==> IsSensitiveFolded(key)
  {
    if IsSensitive(key) {
      var i :| 0 <= i < |SENSITIVE_FIELDS| && Contains(ToLower(key), SENSITIVE_FIELDS[i]);
      CamelCaseFieldsNeverMatch(key);
      ToLowerOfLower(SENSITIVE_FIELDS[i]);
    }
  }

  /** Under the corrected test every listed name, in any case, is
      redacted. */
  lemma FoldedMatchesListedName(key: string, i: int)
    requires 0 <= i < |SENSITIVE_FIELDS| && ToLower(key) == ToLower(SENSITIVE_FIELDS[i])
    ensures IsSensitiveFolded(key)
  {
    assert IsPrefix(ToLower(key), ToLower(key));
  }

  /** With the corrected test a 'creditCard' property is redacted. */
  lemma CreditCardRedactedWhenFolded()
    ensures IsSensitiveFolded("creditCard") && IsSensitiveFolded("bankAccount")
    ensures Sanitize(JObj([Field("creditCard", JStr("4111"))]), IsSensitiveFolded) ==
      JObj([Field("creditCard", JStr(REDACTED))])
  {
    FoldedMatchesListedName("creditCard", 7);
    FoldedMatchesListedName("bankAccount", 8);
    SanitizeOneProperty("creditCard", JStr("4111"), IsSensitiveFolded);
  }

  /** An array index is never a sensitive key under either test, so arrays
      are sanitized element by element. */
  lemma IndexKeysNeverSensitive(n: nat)
    ensures !IsSensitive(NatToString(n)) && !IsSensitiveFolded(NatToString(n))
  {
    var s := NatToString(n);
    ToLowerOfLower(s);
    forall i | 0 <= i < |SENSITIVE_FIELDS|
      ensures !Contains(s, SENSITIVE_FIELDS[i]) && !Contains(s, ToLower(SENSITIVE_FIELDS[i]))
    {
      var f := SENSITIVE_FIELDS[i];
      assert 'a' <= f[0] <= 'z';
      assert ToLower(f)[0] == f[0];
      MissingCharNoMatch(s, f, 0);
      MissingCharNoMatch(s, ToLower(f), 0);
    }
  }

  // ------------------------------------------------------- the loop itself

  /** `sanitizeData(data)`: a falsy or non-object value is returned at once;
      otherwise the top level is copied and each of its properties is
      redacted or sanitized in turn. */
  method SanitizeTopLevel(data: Json, sensitive: string -> bool) returns (r: Json)
    ensures r == Sanitize(data, sensitive)
  {
    if !Truthy(data) || !IsObjectType(data) {
      return data;
    }
    match data
    case JArr(items) =>
      var copy := items;
      var i := 0;
      while i < |copy|
        invariant 0 <= i <= |copy| == |items|
        invariant forall j :: 0 <= j < i ==> copy[j] == SanitizeEntry(NatToString(j), items[j], sensitive)
        invariant forall j :: i <= j < |copy| ==> copy[j] == items[j]
      {
        copy := copy[i := SanitizeEntry(NatToString(i), copy[i], sensitive)];
        i := i + 1;
      }
      r := JArr(copy);
    case JObj(fields) =>
      var copy := fields;
      var i := 0;
      while i < |copy|
        invariant 0 <= i <= |copy| == |fields|
        invariant forall j :: 0 <= j < i ==>
          copy[j] == Field(fields[j].key, SanitizeEntry(fields[j].key, fields[j].value, sensitive))
        invariant forall j :: i <= j < |copy| ==> copy[j] == fields[j]
      {
        copy := copy[i := Field(copy[i].key, SanitizeEntry(copy[i].key, copy[i].value, sensitive))];
        i := i + 1;
      }
      r := JObj(copy);
  }

  // --------------------------------------------------------- performance

  const SLOW_THRESHOLD_MS := 1000

  /** The properties of a performance metric; the ISO timestamp is left
      out. */
  datatype Metric = Metric(operation: string, duration: string, slow: bool, data: Json)

  /** `logPerformance(operation, duration, data)`: the level and the
      metric logged at it. */
  function PerformanceMetric(operation: string, duration: int, data: Json): (m: (string, Metric))
    ensures m.0 == "warn" <==> duration > SLOW_THRESHOLD_MS
    ensures m.0 == "info" <==> duration <= SLOW_THRESHOLD_MS
    ensures m.1.slow <==> m.0 == "warn"
    ensures m.1.duration == IntToString(duration) + "ms" && m.1.operation == operation
    ensures m.1.data == SanitizeData(data)
  {
    var level := if duration > SLOW_THRESHOLD_MS then "warn" else "info";
    (level, Metric(operation, IntToString(duration) + "ms", duration > SLOW_THRESHOLD_MS, SanitizeData(data)))
  }

  // ------------------------------------------------------------- formats

  /** The development format's metadata: the entry without timestamp,
      level, message and layer, and with password, token and secret
      deleted. */
  function DevMeta(info: seq<Field>): (meta: seq<Field>)
    ensures !HasKey(meta, "password") && !HasKey(meta, "token") && !HasKey(meta, "secret")
    ensures forall k :: k !in DEV_HIDDEN ==>
      (HasKey(meta, k) <==> HasKey(info, k)) && Lookup(meta, k) == Lookup(info, k)
    ensures DistinctKeys(info) ==> DistinctKeys(meta)
  {
    RemoveAll(info, DEV_HIDDEN)
  }

  /** The properties the development format prints elsewhere or deletes. */
  const DEV_HIDDEN: seq<string> := ["timestamp", "level", "message", "layer", "password", "token", "secret"]

  const DEFAULT_SERVICE := "share-up-core"
  const DEFAULT_ENVIRONMENT := "development"

  function Defined(v: Json): bool { !v.JUndefined? }

  /** The leading properties of the JSON format's entry: timestamp,
      service (default 'share-up-core'), layer and environment (the NODE_ENV
      setting, default 'development'). */
  function EntryDefaults(info: seq<Field>, nodeEnv: Option<string>): (base: seq<Field>)
    ensures DistinctKeys(base)
    ensures Lookup(base, "service") == if Truthy(Lookup(info, "service")) then Lookup(info, "service") else JStr(DEFAULT_SERVICE)
    ensures Lookup(base, "environment") ==
      JStr(if nodeEnv.Some? && nodeEnv.value != "" then nodeEnv.value else DEFAULT_ENVIRONMENT)
  {
    var service := Lookup(info, "service");
    var o := Assign([], "timestamp", Lookup(info, "timestamp"));
    var o := Assign(o, "service", if Truthy(service) then service else JStr(DEFAULT_SERVICE));
    var o := Assign(o, "layer", Lookup(info, "layer"));
    Assign(o, "environment", JStr(if nodeEnv.Some? && nodeEnv.value != "" then nodeEnv.value else DEFAULT_ENVIRONMENT))
  }

  /** The JSON format's entry: the defaults, then the trace context, then
      the log data itself, each spread over the last; properties left
      undefined are dropped. */
  function JsonEntry(info: seq<Field>, traceContext: seq<Field>, nodeEnv: Option<string>): (entry: seq<Field>)
    ensures forall f :: f in entry ==> f.value != JUndefined
    ensures DistinctKeys(entry)
  {
    KeepWhere(Spread(Spread(EntryDefaults(info, nodeEnv), traceContext), info), Defined)
  }

  /** A defined property of the log data appears in the entry as given;
      a defined trace property the data does not override appears too; the
      service defaults to 'share-up-core'. */
  lemma JsonEntryReads(info: seq<Field>, traceContext: seq<Field>, nodeEnv: Option<string>, k: string)
    requires DistinctKeys(info) && DistinctKeys(traceContext)
    ensures HasKey(info, k) && Lookup(info, k) != JUndefined ==>
      Lookup(JsonEntry(info, traceContext, nodeEnv), k) == Lookup(info, k)
    ensures !HasKey(info, k) && HasKey(traceContext, k) && Lookup(traceContext, k) != JUndefined ==>
      Lookup(JsonEntry(info, traceContext, nodeEnv), k) == Lookup(traceContext, k)
    ensures !HasKey(info, "service") && !HasKey(traceContext, "service") ==>
      Lookup(JsonEntry(info, traceContext, nodeEnv), "service") == JStr(DEFAULT_SERVICE)
  {
    EntryReadsKey(info, traceContext, nodeEnv, k);
    EntryDefaultService(info, traceContext, nodeEnv);
  }

  lemma EntryReadsKey(info: seq<Field>, traceContext: seq<Field>, nodeEnv: Option<string>, k: string)
    requires DistinctKeys(info) && DistinctKeys(traceContext)
    ensures HasKey(info, k) && Lookup(info, k) != JUndefined ==>
      Lookup(JsonEntry(info, traceContext, nodeEnv), k) == Lookup(info, k)
    ensures !HasKey(info, k) && HasKey(traceContext, k) && Lookup(traceContext, k) != JUndefined ==>
      Lookup(JsonEntry(info, traceContext, nodeEnv), k) == Lookup(traceContext, k)
  {
    var base := EntryDefaults(info, nodeEnv);
    var mid := Spread(base, traceContext);
    var all := Spread(mid, info);
    SpreadLookup(base, traceContext, k);
    SpreadLookup(mid, info, k);
    if HasKey(all, k) && Lookup(all, k) != JUndefined {
      KeepLookup(all, Defined, k);
    }
  }

  lemma EntryDefaultService(info: seq<Field>, traceContext: seq<Field>, nodeEnv: Option<string>)
    requires DistinctKeys(info) && DistinctKeys(traceContext)
    ensures !HasKey(info, "service") && !HasKey(traceContext, "service") ==>
      Lookup(JsonEntry(info, traceContext, nodeEnv), "service") == JStr(DEFAULT_SERVICE)
  {
    if !HasKey(info, "service") && !HasKey(traceContext, "service") {
      var base := EntryDefaults(info, nodeEnv);
      var mid := Spread(base, traceContext);
      var all := Spread(mid, info);
      SpreadLookup(base, traceContext, "service");
      SpreadLookup(mid, info, "service");
      assert !Truthy(Lookup(info, "service"));
      assert HasKey(base, "service") by {
        assert Lookup(base, "service") != JUndefined;
      }
      KeepLookup(all, Defined, "service");
    }
  }
}
