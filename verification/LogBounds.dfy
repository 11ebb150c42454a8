/** boundLogEntry of internal/gcpdata/logs.go: staged truncation to a hard byte budget for one
    encoded entry. */
module LogBounds {
  import ByteOrder
  import opened LogEncoding
  import opened Options
  import opened Utf8

  // ---- boundStringMap ----

  const MAX_KEY := 128

  /** The keys kept: the first maxEntries in order. */
  function FirstOf(m: Labels, maxEntries: nat): (keys: seq<string>)
    ensures |keys| == if |m| <= maxEntries then |m| else maxEntries
  {
    var all := ByteOrder.Sorted(m.Keys);
    if |m| <= maxEntries then all else all[..maxEntries]
  }

  lemma FirstMembers(m: Labels, maxEntries: nat)
    ensures forall j | 0 <= j < |FirstOf(m, maxEntries)| :: FirstOf(m, maxEntries)[j] in m
    ensures |m| <= maxEntries ==> forall k | k in m :: k in FirstOf(m, maxEntries)
  {
    ByteOrder.SortedMembers(m.Keys);
    var all := ByteOrder.Sorted(m.Keys);
    assert forall j | 0 <= j < |all| :: all[j] in all;
  }

  /** Output key k stands for keys[j]: the last of the first n keys that is cut to k. */
  ghost predicate StandsFor(keys: seq<string>, n: nat, k: string, j: nat) {
    j < n <= |keys| && k == Truncated(keys[j], MAX_KEY) && forall h | j < h < n :: k != Truncated(keys[h], MAX_KEY)
  }

  ghost predicate HasCut(out: Labels, key: string) {
    Truncated(key, MAX_KEY) in out
  }

  ghost predicate CutValue(m: Labels, keys: seq<string>, n: nat, k: string, value: string, maxValue: nat) {
    exists j: nat :: StandsFor(keys, n, k, j) && keys[j] in m && value == Truncated(m[keys[j]], maxValue)
  }

  /** The first n keys copied: each is there cut to size, and every output value is the truncated
      value of the key it stands for. */
  ghost predicate Copied(m: Labels, keys: seq<string>, n: nat, maxValue: nat, out: Labels) {
    && n <= |keys| && |out| <= n
    && (forall j | 0 <= j < n :: HasCut(out, keys[j]))
    && (forall k | k in out :: CutValue(m, keys, n, k, out[k], maxValue))
  }

  /** What boundStringMap makes of a map. */
  ghost predicate IsBounded(m: Labels, maxEntries: nat, maxValue: nat, out: Labels) {
    var keys := FirstOf(m, maxEntries);
    Copied(m, keys, |keys|, maxValue, out)
  }

  lemma CopiedStep(m: Labels, keys: seq<string>, n: nat, maxValue: nat, out: Labels, key: string, value: string)
    requires n < |keys| && keys[n] in m && Copied(m, keys, n, maxValue, out)
    requires key == Truncated(keys[n], MAX_KEY) && value == Truncated(m[keys[n]], maxValue)
    ensures Copied(m, keys, n + 1, maxValue, out[key := value])
  {
    hide Truncated;
    var out' := out[key := value];
    assert out'.Keys == out.Keys + {key};
    forall j | 0 <= j < n + 1 ensures HasCut(out', keys[j]) {
      if j < n {
        assert HasCut(out, keys[j]);
      }
    }
    forall k | k in out' ensures CutValue(m, keys, n + 1, k, out'[k], maxValue) {
      if k == key {
        assert StandsFor(keys, n + 1, k, n);
      } else {
        assert CutValue(m, keys, n, k, out[k], maxValue);
        CutValueStep(m, keys, n, maxValue, k, out[k]);
      }
    }
  }

  lemma CutValueStep(m: Labels, keys: seq<string>, n: nat, maxValue: nat, k: string, value: string)
    requires n < |keys| && CutValue(m, keys, n, k, value, maxValue) && k != Truncated(keys[n], MAX_KEY)
    ensures CutValue(m, keys, n + 1, k, value, maxValue)
  {
    hide Truncated;
    var j: nat :| StandsFor(keys, n, k, j) && keys[j] in m && value == Truncated(m[keys[j]], maxValue);
    assert StandsFor(keys, n + 1, k, j);
  }

  /** A key or value that is cut. */
  predicate TooLong(m: Labels, key: string, maxValue: nat)
    requires key in m
  {
    |key| > MAX_KEY || |m[key]| > maxValue
  }

  ghost predicate SomeTooLong(m: Labels, keys: seq<string>, n: nat, maxValue: nat) {
    exists j :: 0 <= j < n <= |keys| && keys[j] in m && TooLong(m, keys[j], maxValue)
  }

  method FirstKeys(m: Labels, maxEntries: nat) returns (keys: seq<string>)
    ensures keys == FirstOf(m, maxEntries)
  {
    keys := ByteOrder.Sorted(m.Keys);
    if |keys| > maxEntries {
      keys := keys[..maxEntries];
    }
  }

  method CopyKeys(m: Labels, keys: seq<string>, maxValue: nat) returns (out: Labels, cut: bool)
    requires forall j | 0 <= j < |keys| :: keys[j] in m
    ensures Copied(m, keys, |keys|, maxValue, out)
    ensures cut <==> SomeTooLong(m, keys, |keys|, maxValue)
  {
    out, cut := map[], false;
    for i := 0 to |keys|
      invariant Copied(m, keys, i, maxValue, out)
      invariant cut <==> SomeTooLong(m, keys, i, maxValue)
    {
      var boundedKey := TruncateUtf8(keys[i], MAX_KEY);
      var boundedValue := TruncateUtf8(m[keys[i]], maxValue);
      CopiedStep(m, keys, i, maxValue, out, boundedKey, boundedValue);
      assert boundedKey != keys[i] || boundedValue != m[keys[i]] <==> TooLong(m, keys[i], maxValue);
      cut := cut || boundedKey != keys[i] || boundedValue != m[keys[i]];
      out := out[boundedKey := boundedValue];
    }
  }

  /** The first labels in key order, keys and values truncated; `changed` says whether anything was
      lost. */
  method BoundStringMap(m: Labels, maxEntries: nat, maxValue: nat) returns (out: Labels, changed: bool)
    ensures IsBounded(m, maxEntries, maxValue, out)
    ensures changed <==> out != m
  {
    if |m| == 0 {
      assert m == map[];
      return map[], false;
    }
    FirstMembers(m, maxEntries);
    var keys := FirstKeys(m, maxEntries);
    var cut;
    out, cut := CopyKeys(m, keys, maxValue);
    changed := |keys| != |m| || cut;
    if cut {
      CutShows(m, keys, maxValue, out);
    } else if |keys| == |m| {
      NothingCut(m, keys, maxValue, out);
    }
  }

  lemma CutShows(m: Labels, keys: seq<string>, maxValue: nat, out: Labels)
    requires Copied(m, keys, |keys|, maxValue, out) && SomeTooLong(m, keys, |keys|, maxValue)
    ensures out != m
  {
    var j :| 0 <= j < |keys| && keys[j] in m && TooLong(m, keys[j], maxValue);
    var key := keys[j];
    if key in out {
      assert CutValue(m, keys, |keys|, key, out[key], maxValue);
      var i: nat :| StandsFor(keys, |keys|, key, i) && keys[i] in m && out[key] == Truncated(m[keys[i]], maxValue);
      assert |key| <= MAX_KEY && |out[key]| <= maxValue;
      assert out[key] != m[key];
    }
  }

  lemma NothingCut(m: Labels, keys: seq<string>, maxValue: nat, out: Labels)
    requires Copied(m, keys, |keys|, maxValue, out) && !SomeTooLong(m, keys, |keys|, maxValue)
    requires (forall j | 0 <= j < |keys| :: keys[j] in m) && (forall k | k in m :: k in keys)
    ensures out == m
  {
    forall j | 0 <= j < |keys| ensures keys[j] in out && !TooLong(m, keys[j], maxValue) {
      assert !TooLong(m, keys[j], maxValue);
      assert HasCut(out, keys[j]);
    }
    forall k | k in out ensures k in m && out[k] == m[k] {
      assert CutValue(m, keys, |keys|, k, out[k], maxValue);
      var j: nat :| StandsFor(keys, |keys|, k, j) && out[k] == Truncated(m[keys[j]], maxValue);
      assert !TooLong(m, keys[j], maxValue);
    }
    assert out.Keys == m.Keys;
  }

  /** This leaves one result. */
  lemma BoundedIsUnique(m: Labels, maxEntries: nat, maxValue: nat, a: Labels, b: Labels)
    requires IsBounded(m, maxEntries, maxValue, a) && IsBounded(m, maxEntries, maxValue, b)
    ensures a == b
  {
    var keys := FirstOf(m, maxEntries);
    BoundedIsContained(m, keys, maxValue, a, b);
    BoundedIsContained(m, keys, maxValue, b, a);
    assert a.Keys == b.Keys;
  }

  lemma BoundedIsContained(m: Labels, keys: seq<string>, maxValue: nat, a: Labels, b: Labels)
    requires Copied(m, keys, |keys|, maxValue, a) && Copied(m, keys, |keys|, maxValue, b)
    ensures forall k | k in a :: k in b && a[k] == b[k]
  {
    forall k | k in a ensures k in b && a[k] == b[k] {
      assert CutValue(m, keys, |keys|, k, a[k], maxValue);
      var i: nat :| StandsFor(keys, |keys|, k, i) && keys[i] in m && a[k] == Truncated(m[keys[i]], maxValue);
      assert HasCut(b, keys[i]);
      assert CutValue(m, keys, |keys|, k, b[k], maxValue);
      var j: nat :| StandsFor(keys, |keys|, k, j) && keys[j] in m && b[k] == Truncated(m[keys[j]], maxValue);
      assert i == j;
    }
  }

  // ---- The stages of boundLogEntry ----

  /** The text a bounded entry may show: its own, or its JSON payload's encoding. */
  function SourceText(e: Entry): string {
    if e.jsonPayload.Some? then e.jsonPayload.value else e.textPayload
  }

  ghost predicate CutRequest(a: Option<Request>, b: Option<Request>) {
    if a.None? || b.None? then a == b
    else
      && b.value == a.value.(url := b.value.url, userAgent := b.value.userAgent)
      && b.value.url == Truncated(a.value.url, 512) && b.value.userAgent == Truncated(a.value.userAgent, 256)
  }

  ghost predicate CutResource(a: Option<Resource>, b: Option<Resource>) {
    if a.None? || b.None? then a == b
    else b.value.kind == a.value.kind && IsBounded(a.value.labels, 24, 128, b.value.labels)
  }

  /** The entry after the stages every oversized entry goes through. */
  ghost predicate Staged(le: Entry, s: Entry) {
    && s == le.(textPayload := s.textPayload, jsonPayload := None, httpRequest := s.httpRequest,
                labels := s.labels, resource := s.resource)
    && s.textPayload == Truncated(SourceText(le), 4096)
    && CutRequest(le.httpRequest, s.httpRequest)
    && IsBounded(le.labels, 24, 128, s.labels)
    && CutResource(le.resource, s.resource)
  }

  ghost predicate SameIdentity(le: Entry, r: Entry) {
    && r.timestamp == le.timestamp && r.severity == le.severity && r.logName == le.logName && r.insertID == le.insertID
    && r.payloadConversionError == le.payloadConversionError && r.trace == le.trace && r.spanID == le.spanID
    && r.operation == le.operation
  }

  function PayloadMarks(le: Entry): seq<FieldName> {
    if le.jsonPayload.Some? then [JsonPayload] else if |le.textPayload| > 4096 then [TextPayload] else []
  }

  function RequestMarks(h: Option<Request>): seq<FieldName> {
    MarkIf(h.Some? && |h.value.url| > 512, RequestUrl) + MarkIf(h.Some? && |h.value.userAgent| > 256, RequestUserAgent)
  }

  function MarkIf(lost: bool, field: FieldName): seq<FieldName> {
    if lost then [field] else []
  }

  function LabelMarks(le: Entry, s: Entry): seq<FieldName> {
    MarkIf(s.labels != le.labels, LabelsField) + MarkIf(s.resource != le.resource, ResourceLabels)
  }

  function StageMarks(le: Entry, s: Entry): seq<FieldName> {
    PayloadMarks(le) + RequestMarks(le.httpRequest) + LabelMarks(le, s)
  }

  method ShrinkPayload(le: Entry) returns (r: Entry, fields: seq<FieldName>)
    ensures r == le.(textPayload := r.textPayload, jsonPayload := None)
    ensures r.textPayload == Truncated(SourceText(le), 4096)
    ensures fields == PayloadMarks(le)
  {
    r, fields := le, [];
    if le.jsonPayload.Some? {
      var text := TruncateUtf8(le.jsonPayload.value, 4096);
      r := le.(jsonPayload := None, textPayload := text);
      fields := fields + [JsonPayload];
    } else if |le.textPayload| > 4096 {
      var text := TruncateUtf8(le.textPayload, 4096);
      r := le.(textPayload := text);
      fields := fields + [TextPayload];
    }
  }

  method ShrinkRequest(e: Entry, fields: seq<FieldName>) returns (r: Entry, fields': seq<FieldName>)
    ensures r == e.(httpRequest := r.httpRequest) && CutRequest(e.httpRequest, r.httpRequest)
    ensures fields' == fields + RequestMarks(e.httpRequest)
  {
    r, fields' := e, fields;
    if e.httpRequest.Some? {
      var h := e.httpRequest.value;
      if |h.url| > 512 {
        var url := TruncateUtf8(h.url, 512);
        fields' := fields' + [RequestUrl];
        h := h.(url := url);
      }
      if |h.userAgent| > 256 {
        var userAgent := TruncateUtf8(h.userAgent, 256);
        fields' := fields' + [RequestUserAgent];
        h := h.(userAgent := userAgent);
      }
      r := e.(httpRequest := Some(h));
    }
  }

  method ShrinkResource(a: Option<Resource>) returns (b: Option<Resource>, changed: bool)
    ensures CutResource(a, b) && (changed <==> b != a)
  {
    b, changed := a, false;
    if a.Some? {
      var labels;
      labels, changed := BoundStringMap(a.value.labels, 24, 128);
      b := Some(a.value.(labels := labels));
    }
  }

  method ShrinkLabels(e: Entry, fields: seq<FieldName>) returns (r: Entry, fields': seq<FieldName>)
    ensures r == e.(labels := r.labels, resource := r.resource)
    ensures IsBounded(e.labels, 24, 128, r.labels) && CutResource(e.resource, r.resource)
    ensures fields' == fields + LabelMarks(e, r)
  {
    hide Encoded, IsBounded;
    var labels, changed := BoundStringMap(e.labels, 24, 128);
    r, fields' := e.(labels := labels), fields;
    if changed {
      fields' := fields' + [LabelsField];
    }
    var resource;
    resource, changed := ShrinkResource(e.resource);
    r := r.(resource := resource);
    if changed {
      fields' := fields' + [ResourceLabels];
    }
  }

  method Shrink(le: Entry) returns (s: Entry, fields: seq<FieldName>)
    ensures Staged(le, s) && fields == StageMarks(le, s)
  {
    s, fields := ShrinkPayload(le);
    s, fields := ShrinkRequest(s, fields);
    s, fields := ShrinkLabels(s, fields);
  }

  // ---- The last resorts ----

  function WithoutLabels(e: Entry): Entry {
    e.(labels := map[])
  }

  function WithoutResourceLabels(e: Entry): Entry {
    if e.resource.Some? then e.(resource := Some(e.resource.value.(labels := map[]))) else e
  }

  function WithoutRequest(e: Entry): Entry {
    e.(httpRequest := None)
  }

  function WithCutText(e: Entry): Entry {
    e.(textPayload := Truncated(e.textPayload, 1024))
  }

  /** The entry with the first k of the four last resorts taken. */
  function Rung(s: Entry, k: nat): Entry
    requires k <= 4
  {
    if k == 0 then s
    else if k == 1 then WithoutLabels(s)
    else if k == 2 then WithoutResourceLabels(WithoutLabels(s))
    else if k == 3 then WithoutRequest(WithoutResourceLabels(WithoutLabels(s)))
    else WithCutText(WithoutRequest(WithoutResourceLabels(WithoutLabels(s))))
  }

  /** How many are taken. */
  function Drops(s: Entry): (n: nat)
    ensures n <= 4
  {
    if Fits(Rung(s, 0)) then 0
    else if Fits(Rung(s, 1)) then 1
    else if Fits(Rung(s, 2)) then 2
    else if Fits(Rung(s, 3)) then 3
    else 4
  }

  /** The fewest that make the entry fit, or all four. */
  lemma DropsFewest(s: Entry)
    ensures Drops(s) < 4 ==> Fits(Rung(s, Drops(s)))
    ensures forall k: nat | k < Drops(s) :: !Fits(Rung(s, k))
  {
    hide Encoded, Rung;
  }

  function DropMarks(s: Entry, n: nat): seq<FieldName> {
    MarkIf(n >= 1, LabelsField) + MarkIf(n >= 2 && s.resource.Some?, ResourceLabels)
    + MarkIf(n >= 3, HttpRequest) + MarkIf(n >= 4, Payload)
  }

  /** They are taken in order, each only while the entry does not fit, and marked. */
  method DropUntilFits(s: Entry, fields: seq<FieldName>) returns (r: Entry, fields': seq<FieldName>)
    ensures r == Rung(s, Drops(s)) && fields' == fields + DropMarks(s, Drops(s))
  {
    hide Encoded;
    r, fields' := s, fields;
    if !Fits(r) {
      r, fields' := WithoutLabels(r), fields' + [LabelsField];
    }
    if !Fits(r) && r.resource.Some? {
      r, fields' := WithoutResourceLabels(r), fields' + [ResourceLabels];
    }
    if !Fits(r) {
      r, fields' := WithoutRequest(r), fields' + [HttpRequest];
    }
    if !Fits(r) {
      var text := TruncateUtf8(r.textPayload, 1024);
      r, fields' := r.(textPayload := text), fields' + [Payload];
    }
  }

  // ---- boundLogEntry ----

  function Max(a: int, b: int): int {
    if a > b then a else b
  }

  function Marks(le: Entry, s: Entry, n: nat): seq<FieldName> {
    StageMarks(le, s) + DropMarks(s, n)
  }

  /** The reduced entry with the list of what was cut, and the bytes saved before they were
      counted. */
  function Full(le: Entry, s: Entry, n: nat): Entry
    requires n <= 4
  {
    var marked := Rung(s, n).(entryTruncated := true, truncatedFields := Marks(le, s, n));
    marked.(omittedBytes := Max(0, Encoded(le) - Encoded(marked)))
  }

  /** The routing-only record: nothing but cut identity fields and the truncation marks. */
  ghost predicate RoutingOnly(e: Entry) {
    && |e.timestamp| <= 64 && |e.severity| <= 32 && |e.logName| <= 256 && |e.insertID| <= 128
    && |e.trace| <= 256 && |e.spanID| <= 64
    && e.textPayload == "" && e.jsonPayload == None && e.payloadConversionError == ""
    && e.resource == None && e.httpRequest == None && e.labels == map[] && e.operation == None
    && e.entryTruncated && 0 <= e.omittedBytes <= MAX_INT
    && |e.truncatedFields| <= 10
  }

  lemma HeadSize(e: Entry)
    requires RoutingOnly(e)
    ensures Parts(HeadParts(e)) <= 3000
  {
    StrSize(e.timestamp, 64);
    StrSize(e.severity, 32);
    StrSize(e.logName, 256);
    StrSize(e.insertID, 128);
    var a, b, c, d := Field("timestamp", StrLen(e.timestamp)), Field("severity", StrLen(e.severity)),
                      Field("log_name", StrLen(e.logName)), Field("insert_id", StrLen(e.insertID));
    PartsOfOne(a);
    PartsOfOne(b);
    PartsOfOne(c);
    PartsOfOne(d);
    PartsJoin([a], [b]);
    PartsJoin([a] + [b], [c]);
    PartsJoin([a] + [b] + [c], [d]);
    assert HeadParts(e) == [a] + [b] + [c] + [d];
  }

  lemma TraceSize(e: Entry)
    requires RoutingOnly(e)
    ensures Parts(TraceParts(e)) <= 2000
  {
    StrSize(e.trace, 256);
    StrSize(e.spanID, 64);
    OptionalSize(e.trace != "", Field("trace", StrLen(e.trace)));
    OptionalSize(e.spanID != "", Field("span_id", StrLen(e.spanID)));
    PartsJoin(StrPart("trace", e.trace), StrPart("span_id", e.spanID));
  }

  lemma TruncationSize(e: Entry)
    requires RoutingOnly(e)
    ensures Parts(TruncationParts(e)) <= 1600
  {
    IntDigits(e.omittedBytes);
    ListSize(e.truncatedFields);
    var a, b := Optional(e.entryTruncated, Field("entry_truncated", 4)), IntPart("omitted_bytes", e.omittedBytes);
    var c := Optional(e.truncatedFields != [], Field("truncated_fields", Wrapped(ListLens(e.truncatedFields))));
    OptionalSize(e.entryTruncated, Field("entry_truncated", 4));
    OptionalSize(e.omittedBytes != 0, Field("omitted_bytes", IntLen(e.omittedBytes)));
    OptionalSize(e.truncatedFields != [], Field("truncated_fields", Wrapped(ListLens(e.truncatedFields))));
    PartsJoin(a, b);
    PartsJoin(a + b, c);
  }

  /** Six bytes for every byte kept, and it still fits. */
  lemma RoutingFits(e: Entry)
    requires RoutingOnly(e)
    ensures Fits(e)
  {
    HeadSize(e);
    TraceSize(e);
    TruncationSize(e);
    var head, trace, marks := HeadParts(e), TraceParts(e), TruncationParts(e);
    NothingElse(e);
    PartsJoin(head, trace);
    PartsJoin(head + trace, marks);
  }

  lemma NothingElse(e: Entry)
    requires RoutingOnly(e)
    ensures HeadParts(e) + PayloadParts(e) + ContextParts(e) + TraceParts(e) + LabelParts(e) + TruncationParts(e)
            == HeadParts(e) + TraceParts(e) + TruncationParts(e)
  {
    assert PayloadParts(e) == [] && ContextParts(e) == [] && LabelParts(e) == [];
  }

  /** The last fallback keeps the identity fields of the entry, cut to size, and nothing else. */
  ghost predicate Routed(le: Entry, r: Entry, fields: seq<FieldName>) {
    && RoutingOnly(r)
    && r.timestamp == Truncated(le.timestamp, 64) && r.severity == Truncated(le.severity, 32)
    && r.logName == Truncated(le.logName, 256) && r.insertID == Truncated(le.insertID, 128)
    && r.trace == Truncated(le.trace, 256) && r.spanID == Truncated(le.spanID, 64)
    && r.truncatedFields == fields
    && r.omittedBytes == Max(0, Encoded(le) - Encoded(r.(omittedBytes := 0)))
  }

  lemma IdentityKept(le: Entry, s: Entry, n: nat)
    requires SameIdentity(le, s) && n <= 4
    ensures SameIdentity(le, Rung(s, n))
  {
  }

  lemma MarksFew(le: Entry, s: Entry, n: nat)
    ensures |Marks(le, s, n)| <= 9
  {
  }

  method Fallback(le: Entry, e: Entry, fields: seq<FieldName>, original: nat) returns (r: Entry)
    requires original == Encoded(le) <= MAX_INT && |fields| <= 10
    requires SameIdentity(le, e)
    ensures Routed(le, r, fields)
  {
    hide Encoded, Truncated;
    var timestamp := TruncateUtf8(e.timestamp, 64);
    var severity := TruncateUtf8(e.severity, 32);
    var logName := TruncateUtf8(e.logName, 256);
    var insertID := TruncateUtf8(e.insertID, 128);
    var trace := TruncateUtf8(e.trace, 256);
    var spanID := TruncateUtf8(e.spanID, 64);
    r := Entry(timestamp, severity, logName, insertID, "", None, "", None, None, trace, spanID, map[], None, true, 0, fields);
    var current := Encoded(r);
    r := r.(omittedBytes := Max(0, original - current));
  }

  /** What an oversized entry becomes: staged to s, it loses the fewest last resorts that make it
      fit and is returned with its marks; the routing-only record replaces it only if the marks
      leave it too large. */
  ghost predicate Reduced(le: Entry, s: Entry, r: Entry) {
    && Staged(le, s)
    && var n := Drops(s);
       if Fits(Full(le, s, n)) then r == Full(le, s, n)
       else Routed(le, r, Marks(le, s, n) + [OversizedMetadata])
  }

  /** For every entry, whatever its field sizes, the result fits; an entry that fits is returned as
      it is. */
  method BoundLogEntry(le: Entry) returns (r: Entry)
    requires Encoded(le) <= MAX_INT
    ensures Fits(r)
    ensures if Fits(le) then r == le else exists s :: Reduced(le, s, r)
  {
    hide Encoded;
    var original := Encoded(le);
    if original <= MAX_ENTRY {
      return le;
    }
    var s, fields := Shrink(le);
    var reduced;
    reduced, fields := DropUntilFits(s, fields);
    var marked := reduced.(entryTruncated := true, truncatedFields := fields);
    var current := Encoded(marked);
    r := marked.(omittedBytes := Max(0, original - current));
    assert r == Full(le, s, Drops(s));
    if !Fits(r) {
      IdentityKept(le, s, Drops(s));
      MarksFew(le, s, Drops(s));
      r := Fallback(le, r, fields + [OversizedMetadata], original);
      RoutingFits(r);
    }
    assert Reduced(le, s, r);
  }

  /** What is left when n last resorts were taken: the labels go first, then the resource's labels,
      then the request, and last all but 1024 bytes of the text; every other field stays. */
  lemma RungExactly(s: Entry, n: nat)
    requires n <= 4
    ensures var r := Rung(s, n);
            && r == s.(textPayload := r.textPayload, resource := r.resource, httpRequest := r.httpRequest, labels := r.labels)
            && r.labels == (if n >= 1 then map[] else s.labels)
            && (if s.resource.None? then r.resource == None
                else r.resource == Some(Resource(s.resource.value.kind, if n >= 2 then map[] else s.resource.value.labels)))
            && r.httpRequest == (if n >= 3 then None else s.httpRequest)
            && r.textPayload == (if n >= 4 then Truncated(s.textPayload, 1024) else s.textPayload)
  {
    hide Truncated;
  }

  /** Whether the reduced entry has this field cut. */
  predicate IsCut(le: Entry, s: Entry, n: nat, f: FieldName) {
    match f
    case JsonPayload => le.jsonPayload.Some?
    case TextPayload => le.jsonPayload.None? && |le.textPayload| > 4096
    case RequestUrl => le.httpRequest.Some? && |le.httpRequest.value.url| > 512
    case RequestUserAgent => le.httpRequest.Some? && |le.httpRequest.value.userAgent| > 256
    case LabelsField => s.labels != le.labels || n >= 1
    case ResourceLabels => s.resource != le.resource || (n >= 2 && s.resource.Some?)
    case HttpRequest => n >= 3
    case Payload => n >= 4
    case OversizedMetadata => false
  }

  lemma InMark(lost: bool, g: FieldName, f: FieldName)
    ensures f in MarkIf(lost, g) <==> lost && f == g
  {
  }

  lemma InStageMarks(le: Entry, s: Entry, f: FieldName)
    ensures f in StageMarks(le, s) <==>
              || (f in PayloadMarks(le))
              || (f == RequestUrl && IsCut(le, s, 0, f)) || (f == RequestUserAgent && IsCut(le, s, 0, f))
              || (f == LabelsField && s.labels != le.labels) || (f == ResourceLabels && s.resource != le.resource)
  {
    var h := le.httpRequest;
    InMark(h.Some? && |h.value.url| > 512, RequestUrl, f);
    InMark(h.Some? && |h.value.userAgent| > 256, RequestUserAgent, f);
    InMark(s.labels != le.labels, LabelsField, f);
    InMark(s.resource != le.resource, ResourceLabels, f);
    hide MarkIf, PayloadMarks;
  }

  lemma InDropMarks(s: Entry, n: nat, f: FieldName)
    ensures f in DropMarks(s, n) <==>
              || (f == LabelsField && n >= 1) || (f == ResourceLabels && n >= 2 && s.resource.Some?)
              || (f == HttpRequest && n >= 3) || (f == Payload && n >= 4)
  {
    InMark(n >= 1, LabelsField, f);
    InMark(n >= 2 && s.resource.Some?, ResourceLabels, f);
    InMark(n >= 3, HttpRequest, f);
    InMark(n >= 4, Payload, f);
    hide MarkIf;
  }

  lemma InMarks(le: Entry, s: Entry, n: nat, f: FieldName)
    ensures f in Marks(le, s, n) <==> IsCut(le, s, n, f)
  {
    InStageMarks(le, s, f);
    InDropMarks(s, n, f);
    hide StageMarks, DropMarks;
  }

  /** The reduced entry lists exactly the fields that were cut, and the bytes by which its encoding
      without that number is shorter than the original's. */
  lemma MarksExactly(le: Entry, s: Entry, n: nat)
    requires n <= 4
    ensures var r := Full(le, s, n);
            && r == Rung(s, n).(entryTruncated := true, truncatedFields := r.truncatedFields, omittedBytes := r.omittedBytes)
            && (forall f :: f in r.truncatedFields <==> IsCut(le, s, n, f))
            && var saved := Encoded(le) - Encoded(r.(omittedBytes := Rung(s, n).omittedBytes));
               r.omittedBytes == if saved > 0 then saved else 0
  {
    hide Encoded, Rung, Marks, IsCut;
    var r := Rung(s, n).(entryTruncated := true, truncatedFields := Marks(le, s, n));
    assert Full(le, s, n).(omittedBytes := Rung(s, n).omittedBytes) == r;
    forall f ensures f in Marks(le, s, n) <==> IsCut(le, s, n, f) {
      InMarks(le, s, n, f);
    }
  }

  // ---- Nothing is cut without its mark ----

  /** What became of a label map: kept, bounded, or dropped. */
  ghost predicate CutLabels(a: Labels, b: Labels) {
    b == a || b == map[] || IsBounded(a, 24, 128, b)
  }

  ghost predicate ResourceMarked(a: Option<Resource>, b: Option<Resource>, fields: seq<FieldName>) {
    if a.None? || b.None? then a == b
    else
      && a.value.kind == b.value.kind && CutLabels(a.value.labels, b.value.labels)
      && (a.value.labels == b.value.labels || ResourceLabels in fields)
  }

  ghost predicate RequestMarked(a: Option<Request>, b: Option<Request>, fields: seq<FieldName>) {
    a == b || (b.None? && HttpRequest in fields)
    || (a.Some? && b.Some?
        && b.value.url <= a.value.url && b.value.userAgent <= a.value.userAgent
        && b.value == a.value.(url := b.value.url, userAgent := b.value.userAgent)
        && (b.value.url == a.value.url || RequestUrl in fields)
        && (b.value.userAgent == a.value.userAgent || RequestUserAgent in fields))
  }

  /** The entry returned is made of parts of the original, its identity untouched, and every
      difference between them has its mark in the list. */
  ghost predicate Marked(le: Entry, r: Entry, fields: seq<FieldName>) {
    && SameIdentity(le, r)
    && r.textPayload <= SourceText(le) && (r.jsonPayload == None || r.jsonPayload == le.jsonPayload)
    && CutLabels(le.labels, r.labels)
    && (r.jsonPayload == le.jsonPayload || JsonPayload in fields)
    && (r.textPayload == le.textPayload || JsonPayload in fields || TextPayload in fields || Payload in fields)
    && (r.labels == le.labels || LabelsField in fields)
    && ResourceMarked(le.resource, r.resource, fields)
    && RequestMarked(le.httpRequest, r.httpRequest, fields)
  }

  lemma RequestIsMarked(a: Option<Request>, b: Option<Request>)
    requires CutRequest(a, b)
    ensures RequestMarked(a, b, RequestMarks(a))
  {
    if a.Some? {
      TruncatedIsPrefix(a.value.url, 512);
      TruncatedIsPrefix(a.value.userAgent, 256);
    }
  }

  lemma StagedIsMarked(le: Entry, s: Entry)
    requires Staged(le, s)
    ensures Marked(le, s, StageMarks(le, s))
  {
    hide Encoded, Truncated, IsBounded, CutRequest, RequestMarks;
    TruncatedIsPrefix(SourceText(le), 4096);
    RequestIsMarked(le.httpRequest, s.httpRequest);
  }

  lemma DropsNamed(s: Entry, n: nat)
    ensures n >= 1 ==> LabelsField in DropMarks(s, n)
    ensures n >= 2 && s.resource.Some? ==> ResourceLabels in DropMarks(s, n)
    ensures n >= 3 ==> HttpRequest in DropMarks(s, n)
    ensures n >= 4 ==> Payload in DropMarks(s, n)
  {
  }

  lemma RungIsMarked(le: Entry, s: Entry, n: nat, fields: seq<FieldName>, drops: seq<FieldName>)
    requires Marked(le, s, fields) && n <= 4 && drops == DropMarks(s, n)
    ensures Marked(le, Rung(s, n), fields + drops)
  {
    hide IsBounded, DropMarks;
    DropsNamed(s, n);
  }

  lemma NothingUnmarked(le: Entry, s: Entry, n: nat)
    requires Staged(le, s) && n <= 4
    ensures Marked(le, Rung(s, n), Marks(le, s, n))
  {
    hide StageMarks, DropMarks, Staged, Marked, Rung;
    StagedIsMarked(le, s);
    RungIsMarked(le, s, n, StageMarks(le, s), DropMarks(s, n));
  }
}
