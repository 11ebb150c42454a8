/** The normalised log entry of internal/gcpdata/types.go and the length json.Marshal gives it.

    Strings hold one character per byte.  A JSON payload is given by its encoding, and a nil map
    is an empty one.  The pointed-to request and resource are values here. */
module LogEncoding {
  import ByteOrder
  import opened Options
  import opened Utf8

  const MAX_ENTRY := 8192

  /** The largest Go int, which no encoded length exceeds. */
  const MAX_INT := 9223372036854775807

  type Labels = map<string, string>

  datatype Resource = Resource(kind: string, labels: Labels)

  datatype Request = Request(verb: string, url: string, status: int, responseSize: int,
                             userAgent: string, remoteIP: string, latency: string)

  datatype Operation = Operation(id: string, producer: string)

  /** What truncated_fields can name. */
  datatype FieldName =
    | JsonPayload | TextPayload | RequestUrl | RequestUserAgent | LabelsField | ResourceLabels | HttpRequest | Payload
    | OversizedMetadata

  function NameOf(f: FieldName): (s: string)
    ensures |s| <= 23
  {
    match f
    case JsonPayload => "json_payload"
    case TextPayload => "text_payload"
    case RequestUrl => "http_request.url"
    case RequestUserAgent => "http_request.user_agent"
    case LabelsField => "labels"
    case ResourceLabels => "resource.labels"
    case HttpRequest => "http_request"
    case Payload => "payload"
    case OversizedMetadata => "oversized_metadata"
  }

  datatype Entry = Entry(
    timestamp: string, severity: string, logName: string, insertID: string,
    textPayload: string, jsonPayload: Option<string>, payloadConversionError: string,
    resource: Option<Resource>, httpRequest: Option<Request>,
    trace: string, spanID: string, labels: Labels, operation: Option<Operation>,
    entryTruncated: bool, omittedBytes: int, truncatedFields: seq<FieldName>)

  // ---- The encoded length ----

  function Digits(n: nat): nat {
    if n < 10 then 1 else 1 + Digits(n / 10)
  }

  function IntLen(n: int): nat {
    if n < 0 then 1 + Digits(-n) else Digits(n)
  }

  function StrLen(s: string): nat {
    2 + Escaped(s)
  }

  /** "name":value, for a name that needs no escapes. */
  function Field(name: string, value: nat): nat {
    |name| + 3 + value
  }

  /** An object or array with the given parts, commas between them. */
  function Parts(parts: seq<nat>): nat {
    if parts == [] then 0 else Parts(parts[..|parts| - 1]) + parts[|parts| - 1] + if |parts| == 1 then 0 else 1
  }

  function Wrapped(parts: seq<nat>): nat {
    2 + Parts(parts)
  }

  /** A field left out when empty. */
  function Optional(present: bool, part: nat): seq<nat> {
    if present then [part] else []
  }

  function StrPart(name: string, s: string): seq<nat> {
    Optional(s != "", Field(name, StrLen(s)))
  }

  function IntPart(name: string, n: int): seq<nat> {
    Optional(n != 0, Field(name, IntLen(n)))
  }

  function PairLens(m: Labels, keys: seq<string>): seq<nat>
    requires forall i | 0 <= i < |keys| :: keys[i] in m
  {
    if keys == [] then []
    else
      var k := keys[|keys| - 1];
      PairLens(m, keys[..|keys| - 1]) + [StrLen(k) + 1 + StrLen(m[k])]
  }

  function LabelsLen(m: Labels): nat {
    ByteOrder.SortedMembers(m.Keys);
    var keys := ByteOrder.Sorted(m.Keys);
    assert forall i | 0 <= i < |keys| :: keys[i] in keys;
    Wrapped(PairLens(m, keys))
  }

  function ResourceLen(r: Resource): nat {
    Wrapped([Field("type", StrLen(r.kind))] + Optional(r.labels != map[], Field("labels", LabelsLen(r.labels))))
  }

  function RequestLen(h: Request): nat {
    Wrapped(StrPart("method", h.verb) + StrPart("url", h.url) + IntPart("status", h.status)
            + IntPart("response_size", h.responseSize) + StrPart("user_agent", h.userAgent)
            + StrPart("remote_ip", h.remoteIP) + StrPart("latency", h.latency))
  }

  function OperationLen(o: Operation): nat {
    Wrapped(StrPart("id", o.id) + StrPart("producer", o.producer))
  }

  function ListLens(fields: seq<FieldName>): seq<nat> {
    if fields == [] then [] else ListLens(fields[..|fields| - 1]) + [StrLen(NameOf(fields[|fields| - 1]))]
  }

  /** The fields every entry has. */
  function HeadParts(e: Entry): seq<nat> {
    [Field("timestamp", StrLen(e.timestamp)), Field("severity", StrLen(e.severity)),
     Field("log_name", StrLen(e.logName)), Field("insert_id", StrLen(e.insertID))]
  }

  function PayloadParts(e: Entry): seq<nat> {
    StrPart("text_payload", e.textPayload)
    + (if e.jsonPayload.Some? then Optional(e.jsonPayload.value != "{}", Field("json_payload", |e.jsonPayload.value|)) else [])
    + StrPart("payload_conversion_error", e.payloadConversionError)
  }

  function ContextParts(e: Entry): seq<nat> {
    (if e.resource.Some? then [Field("resource", ResourceLen(e.resource.value))] else [])
    + (if e.httpRequest.Some? then [Field("http_request", RequestLen(e.httpRequest.value))] else [])
  }

  function TraceParts(e: Entry): seq<nat> {
    StrPart("trace", e.trace) + StrPart("span_id", e.spanID)
  }

  function LabelParts(e: Entry): seq<nat> {
    Optional(e.labels != map[], Field("labels", LabelsLen(e.labels)))
    + (if e.operation.Some? then [Field("operation", OperationLen(e.operation.value))] else [])
  }

  function TruncationParts(e: Entry): seq<nat> {
    Optional(e.entryTruncated, Field("entry_truncated", 4)) + IntPart("omitted_bytes", e.omittedBytes)
    + Optional(e.truncatedFields != [], Field("truncated_fields", Wrapped(ListLens(e.truncatedFields))))
  }

  /** The length of json.Marshal's output. */
  function Encoded(e: Entry): nat {
    Wrapped(HeadParts(e) + PayloadParts(e) + ContextParts(e) + TraceParts(e) + LabelParts(e) + TruncationParts(e))
  }

  predicate Fits(e: Entry) {
    Encoded(e) <= MAX_ENTRY
  }

  // ---- Sizes ----

  lemma {:induction false} PartsJoin(a: seq<nat>, b: seq<nat>)
    ensures Parts(a + b) == Parts(a) + Parts(b) + if a == [] || b == [] then 0 else 1
  {
    if b == [] {
      assert a + b == a;
    } else if a == [] {
      assert a + b == b;
    } else {
      PartsJoin(a, b[..|b| - 1]);
      assert (a + b)[..|a + b| - 1] == a + b[..|b| - 1];
    }
  }

  lemma PartsOfOne(x: nat)
    ensures Parts([x]) == x
  {
    assert [x][..0] == [];
  }

  lemma OptionalSize(present: bool, part: nat)
    ensures Parts(Optional(present, part)) <= part
  {
    PartsOfOne(part);
  }

  function Pow10(k: nat): nat {
    if k == 0 then 1 else 10 * Pow10(k - 1)
  }

  lemma {:induction false} DigitsBound(n: nat, k: nat)
    requires n < Pow10(k) && k >= 1
    ensures Digits(n) <= k
  {
    if n >= 10 && k > 1 {
      DigitsBound(n / 10, k - 1);
    }
  }

  lemma IntDigits(n: nat)
    requires n <= MAX_INT
    ensures IntLen(n) <= 19
  {
    assert Pow10(19) == 10000000000000000000 by {
      assert Pow10(4) == 10000;
      assert Pow10(8) == 100000000;
      assert Pow10(12) == 1000000000000;
      assert Pow10(16) == 10000000000000000;
    }
    DigitsBound(n, 19);
  }

  lemma {:induction false} ListSize(fields: seq<FieldName>)
    ensures Parts(ListLens(fields)) <= 141 * |fields|
    ensures |ListLens(fields)| == |fields|
  {
    if fields != [] {
      var init, name := fields[..|fields| - 1], NameOf(fields[|fields| - 1]);
      ListSize(init);
      EscapedBound(name);
      PartsJoin(ListLens(init), [StrLen(name)]);
      PartsOfOne(StrLen(name));
    }
  }

  lemma StrSize(s: string, n: nat)
    requires |s| <= n
    ensures StrLen(s) <= 2 + 6 * n
  {
    EscapedBound(s);
  }
}
