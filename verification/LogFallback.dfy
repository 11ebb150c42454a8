/** When boundLogEntry of internal/gcpdata/logs.go gives up an entry's content for the routing-only
    record: for an entry whose identity is not huge, only when the marks of what was cut are what
    no longer fits. */
module LogFallback {
  import opened LogBounds
  import opened LogEncoding
  import opened Options
  import opened Utf8

  /** An entry as it comes from conversion, without truncation marks. */
  predicate Unmarked(e: Entry) {
    !e.entryTruncated && e.omittedBytes == 0 && e.truncatedFields == []
  }

  /** Identity, error, operation and resource type: what no stage and no last resort touches. */
  function Core(le: Entry): Entry {
    WithoutRequest(WithoutResourceLabels(WithoutLabels(le))).(textPayload := "", jsonPayload := None)
  }

  const CORE_LIMIT := 1811

  /** What the marks add to the encoded length. */
  function MarksLen(e: Entry): nat {
    1 + Parts(TruncationParts(e))
  }

  const MARKS_LIMIT := 219

  // ---- The length of the marks ----

  predicate Plain(c: char) {
    0x20 <= c as int < 0x80 && EscapedByte(c as int) == 1
  }

  lemma {:induction false} PlainLen(s: string)
    requires forall i | 0 <= i < |s| :: Plain(s[i])
    ensures Escaped(s) == |s|
  {
    if s != [] {
      assert Plain(s[0]);
      forall i | 0 <= i < |s[1..]| ensures Plain(s[1..][i]) {
        assert s[1..][i] == s[i + 1];
      }
      PlainLen(s[1..]);
    }
  }

  lemma NamePlain(f: FieldName, i: nat)
    requires i < |NameOf(f)|
    ensures Plain(NameOf(f)[i])
  {
  }

  lemma NameLen(f: FieldName)
    ensures StrLen(NameOf(f)) == |NameOf(f)| + 2
  {
    hide NameOf, Escaped, Plain;
    forall i | 0 <= i < |NameOf(f)| ensures Plain(NameOf(f)[i]) {
      NamePlain(f, i);
    }
    PlainLen(NameOf(f));
  }

  lemma {:induction false} ListLensJoin(a: seq<FieldName>, b: seq<FieldName>)
    ensures ListLens(a + b) == ListLens(a) + ListLens(b)
  {
    if b == [] {
      assert a + b == a;
    } else {
      ListLensJoin(a, b[..|b| - 1]);
      assert (a + b)[..|a + b| - 1] == a + b[..|b| - 1];
    }
  }

  /** The length of a list of marks, and a comma. */
  function ListCost(fields: seq<FieldName>): nat {
    1 + Parts(ListLens(fields))
  }

  lemma CostJoin(a: seq<FieldName>, b: seq<FieldName>)
    ensures ListCost(a + b) <= ListCost(a) + ListCost(b)
  {
    ListLensJoin(a, b);
    PartsJoin(ListLens(a), ListLens(b));
  }

  lemma CostOfMark(lost: bool, f: FieldName)
    ensures ListCost(MarkIf(lost, f)) <= |NameOf(f)| + 3
  {
    NameLen(f);
    PartsOfOne(StrLen(NameOf(f)));
    assert [f][..0] == [];
    assert lost ==> ListLens([f]) == [StrLen(NameOf(f))];
  }

  lemma PayloadCost(le: Entry)
    ensures ListCost(PayloadMarks(le)) <= 15
  {
    CostOfMark(le.jsonPayload.Some?, JsonPayload);
    CostOfMark(|le.textPayload| > 4096, TextPayload);
  }

  lemma StageCost(le: Entry, s: Entry)
    ensures ListCost(StageMarks(le, s)) <= 87
  {
    hide MarkIf, ListCost, PayloadMarks;
    var h := le.httpRequest;
    var url, userAgent := h.Some? && |h.value.url| > 512, h.Some? && |h.value.userAgent| > 256;
    PayloadCost(le);
    CostOfMark(url, RequestUrl);
    CostOfMark(userAgent, RequestUserAgent);
    CostOfMark(s.labels != le.labels, LabelsField);
    CostOfMark(s.resource != le.resource, ResourceLabels);
    CostJoin(MarkIf(url, RequestUrl), MarkIf(userAgent, RequestUserAgent));
    CostJoin(MarkIf(s.labels != le.labels, LabelsField), MarkIf(s.resource != le.resource, ResourceLabels));
    CostJoin(PayloadMarks(le), RequestMarks(h));
    CostJoin(PayloadMarks(le) + RequestMarks(h), LabelMarks(le, s));
  }

  lemma DropCost(s: Entry, n: nat)
    ensures ListCost(DropMarks(s, n)) <= 52
  {
    hide MarkIf, ListCost;
    var a, b := MarkIf(n >= 1, LabelsField), MarkIf(n >= 2 && s.resource.Some?, ResourceLabels);
    var c, d := MarkIf(n >= 3, HttpRequest), MarkIf(n >= 4, Payload);
    CostOfMark(n >= 1, LabelsField);
    CostOfMark(n >= 2 && s.resource.Some?, ResourceLabels);
    CostOfMark(n >= 3, HttpRequest);
    CostOfMark(n >= 4, Payload);
    CostJoin(a, b);
    CostJoin(a + b, c);
    CostJoin(a + b + c, d);
  }

  lemma MarksCost(le: Entry, s: Entry, n: nat)
    ensures ListCost(Marks(le, s, n)) <= 139
  {
    hide ListCost, StageMarks, DropMarks;
    StageCost(le, s);
    DropCost(s, n);
    CostJoin(StageMarks(le, s), DropMarks(s, n));
  }

  lemma MarksLenBound(e: Entry)
    requires e.entryTruncated && 0 <= e.omittedBytes <= MAX_INT && ListCost(e.truncatedFields) <= 139
    ensures MarksLen(e) <= MARKS_LIMIT
  {
    IntDigits(e.omittedBytes);
    var list := Field("truncated_fields", Wrapped(ListLens(e.truncatedFields)));
    var a, b, c := Optional(true, Field("entry_truncated", 4)), IntPart("omitted_bytes", e.omittedBytes), Optional(e.truncatedFields != [], list);
    OptionalSize(true, Field("entry_truncated", 4));
    OptionalSize(e.omittedBytes != 0, Field("omitted_bytes", IntLen(e.omittedBytes)));
    OptionalSize(e.truncatedFields != [], list);
    PartsJoin(a, b);
    PartsJoin(a + b, c);
  }

  // ---- The length of the rest ----

  /** All parts but the marks. */
  function Content(e: Entry): seq<nat> {
    HeadParts(e) + PayloadParts(e) + ContextParts(e) + TraceParts(e) + LabelParts(e)
  }

  lemma LenByContent(e: Entry)
    ensures Encoded(e) == 2 + Parts(Content(e)) + if TruncationParts(e) == [] then 0 else MarksLen(e)
  {
    PartsJoin(Content(e), TruncationParts(e));
  }

  lemma SameContent(e: Entry, m: Entry)
    requires m == e.(entryTruncated := m.entryTruncated, truncatedFields := m.truncatedFields, omittedBytes := m.omittedBytes)
    ensures Content(m) == Content(e)
  {
    hide Optional, StrPart, Field, StrLen, LabelsLen, ResourceLen, RequestLen, OperationLen;
    assert HeadParts(m) == HeadParts(e) && PayloadParts(m) == PayloadParts(e) && ContextParts(m) == ContextParts(e);
    assert TraceParts(m) == TraceParts(e) && LabelParts(m) == LabelParts(e);
  }

  lemma MarksThere(e: Entry)
    ensures e.entryTruncated ==> TruncationParts(e) != []
    ensures Unmarked(e) ==> TruncationParts(e) == []
  {
  }

  /** The marks come on top of what was there. */
  lemma FullLen(le: Entry, s: Entry, n: nat)
    requires Unmarked(s) && n <= 4
    ensures Encoded(Full(le, s, n)) == Encoded(Rung(s, n)) + MarksLen(Full(le, s, n))
  {
    hide Encoded, Marks, Content, MarksLen, TruncationParts;
    var full, rung := Full(le, s, n), Rung(s, n);
    SameContent(rung, full);
    MarksThere(full);
    MarksThere(rung);
    LenByContent(full);
    LenByContent(rung);
  }

  lemma Inserted(h: seq<nat>, t: seq<nat>, err: seq<nat>, c: seq<nat>, r: seq<nat>, l: seq<nat>)
    ensures Parts(h + (t + [] + err) + c + r + l) <= Parts(h + ([] + [] + err) + c + r + l) + Parts(t) + 1
  {
    var rest := err + c + r + l;
    assert h + (t + [] + err) + c + r + l == h + t + rest;
    assert h + ([] + [] + err) + c + r + l == h + rest;
    PartsJoin(h, t);
    PartsJoin(h + t, rest);
    PartsJoin(h, rest);
  }

  lemma CutText(s: string)
    ensures Parts(StrPart("text_payload", Truncated(s, 1024))) <= 6161
  {
    TruncatedIff(Truncated(s, 1024), s, 1024);
    StrSize(Truncated(s, 1024), 1024);
    OptionalSize(Truncated(s, 1024) != "", Field("text_payload", StrLen(Truncated(s, 1024))));
  }

  lemma SameCoreParts(le: Entry, s: Entry)
    requires Staged(le, s)
    ensures var core, last := Core(le), Rung(s, 4);
            && HeadParts(last) == HeadParts(core) && ContextParts(last) == ContextParts(core)
            && TraceParts(last) == TraceParts(core) && LabelParts(last) == LabelParts(core)
            && PayloadParts(core) == [] + [] + StrPart("payload_conversion_error", le.payloadConversionError)
            && PayloadParts(last) == StrPart("text_payload", last.textPayload) + [] + StrPart("payload_conversion_error", le.payloadConversionError)
            && last.textPayload == Truncated(s.textPayload, 1024)
  {
    hide Truncated, IsBounded, Field, StrLen, LabelsLen, ResourceLen, RequestLen, OperationLen;
    var core, last := Core(le), Rung(s, 4);
    assert core.resource == last.resource;
  }

  /** All that is left after the last of the last resorts is the core and 1024 bytes of text. */
  lemma LastRungLen(le: Entry, s: Entry)
    requires Unmarked(le) && Staged(le, s)
    ensures Encoded(Rung(s, 4)) <= Encoded(Core(le)) + 6162
  {
    hide Encoded, Truncated, Rung, Core, HeadParts, PayloadParts, ContextParts, TraceParts, LabelParts, StrPart;
    var core, last := Core(le), Rung(s, 4);
    SameCoreParts(le, s);
    CutText(s.textPayload);
    Inserted(HeadParts(core), StrPart("text_payload", last.textPayload),
             StrPart("payload_conversion_error", le.payloadConversionError), ContextParts(core), TraceParts(core), LabelParts(core));
    UnmarkedEnds(le, s);
    MarksThere(core);
    MarksThere(last);
    LenByContent(core);
    LenByContent(last);
  }

  lemma UnmarkedEnds(le: Entry, s: Entry)
    requires Unmarked(le) && Staged(le, s)
    ensures Unmarked(s) && Unmarked(Core(le)) && Unmarked(Rung(s, 4))
  {
  }

  // ---- When the content is given up ----

  lemma FullMarks(le: Entry, s: Entry, n: nat)
    requires n <= 4 && Encoded(le) <= MAX_INT
    ensures MarksLen(Full(le, s, n)) <= MARKS_LIMIT
  {
    hide Encoded, Marks, ListCost, MarksLen;
    MarksCost(le, s, n);
    MarksLenBound(Full(le, s, n));
  }

  /** With a core of at most CORE_LIMIT bytes, the entry that has lost all it can lose fits with its
      marks, however large its payload, labels and request were. */
  lemma LastRungFits(le: Entry, s: Entry)
    requires Unmarked(le) && Staged(le, s) && Encoded(le) <= MAX_INT
    requires Encoded(Core(le)) <= CORE_LIMIT
    ensures Fits(Full(le, s, 4))
  {
    hide Encoded, MarksLen, Full, Rung, Core;
    LastRungLen(le, s);
    UnmarkedEnds(le, s);
    FullLen(le, s, 4);
    FullMarks(le, s, 4);
  }

  /** Such an entry does not fit with its marks, and so is replaced by the routing-only record,
      exactly when the first of its reduced forms that fits leaves less room than its marks take:
      never at the last one, and never when MARKS_LIMIT bytes are left. */
  lemma RoutedIff(le: Entry, s: Entry)
    requires Unmarked(le) && Staged(le, s) && Encoded(le) <= MAX_INT
    requires Encoded(Core(le)) <= CORE_LIMIT
    ensures var n := Drops(s);
            && MarksLen(Full(le, s, n)) <= MARKS_LIMIT
            && (!Fits(Full(le, s, n)) <==>
                  n < 4 && MAX_ENTRY - MarksLen(Full(le, s, n)) < Encoded(Rung(s, n)) <= MAX_ENTRY)
  {
    hide Encoded, MarksLen, Full, Rung, Core, Staged, Drops;
    UnmarkedEnds(le, s);
    FullLen(le, s, Drops(s));
    FullMarks(le, s, Drops(s));
    DropsFewest(s);
    if Drops(s) == 4 {
      LastRungFits(le, s);
    }
  }

  // ---- A small entry that is given up ----

  function Repeat(c: char, n: nat): string {
    seq(n, _ => c)
  }

  lemma {:induction false} EscapedRepeat(c: char, n: nat, t: string)
    requires c as int < 0x80
    ensures Escaped(Repeat(c, n) + t) == n * EscapedByte(c as int) + Escaped(t)
  {
    var s := Repeat(c, n) + t;
    if n == 0 {
      assert s == t;
    } else {
      assert s[1..] == Repeat(c, n - 1) + t;
      EscapedRepeat(c, n - 1, t);
      assert RuneLen(s) == 1;
    }
  }

  /** 3990 quotation marks, two bytes each when escaped, and then n letters. */
  function QuotedText(n: nat): string {
    Repeat('"', 3990) + Repeat('x', n)
  }

  lemma QuotedLen(n: nat)
    ensures StrLen(QuotedText(n)) == 7982 + n
  {
    EscapedRepeat('"', 3990, Repeat('x', n));
    EscapedRepeat('x', n, "");
    assert Repeat('x', n) + "" == Repeat('x', n);
  }

  function TextEntry(text: string): Entry {
    Entry("", "", "", "", text, None, "", None, None, "", "", map[], None, false, 0, [])
  }

  lemma TextEntryLen(text: string)
    ensures Encoded(TextEntry(text)) == 59 + if text == "" then 0 else 16 + StrLen(text)
  {
    var e := TextEntry(text);
    var a, b, c, d := Field("timestamp", 2), Field("severity", 2), Field("log_name", 2), Field("insert_id", 2);
    var t := StrPart("text_payload", text);
    assert Content(e) == [a] + [b] + [c] + [d] + t;
    PartsOfOne(a);
    PartsOfOne(b);
    PartsOfOne(c);
    PartsOfOne(d);
    PartsOfOne(Field("text_payload", StrLen(text)));
    PartsJoin([a], [b]);
    PartsJoin([a] + [b], [c]);
    PartsJoin([a] + [b] + [c], [d]);
    PartsJoin([a] + [b] + [c] + [d], t);
    MarksThere(e);
    LenByContent(e);
  }

  lemma NoLabelsBounded()
    ensures IsBounded(map[], 24, 128, map[])
  {
  }

  lemma TextStaged(n: nat)
    requires n >= 106
    ensures Staged(TextEntry(QuotedText(n)), TextEntry(QuotedText(106)))
  {
    hide IsBounded;
    NoLabelsBounded();
    var text := QuotedText(n);
    assert |text| <= 4096 ==> text == QuotedText(106);
    assert |text| > 4096 ==> RuneStart(text[4096]) && text[..4096] == QuotedText(106);
  }

  /** An entry with an empty core is replaced too: its 9000 bytes of text are cut to 4096, which fit
      with 29 bytes to spare, and the marks take more.  Cut to 1024 bytes it would have fitted with
      them. */
  lemma RoutedThoughSmall() returns (le: Entry, s: Entry)
    ensures Unmarked(le) && Encoded(Core(le)) <= CORE_LIMIT && !Fits(le)
    ensures Staged(le, s) && Drops(s) == 0
    ensures !Fits(Full(le, s, 0)) && Fits(Full(le, s, 4))
  {
    hide Encoded, Full, TruncationParts;
    le, s := TextEntry(QuotedText(5010)), TextEntry(QuotedText(106));
    QuotedLen(5010);
    QuotedLen(106);
    TextEntryLen(le.textPayload);
    TextEntryLen(s.textPayload);
    TextStaged(5010);
    assert Core(le) == TextEntry("");
    TextEntryLen("");
    FullLen(le, s, 0);
    TextMarks(le, s);
    LastRungFits(le, s);
  }

  lemma TextMarks(le: Entry, s: Entry)
    requires le == TextEntry(le.textPayload) && |le.textPayload| > 4096
    ensures MarksLen(Full(le, s, 0)) >= 30
  {
    var fields := Marks(le, s, 0);
    assert TextPayload in fields;
    var full := Full(le, s, 0);
    var list := Field("truncated_fields", Wrapped(ListLens(fields)));
    var a, b := [Field("entry_truncated", 4)], IntPart("omitted_bytes", full.omittedBytes);
    assert TruncationParts(full) == a + b + [list];
    PartsOfOne(list);
    PartsJoin(a + b, [list]);
  }
}
