/** ListProfiles of internal/gcpdata/profiler.go: client-side filtering over an API that only
    pages, with a cursor that can resume inside an API page. */
module ProfilePaging {

  datatype Profile = Profile(id: string, profileType: string, target: string, startTime: string)

  /** What profileFilter.match says of a profile. */
  datatype Verdict = Verdict(matches: bool, parseError: bool)

  type Judge = Profile -> Verdict

  /** API tokens are opaque: only equality and emptiness matter. */
  datatype ApiToken = NoToken | Token(id: nat)

  /** The hash of project and filter. */
  type Fingerprint = nat

  datatype Cursor = Cursor(apiToken: ApiToken, offset: int, fingerprint: Fingerprint)

  /** The page_token a caller sends: empty, an encoded cursor, or something that does not decode. */
  datatype PageToken = Empty | Encoded(cursor: Cursor) | Malformed

  datatype Error = InvalidCursor | InvalidOffset | ListingFailed

  datatype Answer =
    | Page(profiles: seq<Profile>, excluded: nat, truncated: bool, next: PageToken)
    | Failed(error: Error)

  const MAX_SCAN := 20_000

  // ---- A listing that does not change between calls ----

  /** Page k is what the API returns for tokens[k]; the token after the last page is empty. */
  datatype Listing = Listing(pages: seq<seq<Profile>>, tokens: seq<ApiToken>)

  predicate Stable(l: Listing) {
    && |l.pages| == |l.tokens| > 0 && l.tokens[0] == NoToken
    && forall i, j | 0 <= i < j < |l.tokens| :: l.tokens[i] != l.tokens[j]
  }

  /** The page the API returns for a token. */
  function Find(l: Listing, token: ApiToken): (k: nat)
    requires Stable(l) && token in l.tokens
    ensures k < |l.tokens| && l.tokens[k] == token
  {
    var k :| 0 <= k < |l.tokens| && l.tokens[k] == token;
    k
  }

  lemma FindAt(l: Listing, k: nat)
    requires Stable(l) && k < |l.tokens|
    ensures l.tokens[k] in l.tokens && Find(l, l.tokens[k]) == k
  {
  }

  function NextToken(l: Listing, k: nat): ApiToken
    requires Stable(l) && k < |l.pages|
  {
    if k + 1 < |l.tokens| then l.tokens[k + 1] else NoToken
  }

  function Flat(pages: seq<seq<Profile>>): seq<Profile> {
    if pages == [] then [] else Flat(pages[..|pages| - 1]) + pages[|pages| - 1]
  }

  /** The position of page k in the flat listing. */
  function Start(pages: seq<seq<Profile>>, k: nat): nat
    requires k <= |pages|
  {
    if k == 0 then 0 else Start(pages, k - 1) + |pages[k - 1]|
  }

  lemma {:induction false} StartOfPrefix(pages: seq<seq<Profile>>, n: nat, k: nat)
    requires k <= n <= |pages|
    ensures Start(pages[..n], k) == Start(pages, k)
  {
    if k > 0 {
      StartOfPrefix(pages, n, k - 1);
    }
  }

  lemma {:induction false} FlatLength(pages: seq<seq<Profile>>)
    ensures |Flat(pages)| == Start(pages, |pages|)
  {
    if pages != [] {
      var n := |pages| - 1;
      FlatLength(pages[..n]);
      StartOfPrefix(pages, n, n);
    }
  }

  lemma {:induction false} StartsAscend(pages: seq<seq<Profile>>, j: nat, k: nat)
    requires j <= k <= |pages|
    ensures Start(pages, j) <= Start(pages, k)
  {
    if j < k {
      StartsAscend(pages, j, k - 1);
    }
  }

  lemma StartInFlat(pages: seq<seq<Profile>>, k: nat)
    requires k <= |pages|
    ensures Start(pages, k) <= |Flat(pages)|
  {
    FlatLength(pages);
    StartsAscend(pages, k, |pages|);
  }

  lemma {:induction false} ProfileInFlat(pages: seq<seq<Profile>>, k: nat, i: nat)
    requires k < |pages| && i < |pages[k]|
    ensures Start(pages, k) + i < |Flat(pages)| && Flat(pages)[Start(pages, k) + i] == pages[k][i]
  {
    var n := |pages| - 1;
    StartOfPrefix(pages, n, k);
    if k < n {
      ProfileInFlat(pages[..n], k, i);
    } else {
      FlatLength(pages[..n]);
    }
  }

  // ---- What a scan of part of the listing yields ----

  /** The matches at positions a to b of the listing, in order. */
  function Select(s: seq<Profile>, a: nat, b: nat, judge: Judge): seq<Profile>
    requires b <= |s|
  {
    if b <= a then [] else Select(s, a, b - 1, judge) + if judge(s[b - 1]).matches then [s[b - 1]] else []
  }

  function Unparsed(s: seq<Profile>, a: nat, b: nat, judge: Judge): nat
    requires b <= |s|
  {
    if b <= a then 0 else Unparsed(s, a, b - 1, judge) + if judge(s[b - 1]).parseError then 1 else 0
  }

  lemma {:induction false} SelectJoins(s: seq<Profile>, a: nat, b: nat, c: nat, judge: Judge)
    requires a <= b <= c <= |s|
    ensures Select(s, a, b, judge) + Select(s, b, c, judge) == Select(s, a, c, judge)
  {
    if b < c {
      SelectJoins(s, a, b, c - 1, judge);
    } else {
      assert Select(s, b, c, judge) == [];
    }
  }

  predicate Matching(s: seq<Profile>, a: nat, b: nat, judge: Judge, k: nat) {
    a <= k < b <= |s| && judge(s[k]).matches
  }

  lemma MatchingGrows(s: seq<Profile>, a: nat, b: nat, judge: Judge)
    requires b <= |s|
    ensures if b <= a then forall k: nat :: !Matching(s, a, b, judge, k)
            else forall k: nat :: Matching(s, a, b, judge, k) <==>
                   Matching(s, a, b - 1, judge, k) || (k == b - 1 && judge(s[b - 1]).matches)
  {
  }

  /** What is selected are the profiles at the positions that match, each position once and in the
      order of the listing. */
  lemma {:induction false} SelectsTheMatches(s: seq<Profile>, a: nat, b: nat, judge: Judge) returns (at: seq<nat>)
    requires b <= |s|
    ensures forall i, j | 0 <= i < j < |at| :: at[i] < at[j]
    ensures forall k: nat :: k in at <==> Matching(s, a, b, judge, k)
    ensures |Select(s, a, b, judge)| == |at|
    ensures forall i | 0 <= i < |at| :: at[i] < b && Select(s, a, b, judge)[i] == s[at[i]]
  {
    hide Matching;
    at := [];
    MatchingGrows(s, a, b, judge);
    if a < b {
      at := SelectsTheMatches(s, a, b - 1, judge);
      if judge(s[b - 1]).matches {
        at := at + [b - 1];
      }
    }
  }

  ghost function UnparsedPositions(s: seq<Profile>, a: nat, b: nat, judge: Judge): set<nat>
    requires b <= |s|
  {
    set k: nat | a <= k < b && judge(s[k]).parseError
  }

  /** The excluded count is that of the profiles whose start time does not parse. */
  lemma {:induction false} UnparsedCounts(s: seq<Profile>, a: nat, b: nat, judge: Judge)
    requires b <= |s|
    ensures Unparsed(s, a, b, judge) == |UnparsedPositions(s, a, b, judge)|
  {
    if a < b {
      UnparsedCounts(s, a, b - 1, judge);
      assert UnparsedPositions(s, a, b, judge)
             == UnparsedPositions(s, a, b - 1, judge) + if judge(s[b - 1]).parseError then {b - 1} else {};
    } else {
      assert |UnparsedPositions(s, a, b, judge)| == 0;
    }
  }

  // ---- Cursors ----

  /** A token that points into the listing. */
  predicate Points(l: Listing, token: PageToken)
    requires Stable(l)
  {
    token.Empty?
    || (token.Encoded? && token.cursor.apiToken in l.tokens
        && 0 <= token.cursor.offset <= |l.pages[Find(l, token.cursor.apiToken)]|)
  }

  predicate Accepts(l: Listing, fingerprint: Fingerprint, token: PageToken)
    requires Stable(l)
  {
    Points(l, token) && (token.Encoded? ==> token.cursor.fingerprint == fingerprint)
  }

  function Position(l: Listing, token: PageToken): nat
    requires Stable(l) && Points(l, token)
  {
    if token.Empty? then 0 else Start(l.pages, Find(l, token.cursor.apiToken)) + token.cursor.offset
  }

  /** What one call promises: it scans the listing from where its token points to position b, and
      its next token points exactly there, unless the listing is exhausted.  It stops at the page
      limit or the scan limit, never short of both. */
  ghost predicate AnswersTo(l: Listing, judge: Judge, fingerprint: Fingerprint, pageSize: int, token: PageToken, r: Answer, b: nat)
    requires Stable(l)
  {
    && r.Page? && Accepts(l, fingerprint, token)
    && var a, flat := Position(l, token), Flat(l.pages);
       && a <= b <= |flat| && b - a <= MAX_SCAN
       && r.profiles == Select(flat, a, b, judge) && r.excluded == Unparsed(flat, a, b, judge)
       && (pageSize >= 1 ==> |r.profiles| <= pageSize)
       && (pageSize >= 1 && |r.profiles| == pageSize ==> a < b && LastMatches(l, judge, b))
       && r.truncated == r.next.Encoded?
       && if r.next.Encoded? then
            && Accepts(l, fingerprint, r.next) && Position(l, r.next) == b && a < b
            && (|r.profiles| == pageSize || b - a == MAX_SCAN)
          else r.next.Empty? && b == |flat|
  }

  /** Where the call stopped, as its next token says. */
  function EndOf(l: Listing, r: Answer): nat
    requires Stable(l) && r.Page? && Points(l, r.next)
  {
    if r.next.Encoded? then Position(l, r.next) else |Flat(l.pages)|
  }

  ghost predicate Answers(l: Listing, judge: Judge, fingerprint: Fingerprint, pageSize: int, token: PageToken, r: Answer)
    requires Stable(l)
  {
    r.Page? && Points(l, r.next) && AnswersTo(l, judge, fingerprint, pageSize, token, r, EndOf(l, r))
  }

  // ---- The scan ----

  ghost predicate Scanned(l: Listing, judge: Judge, a: nat, pos: nat, profiles: seq<Profile>, excluded: nat) {
    && a <= pos <= |Flat(l.pages)|
    && profiles == Select(Flat(l.pages), a, pos, judge)
    && excluded == Unparsed(Flat(l.pages), a, pos, judge)
  }

  /** A resume point: a real one, or the end of the listing. */
  ghost predicate Resumes(l: Listing, token: ApiToken, offset: int, pos: nat)
    requires Stable(l)
  {
    if token == NoToken && offset == 0 then pos == |Flat(l.pages)|
    else
      && token in l.tokens && 0 <= offset <= |l.pages[Find(l, token)]|
      && Start(l.pages, Find(l, token)) + offset == pos
  }

  lemma ScanOne(l: Listing, judge: Judge, a: nat, k: nat, i: nat, profiles: seq<Profile>, excluded: nat)
    requires k < |l.pages| && i < |l.pages[k]|
    requires Scanned(l, judge, a, Start(l.pages, k) + i, profiles, excluded)
    ensures var v := judge(l.pages[k][i]);
            Scanned(l, judge, a, Start(l.pages, k) + i + 1,
                    if v.matches then profiles + [l.pages[k][i]] else profiles,
                    if v.parseError then excluded + 1 else excluded)
    ensures judge(l.pages[k][i]).matches ==> LastMatches(l, judge, Start(l.pages, k) + i + 1)
  {
    ProfileInFlat(l.pages, k, i);
  }

  lemma ResumeAfter(l: Listing, k: nat, i: nat)
    requires Stable(l) && k < |l.pages| && i < |l.pages[k]|
    ensures i + 1 < |l.pages[k]| ==> Resumes(l, l.tokens[k], i + 1, Start(l.pages, k) + i + 1)
    ensures i + 1 == |l.pages[k]| ==> Resumes(l, NextToken(l, k), 0, Start(l.pages, k) + i + 1)
  {
    if i + 1 < |l.pages[k]| {
      FindAt(l, k);
    } else {
      PageEnd(l, k);
    }
  }

  /** The next page to fetch, and where to start in it. */
  ghost predicate Fetching(l: Listing, pageStart: ApiToken, offset: int, pos: nat)
    requires Stable(l)
  {
    && pageStart in l.tokens && 0 <= offset <= |l.pages[Find(l, pageStart)]|
    && pos == Start(l.pages, Find(l, pageStart)) + offset
  }

  lemma LastPageEnd(l: Listing, k: nat)
    requires Stable(l) && k + 1 == |l.pages|
    ensures NextToken(l, k) == NoToken && Start(l.pages, k) + |l.pages[k]| == |Flat(l.pages)|
  {
    FlatLength(l.pages);
  }

  lemma NextPageStart(l: Listing, k: nat)
    requires Stable(l) && k + 1 < |l.pages|
    ensures NextToken(l, k) != NoToken && Fetching(l, NextToken(l, k), 0, Start(l.pages, k) + |l.pages[k]|)
    ensures Find(l, NextToken(l, k)) == k + 1
  {
    FindAt(l, k + 1);
  }

  lemma PageEnd(l: Listing, k: nat)
    requires Stable(l) && k < |l.pages|
    ensures NextToken(l, k) == NoToken ==> Start(l.pages, k) + |l.pages[k]| == |Flat(l.pages)|
    ensures NextToken(l, k) != NoToken ==>
              Fetching(l, NextToken(l, k), 0, Start(l.pages, k) + |l.pages[k]|) && Find(l, NextToken(l, k)) == k + 1
  {
    if k + 1 < |l.pages| {
      NextPageStart(l, k);
    } else {
      LastPageEnd(l, k);
    }
  }

  function Decode(token: PageToken, fingerprint: Fingerprint): (c: PageToken)
  {
    match token
    case Empty => Encoded(Cursor(NoToken, 0, fingerprint))
    case Encoded(c) => if c.offset < 0 || c.fingerprint != fingerprint then Malformed else token
    case Malformed => Malformed
  }

  /** The error each refused token gets. */
  ghost predicate Refusal(l: Listing, fingerprint: Fingerprint, token: PageToken, e: Error)
    requires Stable(l)
  {
    if token.Malformed? || (token.Encoded? && (token.cursor.fingerprint != fingerprint || token.cursor.offset < 0)) then
      e == InvalidCursor
    else
      && token.Encoded?
      && e == if token.cursor.apiToken !in l.tokens then ListingFailed else InvalidOffset
  }

  /** The variables of the scan. */
  datatype Scan = Scan(profiles: seq<Profile>, excluded: nat, scanned: nat, resumeToken: ApiToken, resumeOffset: int)

  ghost predicate ScanAt(l: Listing, judge: Judge, a: nat, pos: nat, s: Scan)
    requires Stable(l)
  {
    && Scanned(l, judge, a, pos, s.profiles, s.excluded)
    && s.scanned == pos - a <= MAX_SCAN
    && (s.scanned > 0 ==> Resumes(l, s.resumeToken, s.resumeOffset, pos))
  }

  ghost predicate LastMatches(l: Listing, judge: Judge, b: nat) {
    0 < b <= |Flat(l.pages)| && judge(Flat(l.pages)[b - 1]).matches
  }

  function TokenFor(apiToken: ApiToken, offset: int, fingerprint: Fingerprint): PageToken {
    if apiToken == NoToken && offset == 0 then Empty else Encoded(Cursor(apiToken, offset, fingerprint))
  }

  /** A scan that stopped after at least one profile is an answer to its token. */
  lemma StoppedAnswers(l: Listing, judge: Judge, fingerprint: Fingerprint, pageSize: int, token: PageToken, s: Scan, b: nat)
    requires Stable(l) && Accepts(l, fingerprint, token) && ScanAt(l, judge, Position(l, token), b, s) && s.scanned > 0
    requires |s.profiles| == pageSize || s.scanned == MAX_SCAN
    requires pageSize >= 1 ==> |s.profiles| <= pageSize && (|s.profiles| == pageSize ==> LastMatches(l, judge, b))
    ensures var next := TokenFor(s.resumeToken, s.resumeOffset, fingerprint);
            Answers(l, judge, fingerprint, pageSize, token, Page(s.profiles, s.excluded, next.Encoded?, next))
  {
  }

  /** The answer after the loops. */
  function Finish(s: Scan, fingerprint: Fingerprint): Answer {
    var truncated := s.scanned >= MAX_SCAN && (s.resumeToken != NoToken || s.resumeOffset != 0);
    Page(s.profiles, s.excluded, truncated, if truncated then Encoded(Cursor(s.resumeToken, s.resumeOffset, fingerprint)) else Empty)
  }

  lemma FinishAnswers(l: Listing, judge: Judge, fingerprint: Fingerprint, pageSize: int, token: PageToken, s: Scan, b: nat)
    requires Stable(l) && Accepts(l, fingerprint, token) && ScanAt(l, judge, Position(l, token), b, s)
    requires pageSize >= 1 ==> |s.profiles| < pageSize
    requires s.scanned == MAX_SCAN || b == |Flat(l.pages)|
    ensures Answers(l, judge, fingerprint, pageSize, token, Finish(s, fingerprint))
  {
    if s.scanned == MAX_SCAN {
      StoppedAnswers(l, judge, fingerprint, pageSize, token, s, b);
    }
  }

  /** Where a call resumes that fills up with profile i of page k. */
  function LimitToken(l: Listing, k: nat, i: nat, fingerprint: Fingerprint): PageToken
    requires Stable(l) && k < |l.pages| && i < |l.pages[k]|
  {
    if i + 1 < |l.pages[k]| then Encoded(Cursor(l.tokens[k], i + 1, fingerprint))
    else if NextToken(l, k) != NoToken then Encoded(Cursor(NextToken(l, k), 0, fingerprint))
    else Empty
  }

  /** The turn of the inner loop for profile i of page k. */
  method ScanProfile(l: Listing, judge: Judge, fingerprint: Fingerprint, k: nat, i: nat, s: Scan, ghost a: nat, ghost pos: nat)
    returns (s': Scan, matched: bool, next: PageToken)
    requires Stable(l) && k < |l.pages| && i < |l.pages[k]|
    requires pos == Start(l.pages, k) + i && ScanAt(l, judge, a, pos, s) && s.scanned < MAX_SCAN
    ensures ScanAt(l, judge, a, pos + 1, s') && s'.scanned == s.scanned + 1
    ensures |s'.profiles| == |s.profiles| + if matched then 1 else 0
    ensures matched ==> LastMatches(l, judge, pos + 1)
    ensures next == TokenFor(s'.resumeToken, s'.resumeOffset, fingerprint)
  {
    ScanOne(l, judge, a, k, i, s.profiles, s.excluded);
    ResumeAfter(l, k, i);
    next := LimitToken(l, k, i, fingerprint);
    s' := s.(scanned := s.scanned + 1);
    if i + 1 < |l.pages[k]| {
      s' := s'.(resumeToken := l.tokens[k], resumeOffset := i + 1);
    } else {
      s' := s'.(resumeToken := NextToken(l, k), resumeOffset := 0);
    }
    var verdict := judge(l.pages[k][i]);
    if verdict.parseError {
      s' := s'.(excluded := s'.excluded + 1);
    }
    matched := verdict.matches;
    if matched {
      s' := s'.(profiles := s'.profiles + [l.pages[k][i]]);
    }
  }

  /** Either the page limit was just hit, with `next` the token to hand out, or it was not. */
  ghost predicate Limit(l: Listing, judge: Judge, fingerprint: Fingerprint, pageSize: int, s: Scan, full: bool, next: PageToken, pos: nat) {
    if full then
      |s.profiles| == pageSize && s.scanned > 0 && LastMatches(l, judge, pos)
      && next == TokenFor(s.resumeToken, s.resumeOffset, fingerprint)
    else pageSize >= 1 ==> |s.profiles| < pageSize
  }

  /** The inner loop over one API page; `next` is the answer's token when the page limit is hit. */
  method ScanPage(l: Listing, judge: Judge, fingerprint: Fingerprint, pageSize: int, k: nat, offset: nat, s: Scan, ghost a: nat)
    returns (s': Scan, full: bool, next: PageToken, ghost end: nat)
    requires Stable(l) && k < |l.pages| && offset <= |l.pages[k]|
    requires ScanAt(l, judge, a, Start(l.pages, k) + offset, s) && s.scanned < MAX_SCAN
    requires pageSize >= 1 ==> |s.profiles| < pageSize
    ensures ScanAt(l, judge, a, end, s') && Limit(l, judge, fingerprint, pageSize, s', full, next, end)
    ensures !full && s'.scanned < MAX_SCAN ==> end == Start(l.pages, k) + |l.pages[k]|
  {
    hide Scanned, Resumes, LastMatches, TokenFor, Stable, Flat;
    s', full, next, end := s, false, Empty, Start(l.pages, k) + offset;
    var page := l.pages[k];
    var i := offset;
    while i < |page| && s'.scanned < MAX_SCAN && !full
      invariant i <= |page| && end == Start(l.pages, k) + i
      invariant ScanAt(l, judge, a, end, s') && Limit(l, judge, fingerprint, pageSize, s', full, next, end)
    {
      var matched;
      s', matched, next := ScanProfile(l, judge, fingerprint, k, i, s', a, end);
      i, end, full := i + 1, end + 1, matched && |s'.profiles| == pageSize;
    }
  }

  lemma FirstPage(l: Listing)
    requires Stable(l)
    ensures NoToken in l.tokens && Find(l, NoToken) == 0
  {
    FindAt(l, 0);
  }

  /** The outer loop, from an API page that exists. */
  method ScanPages(l: Listing, judge: Judge, fingerprint: Fingerprint, pageSize: int, pageStart: ApiToken, offset: nat, ghost token: PageToken)
    returns (r: Answer)
    requires Stable(l) && Accepts(l, fingerprint, token) && Fetching(l, pageStart, offset, Position(l, token))
    ensures Answers(l, judge, fingerprint, pageSize, token, r)
  {
    var s := Scan([], 0, 0, pageStart, offset);
    var at, from := pageStart, offset;
    ghost var a := Position(l, token);
    ghost var end: nat := a;
    NothingScanned(l, judge, Find(l, pageStart), offset, s);
    while s.scanned < MAX_SCAN
      invariant ScanAt(l, judge, a, end, s) && (pageSize >= 1 ==> |s.profiles| < pageSize)
      invariant s.scanned < MAX_SCAN ==> Fetching(l, at, from, end)
      decreases |l.tokens| - (if at in l.tokens then Find(l, at) else 0), MAX_SCAN - s.scanned
    {
      var k := Find(l, at);
      var full, next;
      s, full, next, end := ScanPage(l, judge, fingerprint, pageSize, k, from, s, a);
      if full {
        StoppedAnswers(l, judge, fingerprint, pageSize, token, s, end);
        return Page(s.profiles, s.excluded, next.Encoded?, next);
      }
      PageEnd(l, k);
      if NextToken(l, k) == NoToken {
        break;
      }
      at, from := NextToken(l, k), 0;
    }
    r := Finish(s, fingerprint);
    FinishAnswers(l, judge, fingerprint, pageSize, token, s, end);
  }

  /** One page of at most pageSize matches, or of what MAX_SCAN profiles yield. */
  method ListProfiles(l: Listing, judge: Judge, fingerprint: Fingerprint, pageSize: int, token: PageToken)
    returns (r: Answer)
    requires Stable(l)
    ensures if Accepts(l, fingerprint, token) then Answers(l, judge, fingerprint, pageSize, token, r)
            else r.Failed? && Refusal(l, fingerprint, token, r.error)
  {
    var decoded := Decode(token, fingerprint);
    if decoded.Malformed? {
      return Failed(InvalidCursor);
    }
    FirstPage(l);
    var pageStart, offset := decoded.cursor.apiToken, decoded.cursor.offset;
    if pageStart !in l.tokens {
      return Failed(ListingFailed);
    }
    if offset > |l.pages[Find(l, pageStart)]| {
      return Failed(InvalidOffset);
    }
    r := ScanPages(l, judge, fingerprint, pageSize, pageStart, offset, token);
  }

  lemma NothingScanned(l: Listing, judge: Judge, k: nat, offset: nat, s: Scan)
    requires Stable(l) && k < |l.pages| && offset <= |l.pages[k]|
    requires s.profiles == [] && s.excluded == 0 && s.scanned == 0
    ensures ScanAt(l, judge, Start(l.pages, k) + offset, Start(l.pages, k) + offset, s)
  {
    StartInFlat(l.pages, k + 1);
  }

  // ---- Following the tokens ----

  /** One call of a client that pages through the listing. */
  datatype Call = Call(pageSize: int, answer: Answer)

  /** The token a client holds after the calls so far, if it has not come to the end. */
  function Held(calls: seq<Call>): PageToken {
    if calls == [] then Empty
    else if calls[|calls| - 1].answer.Page? then calls[|calls| - 1].answer.next
    else Malformed
  }

  /** A client that starts with the empty token and passes on each next_page_token it gets. */
  ghost predicate Followed(l: Listing, judge: Judge, fingerprint: Fingerprint, calls: seq<Call>)
    requires Stable(l)
  {
    calls == []
    || var init, last := calls[..|calls| - 1], calls[|calls| - 1];
       && Followed(l, judge, fingerprint, init)
       && (init != [] ==> Held(init).Encoded?)
       && Answers(l, judge, fingerprint, last.pageSize, Held(init), last.answer)
  }

  ghost function Yield(calls: seq<Call>): seq<Profile> {
    if calls == [] then []
    else
      var r := calls[|calls| - 1].answer;
      Yield(calls[..|calls| - 1]) + if r.Page? then r.profiles else []
  }

  /** However the page sizes vary, the calls so far yield exactly the matches of the part of the
      listing they scanned, in order, and every call but the last scanned something. */
  lemma {:induction false} FollowedYields(l: Listing, judge: Judge, fingerprint: Fingerprint, calls: seq<Call>)
    returns (end: nat)
    requires Stable(l) && Followed(l, judge, fingerprint, calls) && calls != []
    ensures end <= |Flat(l.pages)| && Yield(calls) == Select(Flat(l.pages), 0, end, judge)
    ensures if Held(calls).Encoded? then
              |calls| <= end && Points(l, Held(calls)) && Position(l, Held(calls)) == end
            else |calls| - 1 <= end == |Flat(l.pages)|
  {
    var init, last := calls[..|calls| - 1], calls[|calls| - 1];
    end := EndOf(l, last.answer);
    if init != [] {
      var before := FollowedYields(l, judge, fingerprint, init);
      SelectJoins(Flat(l.pages), 0, before, end, judge);
    }
  }

  /** Followed to the end, the tokens yield the whole filtered listing: nothing lost or repeated. */
  lemma NothingLostOrRepeated(l: Listing, judge: Judge, fingerprint: Fingerprint, calls: seq<Call>)
    requires Stable(l) && Followed(l, judge, fingerprint, calls) && calls != []
    requires !Held(calls).Encoded?
    ensures Yield(calls) == Select(Flat(l.pages), 0, |Flat(l.pages)|, judge)
  {
    var end := FollowedYields(l, judge, fingerprint, calls);
  }

  /** Such a client is never refused and comes to an end. */
  method ListAll(l: Listing, judge: Judge, fingerprint: Fingerprint, pageSize: int) returns (all: seq<Profile>)
    requires Stable(l)
    ensures all == Select(Flat(l.pages), 0, |Flat(l.pages)|, judge)
  {
    all := [];
    var token := Empty;
    ghost var at: nat := 0;
    ghost var length := |Flat(l.pages)|;
    while true
      invariant Accepts(l, fingerprint, token) && Position(l, token) == at <= length == |Flat(l.pages)|
      invariant all == Select(Flat(l.pages), 0, at, judge)
      decreases length - at
    {
      var r := ListProfiles(l, judge, fingerprint, pageSize, token);
      ghost var end := EndOf(l, r);
      SelectJoins(Flat(l.pages), 0, at, end, judge);
      all, at := all + r.profiles, end;
      if !r.next.Encoded? {
        break;
      }
      token := r.next;
    }
  }
}
