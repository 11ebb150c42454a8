/** The concurrent OAuth grant lifecycle of internal/authsrv/grants.go and token.go.

    Every request is a program counter with its local snapshot; every store call is one atomic
    step; a run is any interleaving of steps.  Randomness is ideal: a drawn secret was never
    drawn or presented before, and nobody presents a secret that was drawn but not yet handed
    out in a response.  Clocks are arbitrary: no step's `now` is related to another's. */
module GrantLifecycle {
  import opened GrantStore

  type Request = nat

  const SECOND: int := 1_000_000_000
  const ACCESS_TOKEN_TTL: Time := 55 * 60 * SECOND

  /** A sealed access token.  `issuedAt` and the expiries are Unix seconds, as in the blob. */
  datatype AccessToken =
    AccessToken(family: Family, identity: nat, googleExpiry: int, issuedAt: int, expiresAt: int)

  datatype Prepared = Prepared(family: Family, record: GrantRecord, startedAt: Time)
  datatype GrantTokens = GrantTokens(family: Family, identity: nat, googleExpiry: int, secret: Secret)

  datatype PC =
    // ExchangeCode
    | CodeReplayed(key: Key, now: Time)
    | CodeChecked(key: Key, now: Time, code: CodeRecord)
    | CodeRedeeming(key: Key, now: Time, code: CodeRecord, newSecret: Secret)
    // tokenFromRefresh
    | RefreshReplayed(family: Family, presented: Secret, now: Time)
    | RefreshPrepared(prepared: Prepared)
    | RefreshRejected(prepared: Prepared)
    | Refreshed(prepared: Prepared, googleRefresh: nat, googleExpiry: int)
    | Rotating(prepared: Prepared, googleRefresh: nat, googleExpiry: int, newSecret: Secret)
    // writeMintedTokens
    | Minting(tokens: GrantTokens)
    // RevokeToken
    | Possessed(family: Family, presented: Secret, now: Time)

  /** A secret that reached the store: the family and generation it was stored with. */
  datatype Issue = Issue(family: Family, generation: int)

  datatype System = System(
    store: Store,
    procs: map<Request, PC>,
    ttl: Time,
    drawn: set<Secret>,
    presented: set<Secret>,
    delivered: set<Secret>,
    issued: map<Secret, Issue>,
    minted: set<AccessToken>)

  datatype Action =
    | IssueCode(key: Key, code: CodeRecord)
    | ExchangeRead(r: Request, key: Key, now: Time, bound: bool)
    | ExchangeReplay(r: Request)
    | ExchangeDraw(r: Request, secret: Secret)
    | ExchangeRedeem(r: Request)
    | RefreshRead(r: Request, family: Family, secret: Secret, now: Time, admitted: bool)
    | RefreshReplay(r: Request)
    | UpstreamAnswers(r: Request, googleRefresh: nat, googleExpiry: int)
    | UpstreamRejects(r: Request)
    | RefreshRevoke(r: Request)
    | RefreshDraw(r: Request, secret: Secret)
    | RefreshRotate(r: Request)
    | Mint(r: Request, now: Time)
    | VerifyAccess(token: AccessToken, now: Time, domainAllowed: bool)
    | RevokeAccess(token: AccessToken, now: Time)
    | RevokeRead(r: Request, family: Family, secret: Secret, now: Time)
    | RevokeCommit(r: Request)
    | Fail(r: Request)

  ghost predicate Init(s: System) {
    && s.store == Store(map[], map[]) && s.procs == map[]
    && s.drawn == {} && s.presented == {} && s.delivered == {} && s.issued == map[] && s.minted == {}
  }

  // ---- Pieces of the steps ----

  predicate At(s: System, r: Request) {
    r in s.procs
  }

  /** A refresh secret a client can send: one it was given, or one the server never drew. */
  predicate Presentable(s: System, secret: Secret) {
    secret in s.delivered || secret !in s.drawn
  }

  predicate Fresh(s: System, secret: Secret) {
    secret !in s.drawn && secret !in s.presented
  }

  /** The grant ExchangeCode builds. */
  function FirstGrant(ttl: Time, pc: PC): GrantRecord
    requires pc.CodeRedeeming?
  {
    GrantRecord(GrantClaims(pc.code.claims.identity, pc.code.claims.googleRefresh),
                HashOf(pc.newSecret), 1, Active, pc.now + ttl, pc.now)
  }

  /** The record RotateRefresh builds from the snapshot PrepareRefresh took. */
  function NextGrant(pc: PC): GrantRecord
    requires pc.Rotating?
  {
    var rec := pc.prepared.record;
    GrantRecord(rec.claims.(googleRefresh := if pc.googleRefresh != 0 then pc.googleRefresh
                                             else rec.claims.googleRefresh),
                HashOf(pc.newSecret), rec.generation + 1, Active, rec.expiresAt, pc.prepared.startedAt)
  }

  /** writeMintedTokens: the expiry the access token gets, in nanoseconds. */
  function MintExpiry(googleExpiry: int, now: Time): Time {
    var exp := now + ACCESS_TOKEN_TTL;
    var upstream := googleExpiry * SECOND;
    if upstream < exp then upstream else exp
  }

  function MintToken(t: GrantTokens, now: Time): AccessToken {
    AccessToken(t.family, t.identity, t.googleExpiry, now / SECOND, MintExpiry(t.googleExpiry, now) / SECOND)
  }

  /** VerifyAccess: the checks after the blob opened, on the record the same call read. */
  predicate Accepts(s: System, token: AccessToken, now: Time, domainAllowed: bool) {
    && token in s.minted
    && now < token.expiresAt * SECOND
    && token.family in s.store.grants
    && GrantIsActive(s.store.grants[token.family], now)
    && domainAllowed
  }

  datatype MaybeOp = NoOp | Call(op: Op)

  /** The writing store call a step makes, if any. */
  function OpOf(s: System, a: Action): MaybeOp
    requires Enabled(s, a)
  {
    match a
    case IssueCode(key, code) => Call(PutCode(key, code))
    case ExchangeReplay(r) => Call(RedeemCode(s.procs[r].key, s.procs[r].now, ZERO_GRANT))
    case ExchangeRedeem(r) =>
      Call(RedeemCode(s.procs[r].key, s.procs[r].now, FirstGrant(s.ttl, s.procs[r])))
    case RefreshReplay(r) =>
      Call(RotateGrant(s.procs[r].family, HashOf(s.procs[r].presented), ZERO_GRANT, s.procs[r].now))
    case RefreshRevoke(r) => Call(RevokeGrant(s.procs[r].prepared.family, s.procs[r].prepared.startedAt))
    case RefreshRotate(r) =>
      var p := s.procs[r].prepared;
      Call(RotateGrant(p.family, p.record.hash, NextGrant(s.procs[r]), p.startedAt))
    case RevokeAccess(token, now) => Call(RevokeGrant(token.family, now))
    case RevokeCommit(r) =>
      Call(RevokeGrantIfSecret(s.procs[r].family, HashOf(s.procs[r].presented), s.procs[r].now))
    case _ => NoOp
  }

  predicate Enabled(s: System, a: Action) {
    match a
    case IssueCode(key, code) =>
      key !in s.store.codes && FreshCode(s.store, PutCode(key, code))
    case ExchangeRead(r, key, now, bound) => !At(s, r)
    case ExchangeReplay(r) => At(s, r) && s.procs[r].CodeReplayed?
    case ExchangeDraw(r, secret) => At(s, r) && s.procs[r].CodeChecked? && Fresh(s, secret)
    case ExchangeRedeem(r) => At(s, r) && s.procs[r].CodeRedeeming?
    case RefreshRead(r, family, secret, now, admitted) => !At(s, r) && Presentable(s, secret)
    case RefreshReplay(r) => At(s, r) && s.procs[r].RefreshReplayed?
    case UpstreamAnswers(r, googleRefresh, googleExpiry) => At(s, r) && s.procs[r].RefreshPrepared?
    case UpstreamRejects(r) => At(s, r) && s.procs[r].RefreshPrepared?
    case RefreshRevoke(r) => At(s, r) && s.procs[r].RefreshRejected?
    case RefreshDraw(r, secret) => At(s, r) && s.procs[r].Refreshed? && Fresh(s, secret)
    case RefreshRotate(r) => At(s, r) && s.procs[r].Rotating?
    case Mint(r, now) => At(s, r) && s.procs[r].Minting?
    case VerifyAccess(token, now, domainAllowed) => true
    case RevokeAccess(token, now) => token in s.minted
    case RevokeRead(r, family, secret, now) => !At(s, r) && Presentable(s, secret)
    case RevokeCommit(r) => At(s, r) && s.procs[r].Possessed?
    case Fail(r) => At(s, r)
  }

  function ReplyOf(s: System, a: Action): Reply
    requires Enabled(s, a)
  {
    match OpOf(s, a) case NoOp => Ok case Call(op) => Exec(s.store, op).reply
  }

  function StoreAfter(s: System, a: Action): Store
    requires Enabled(s, a)
  {
    match OpOf(s, a) case NoOp => s.store case Call(op) => Exec(s.store, op).store
  }

  function Done(s: System, r: Request): System {
    s.(procs := s.procs - {r})
  }

  function Goto(s: System, r: Request, pc: PC): System {
    s.(procs := s.procs[r := pc])
  }

  function Present(s: System, secret: Secret): System {
    s.(presented := s.presented + {secret})
  }

  /** The system after a step whose store call left the given store and reply. */
  function Continue(s: System, a: Action, store: Store, reply: Reply): System
    requires Enabled(s, a)
  {
    var t := s.(store := store);
    match a
    case IssueCode(key, code) => t
    case ExchangeRead(r, key, now, bound) =>
      if key !in s.store.codes then s
      else
        var rec := s.store.codes[key];
        if rec.status != Active then Goto(s, r, CodeReplayed(key, now))
        else if now >= rec.expiresAt || !bound then s
        else Goto(s, r, CodeChecked(key, now, rec))
    case ExchangeReplay(r) => Done(t, r)
    case ExchangeDraw(r, secret) =>
      var pc := s.procs[r];
      Goto(s.(drawn := s.drawn + {secret}), r, CodeRedeeming(pc.key, pc.now, pc.code, secret))
    case ExchangeRedeem(r) =>
      var pc := s.procs[r];
      if reply != Ok then Done(t, r)
      else Goto(t.(issued := s.issued[pc.newSecret := Issue(pc.code.family, 1)]), r,
                Minting(GrantTokens(pc.code.family, pc.code.claims.identity, pc.code.claims.googleExpiry, pc.newSecret)))
    case RefreshRead(r, family, secret, now, admitted) =>
      var p := Present(s, secret);
      if family !in s.store.grants then p
      else
        var rec := s.store.grants[family];
        if !GrantIsActive(rec, now) then p
        else if HashOf(secret) != rec.hash then Goto(p, r, RefreshReplayed(family, secret, now))
        else if !admitted || rec.claims.googleRefresh == 0 then p
        else Goto(p, r, RefreshPrepared(Prepared(family, rec, now)))
    case RefreshReplay(r) => Done(t, r)
    case UpstreamAnswers(r, googleRefresh, googleExpiry) =>
      Goto(s, r, Refreshed(s.procs[r].prepared, googleRefresh, googleExpiry))
    case UpstreamRejects(r) => Goto(s, r, RefreshRejected(s.procs[r].prepared))
    case RefreshRevoke(r) => Done(t, r)
    case RefreshDraw(r, secret) =>
      var pc := s.procs[r];
      Goto(s.(drawn := s.drawn + {secret}), r, Rotating(pc.prepared, pc.googleRefresh, pc.googleExpiry, secret))
    case RefreshRotate(r) =>
      var pc := s.procs[r];
      if reply != Ok then Done(t, r)
      else Goto(t.(issued := s.issued[pc.newSecret := Issue(pc.prepared.family, pc.prepared.record.generation + 1)]), r,
                Minting(GrantTokens(pc.prepared.family, pc.prepared.record.claims.identity, pc.googleExpiry, pc.newSecret)))
    case Mint(r, now) =>
      var tokens := s.procs[r].tokens;
      if MintExpiry(tokens.googleExpiry, now) <= now then Done(s, r)
      else Done(s.(minted := s.minted + {MintToken(tokens, now)},
                   delivered := s.delivered + {tokens.secret}), r)
    case VerifyAccess(token, now, domainAllowed) => s
    case RevokeAccess(token, now) => t
    case RevokeRead(r, family, secret, now) =>
      var p := Present(s, secret);
      if family in s.store.grants && HashOf(secret) == s.store.grants[family].hash
      then Goto(p, r, Possessed(family, secret, now))
      else p
    case RevokeCommit(r) => Done(t, r)
    case Fail(r) => Done(s, r)
  }

  /** The system after one step on the mutex store. */
  function Apply(s: System, a: Action): System
    requires Enabled(s, a)
  {
    Continue(s, a, StoreAfter(s, a), ReplyOf(s, a))
  }

  // ---- The invariant ----

  /** A stored or snapshotted grant record names a secret that was issued for exactly this
      family and this generation. */
  ghost predicate GenuineRecord(s: System, family: Family, rec: GrantRecord) {
    && rec.hash.HashOf?
    && rec.hash.secret in s.issued
    && s.issued[rec.hash.secret] == Issue(family, rec.generation)
    && rec.generation >= 1
    && (rec.status == Active || rec.status == Revoked)
  }

  /** What stays true of a snapshot while the store moves on. */
  ghost predicate GenuineSnapshot(s: System, p: Prepared) {
    && p.family in s.store.grants
    && GenuineRecord(s, p.family, p.record)
    && p.record.expiresAt == s.store.grants[p.family].expiresAt
    && p.record.claims.identity == s.store.grants[p.family].claims.identity
  }

  /** A drawn secret that has neither been stored nor shown to anyone. */
  ghost predicate Pending(s: System, secret: Secret) {
    secret in s.drawn && secret !in s.issued && secret !in s.presented
  }

  predicate HoldsFresh(pc: PC) {
    pc.CodeRedeeming? || pc.Rotating?
  }

  /** The code a snapshot was taken from; only its status and used time can have moved. */
  ghost predicate SameCode(s: System, key: Key, code: CodeRecord) {
    && key in s.store.codes
    && s.store.codes[key].(status := Active, usedAt := 0) == code.(status := Active, usedAt := 0)
  }

  ghost predicate ProcInv(s: System, pc: PC) {
    match pc
    case CodeReplayed(key, now) => key in s.store.codes && s.store.codes[key].status == Used
    case CodeChecked(key, now, code) => SameCode(s, key, code) && now < code.expiresAt
    case CodeRedeeming(key, now, code, newSecret) =>
      SameCode(s, key, code) && now < code.expiresAt && Pending(s, newSecret)
    case RefreshReplayed(family, presented, now) =>
      && presented in s.presented
      && family in s.store.grants && s.store.grants[family].hash != HashOf(presented)
      && now < s.store.grants[family].expiresAt
    case RefreshPrepared(p) => GenuineSnapshot(s, p)
    case RefreshRejected(p) => GenuineSnapshot(s, p)
    case Refreshed(p, _, _) => GenuineSnapshot(s, p)
    case Rotating(p, _, _, newSecret) => GenuineSnapshot(s, p) && Pending(s, newSecret)
    case Minting(t) =>
      && t.secret in s.issued
      && t.family in s.store.grants && s.store.grants[t.family].claims.identity == t.identity
    case Possessed(family, presented, now) => true
  }

  ghost predicate TokenInv(s: System, t: AccessToken) {
    && t.family in s.store.grants
    && s.store.grants[t.family].claims.identity == t.identity
    && t.expiresAt <= t.googleExpiry
    && t.expiresAt <= t.issuedAt + ACCESS_TOKEN_TTL / SECOND
  }

  ghost predicate GrantsGenuine(s: System) {
    forall f <- s.store.grants :: GenuineRecord(s, f, s.store.grants[f])
  }

  ghost predicate IssuesReal(s: System) {
    && (forall x <- s.issued ::
          && x in s.drawn
          && s.issued[x].family in s.store.grants
          && s.issued[x].generation <= s.store.grants[s.issued[x].family].generation)
    && s.delivered <= s.issued.Keys
  }

  ghost predicate ProcsSound(s: System) {
    && (forall r <- s.procs :: ProcInv(s, s.procs[r]))
    && (forall r, q | r in s.procs && q in s.procs && r != q && HoldsFresh(s.procs[r]) && HoldsFresh(s.procs[q]) ::
          s.procs[r].newSecret != s.procs[q].newSecret)
  }

  ghost predicate TokensSound(s: System) {
    forall t <- s.minted :: TokenInv(s, t)
  }

  ghost predicate Inv(s: System) {
    Consistent(s.store) && GrantsGenuine(s) && IssuesReal(s) && ProcsSound(s) && TokensSound(s)
  }

  // ---- What one step preserves for everybody else ----

  /** How the store may move in one step, seen by a request that did not take it. */
  ghost predicate CodesEvolve(st: Store, st': Store) {
    forall k <- st.codes ::
      && k in st'.codes
      && st'.codes[k].(status := Active, usedAt := 0) == st.codes[k].(status := Active, usedAt := 0)
      && (st.codes[k].status == Used ==> st'.codes[k].status == Used)
  }

  ghost predicate GrantEvolves(g: GrantRecord, g': GrantRecord, presented: set<Secret>) {
    && g'.expiresAt == g.expiresAt
    && g'.claims.identity == g.claims.identity
    && g.generation <= g'.generation
    && (g.status == Revoked ==> g'.status == Revoked)
    && (g'.hash != g.hash ==> g'.hash.HashOf? && g'.hash.secret !in presented)
  }

  ghost predicate GrantsEvolve(st: Store, st': Store, presented: set<Secret>) {
    forall f <- st.grants :: f in st'.grants && GrantEvolves(st.grants[f], st'.grants[f], presented)
  }

  ghost predicate Evolves(s: System, t: System) {
    && CodesEvolve(s.store, t.store)
    && GrantsEvolve(s.store, t.store, t.presented)
    && (forall x <- s.issued :: x in t.issued && t.issued[x] == s.issued[x])
    && s.drawn <= t.drawn && s.presented <= t.presented
    && s.minted <= t.minted
    && t.ttl == s.ttl
  }

  lemma ProcInvSurvives(s: System, t: System, pc: PC)
    requires ProcInv(s, pc) && Evolves(s, t)
    requires HoldsFresh(pc) ==> Pending(t, pc.newSecret)
    ensures ProcInv(t, pc)
  {
  }

  lemma RevocationEvolves(st: Store, family: Family, now: Time, presented: set<Secret>)
    ensures CodesEvolve(st, RevokeIn(st, family, now))
    ensures GrantsEvolve(st, RevokeIn(st, family, now), presented)
  {
  }

  lemma RedemptionEvolves(st: Store, key: Key, now: Time, grant: GrantRecord, presented: set<Secret>)
    requires Consistent(st)
    ensures var st' := Exec(st, RedeemCode(key, now, grant)).store;
            CodesEvolve(st, st') && GrantsEvolve(st, st', presented)
  {
    if key in st.codes && CodeRedemptionDecision(st.codes[key], now) == CodeReplay {
      RevocationEvolves(st, st.codes[key].family, now, presented);
    }
  }

  lemma RotationEvolves(st: Store, family: Family, expected: Hash, next: GrantRecord, now: Time, presented: set<Secret>)
    requires family in st.grants && st.grants[family].hash == expected && st.grants[family].status == Active ==>
               GrantEvolves(st.grants[family], next, presented)
    ensures var st' := Exec(st, RotateGrant(family, expected, next, now)).store;
            CodesEvolve(st, st') && GrantsEvolve(st, st', presented)
  {
    RevocationEvolves(st, family, now, presented);
  }

  lemma AtProc(s: System, r: Request)
    requires Inv(s) && At(s, r)
    ensures ProcInv(s, s.procs[r])
  {
  }

  /** The compare-and-set is ABA-free: if the hash still matches, so does the generation. */
  lemma SameHashSameGeneration(s: System, p: Prepared)
    requires GenuineSnapshot(s, p) && GenuineRecord(s, p.family, s.store.grants[p.family])
    ensures s.store.grants[p.family].hash == p.record.hash ==>
              s.store.grants[p.family].generation == p.record.generation
  {
  }

  /** The store calls of the two replay paths never commit the zero grant they are given. */
  lemma ReplayCallsCommitNothing(s: System, a: Action)
    requires Enabled(s, a) && (a.ExchangeReplay? || a.RefreshReplay?)
    requires ProcInv(s, s.procs[a.r])
    ensures ReplyOf(s, a) != Ok
  {
  }

  /** Steps that continue a started request. */
  predicate Continues(a: Action) {
    a.ExchangeReplay? || a.ExchangeDraw? || a.ExchangeRedeem? || a.RefreshReplay? || a.UpstreamAnswers?
    || a.UpstreamRejects? || a.RefreshRevoke? || a.RefreshDraw? || a.RefreshRotate? || a.Mint?
    || a.RevokeCommit? || a.Fail?
  }

  /** The facts about the acting request that the step lemmas below need. */
  ghost predicate ActorSound(s: System, a: Action)
    requires Enabled(s, a)
  {
    && (Continues(a) ==> ProcInv(s, s.procs[a.r]))
    && (a.RefreshRotate? ==>
          var f := s.procs[a.r].prepared.family; GenuineRecord(s, f, s.store.grants[f]))
  }

  lemma InvGivesActorSound(s: System, a: Action)
    requires Inv(s) && Enabled(s, a)
    ensures ActorSound(s, a)
  {
    if Continues(a) {
      AtProc(s, a.r);
    }
  }

  lemma ExchangeEvolves(s: System, a: Action)
    requires a.ExchangeReplay? || a.ExchangeRedeem?
    requires Enabled(s, a) && Consistent(s.store)
    ensures CodesEvolve(s.store, StoreAfter(s, a))
    ensures GrantsEvolve(s.store, StoreAfter(s, a), s.presented)
  {
    var pc := s.procs[a.r];
    RedemptionEvolves(s.store, pc.key, pc.now,
                      if a.ExchangeReplay? then ZERO_GRANT else FirstGrant(s.ttl, pc), s.presented);
  }

  lemma RefreshEvolves(s: System, a: Action)
    requires a.RefreshReplay? || a.RefreshRotate?
    requires Enabled(s, a) && ActorSound(s, a)
    ensures CodesEvolve(s.store, StoreAfter(s, a))
    ensures GrantsEvolve(s.store, StoreAfter(s, a), s.presented)
  {
    var pc := s.procs[a.r];
    if a.RefreshReplay? {
      RotationEvolves(s.store, pc.family, HashOf(pc.presented), ZERO_GRANT, pc.now, s.presented);
    } else {
      var p := pc.prepared;
      SameHashSameGeneration(s, p);
      RotationEvolves(s.store, p.family, p.record.hash, NextGrant(pc), p.startedAt, s.presented);
    }
  }

  lemma StoreEvolves(s: System, a: Action, presented: set<Secret>)
    requires Enabled(s, a) && Consistent(s.store) && ActorSound(s, a)
    requires OpOf(s, a).Call? ==> presented == s.presented
    ensures CodesEvolve(s.store, StoreAfter(s, a))
    ensures GrantsEvolve(s.store, StoreAfter(s, a), presented)
  {
    if a.ExchangeReplay? || a.ExchangeRedeem? {
      ExchangeEvolves(s, a);
    } else if a.RefreshReplay? || a.RefreshRotate? {
      RefreshEvolves(s, a);
    } else if OpOf(s, a).Call? && !a.IssueCode? {
      RevocationEvolves(s.store, OpOf(s, a).op.family, OpOf(s, a).op.now, presented);
    }
  }

  /** The secret a step stores, if it stores one. */
  predicate Issues(s: System, a: Action)
    requires Enabled(s, a)
  {
    (a.ExchangeRedeem? || a.RefreshRotate?) && ReplyOf(s, a) == Ok
  }

  function IssueOf(s: System, a: Action): Issue
    requires Enabled(s, a) && Issues(s, a)
  {
    var pc := s.procs[a.r];
    if a.ExchangeRedeem? then Issue(pc.code.family, 1)
    else Issue(pc.prepared.family, pc.prepared.record.generation + 1)
  }

  /** What a step does to the store and to the issue history. */
  lemma ApplyStore(s: System, a: Action)
    requires Enabled(s, a)
    ensures var t := Apply(s, a);
            && t.store == StoreAfter(s, a)
            && t.ttl == s.ttl
            && t.issued == (if Issues(s, a) then s.issued[s.procs[a.r].newSecret := IssueOf(s, a)] else s.issued)
  {
  }

  predicate Mints(s: System, a: Action)
    requires Enabled(s, a)
  {
    a.Mint? && MintExpiry(s.procs[a.r].tokens.googleExpiry, a.now) > a.now
  }

  lemma ApplyDraws(s: System, a: Action)
    requires Enabled(s, a)
    ensures Apply(s, a).drawn == if a.ExchangeDraw? || a.RefreshDraw? then s.drawn + {a.secret} else s.drawn
  {
  }

  lemma ApplyPresents(s: System, a: Action)
    requires Enabled(s, a)
    ensures Apply(s, a).presented == if a.RefreshRead? || a.RevokeRead? then s.presented + {a.secret} else s.presented
  {
  }

  lemma ApplyMints(s: System, a: Action)
    requires Enabled(s, a)
    ensures Apply(s, a).minted
            == if Mints(s, a) then s.minted + {MintToken(s.procs[a.r].tokens, a.now)} else s.minted
  {
  }

  lemma ApplyDelivers(s: System, a: Action)
    requires Enabled(s, a)
    ensures Apply(s, a).delivered
            == if Mints(s, a) then s.delivered + {s.procs[a.r].tokens.secret} else s.delivered
  {
  }

  /** What a step does to the secrets and tokens that are about. */
  lemma ApplySecrets(s: System, a: Action)
    requires Enabled(s, a)
    ensures var t := Apply(s, a);
            && t.drawn == (if a.ExchangeDraw? || a.RefreshDraw? then s.drawn + {a.secret} else s.drawn)
            && t.presented == (if a.RefreshRead? || a.RevokeRead? then s.presented + {a.secret} else s.presented)
            && t.minted == (if Mints(s, a) then s.minted + {MintToken(s.procs[a.r].tokens, a.now)} else s.minted)
            && t.delivered == (if Mints(s, a) then s.delivered + {s.procs[a.r].tokens.secret} else s.delivered)
  {
    ApplyDraws(s, a);
    ApplyPresents(s, a);
    ApplyMints(s, a);
    ApplyDelivers(s, a);
  }

  /** Only the acting request's program counter changes. */
  lemma ApplyProcs(s: System, a: Action, q: Request)
    requires Enabled(s, a)
    requires q in Apply(s, a).procs
    requires a.IssueCode? || a.VerifyAccess? || a.RevokeAccess? || q != a.r
    ensures q in s.procs && Apply(s, a).procs[q] == s.procs[q]
  {
  }

  lemma StepEvolves(s: System, a: Action)
    requires Enabled(s, a) && Consistent(s.store) && ActorSound(s, a)
    ensures Evolves(s, Apply(s, a))
  {
    ApplyStore(s, a);
    ApplySecrets(s, a);
    StoreEvolves(s, a, Apply(s, a).presented);
  }

  // ---- The invariant is kept by every step ----

  function IssuedGrant(s: System, a: Action): GrantRecord
    requires Enabled(s, a) && Issues(s, a)
  {
    if a.ExchangeRedeem? then FirstGrant(s.ttl, s.procs[a.r]) else NextGrant(s.procs[a.r])
  }

  /** Where a stored grant comes from: it was there with the same secret and generation, or this
      step issued it. */
  lemma GrantOrigin(s: System, a: Action, f: Family)
    requires Enabled(s, a) && ActorSound(s, a) && f in StoreAfter(s, a).grants
    ensures var g' := StoreAfter(s, a).grants[f];
            || (f in s.store.grants && g'.hash == s.store.grants[f].hash
                && g'.generation == s.store.grants[f].generation
                && (g'.status == s.store.grants[f].status || g'.status == Revoked))
            || (Issues(s, a) && f == IssueOf(s, a).family && g' == IssuedGrant(s, a))
  {
  }

  lemma IssuedIsStored(s: System, a: Action)
    requires Enabled(s, a) && Issues(s, a) && ActorSound(s, a)
    ensures var f := IssueOf(s, a).family;
            f in StoreAfter(s, a).grants && StoreAfter(s, a).grants[f] == IssuedGrant(s, a)
  {
  }

  lemma StepKeepsGrants(s: System, a: Action)
    requires Inv(s) && Enabled(s, a) && ActorSound(s, a)
    ensures GrantsGenuine(Apply(s, a))
  {
    var t := Apply(s, a);
    ApplyStore(s, a);
    ApplySecrets(s, a);
    forall f <- t.store.grants
      ensures GenuineRecord(t, f, t.store.grants[f])
    {
      GrantOrigin(s, a, f);
    }
  }

  lemma IssueSurvives(s: System, a: Action, x: Secret)
    requires IssuesReal(s) && Enabled(s, a) && Evolves(s, Apply(s, a)) && x in s.issued
    ensures var t := Apply(s, a);
            && x in t.drawn && x in t.issued && t.issued[x].family in t.store.grants
            && t.issued[x].generation <= t.store.grants[t.issued[x].family].generation
  {
    var t := Apply(s, a);
    var f := s.issued[x].family;
    assert GrantEvolves(s.store.grants[f], t.store.grants[f], t.presented);
  }

  lemma NewIssueReal(s: System, a: Action)
    requires Enabled(s, a) && ActorSound(s, a) && Issues(s, a)
    ensures var t := Apply(s, a);
            var x := s.procs[a.r].newSecret;
            && x in t.drawn && x in t.issued && t.issued[x].family in t.store.grants
            && t.issued[x].generation <= t.store.grants[t.issued[x].family].generation
  {
    ApplyStore(s, a);
    ApplySecrets(s, a);
    IssuedIsStored(s, a);
  }

  ghost predicate IssueReal(s: System, x: Secret) {
    && x in s.drawn && x in s.issued && s.issued[x].family in s.store.grants
    && s.issued[x].generation <= s.store.grants[s.issued[x].family].generation
  }

  lemma OneIssueReal(s: System, a: Action, x: Secret)
    requires IssuesReal(s) && Enabled(s, a) && ActorSound(s, a) && Evolves(s, Apply(s, a))
    requires x in Apply(s, a).issued
    ensures IssueReal(Apply(s, a), x)
  {
    ApplyStore(s, a);
    if x in s.issued {
      IssueSurvives(s, a, x);
    } else {
      NewIssueReal(s, a);
    }
  }

  lemma DeliveredAreIssued(s: System, a: Action)
    requires IssuesReal(s) && Enabled(s, a) && ActorSound(s, a)
    ensures Apply(s, a).delivered <= Apply(s, a).issued.Keys
  {
    ApplyStore(s, a);
    ApplyDelivers(s, a);
  }

  lemma StepKeepsIssues(s: System, a: Action)
    requires IssuesReal(s) && Enabled(s, a) && ActorSound(s, a) && Consistent(s.store)
    ensures IssuesReal(Apply(s, a))
  {
    var t := Apply(s, a);
    StepEvolves(s, a);
    DeliveredAreIssued(s, a);
    forall x <- t.issued ensures IssueReal(t, x) {
      OneIssueReal(s, a, x);
    }
  }

  lemma PendingSurvives(s: System, a: Action, q: Request)
    requires Inv(s) && Enabled(s, a)
    requires q in s.procs && HoldsFresh(s.procs[q])
    requires HasActor(a) ==> q != a.r
    ensures Pending(Apply(s, a), s.procs[q].newSecret)
  {
    ApplyStore(s, a);
    ApplySecrets(s, a);
    AtProc(s, q);
  }

  predicate HasActor(a: Action) {
    !a.IssueCode? && !a.VerifyAccess? && !a.RevokeAccess?
  }

  /** The acting request's own next program counter. */
  lemma ActorAfter(s: System, a: Action)
    requires Inv(s) && Enabled(s, a) && ActorSound(s, a)
    requires HasActor(a) && a.r in Apply(s, a).procs
    ensures ProcInv(Apply(s, a), Apply(s, a).procs[a.r])
  {
    StepEvolves(s, a);
    if Issues(s, a) {
      ActorIssued(s, a);
    } else if a.ExchangeDraw? || a.RefreshDraw? {
      ActorDrew(s, a);
    } else if a.ExchangeRead? {
      ActorReadCode(s, a);
    } else if a.RefreshRead? || a.RevokeRead? {
      ActorReadGrant(s, a);
    } else {
      ActorMoved(s, a);
    }
  }

  lemma ActorIssued(s: System, a: Action)
    requires Enabled(s, a) && ActorSound(s, a) && Issues(s, a)
    ensures a.r in Apply(s, a).procs && ProcInv(Apply(s, a), Apply(s, a).procs[a.r])
  {
    ApplyStore(s, a);
    IssuedIsStored(s, a);
  }

  lemma ActorDrew(s: System, a: Action)
    requires Inv(s) && Enabled(s, a) && ActorSound(s, a) && Evolves(s, Apply(s, a))
    requires a.ExchangeDraw? || a.RefreshDraw?
    ensures a.r in Apply(s, a).procs && ProcInv(Apply(s, a), Apply(s, a).procs[a.r])
  {
  }

  lemma ActorReadCode(s: System, a: Action)
    requires Inv(s) && Enabled(s, a) && a.ExchangeRead? && a.r in Apply(s, a).procs
    ensures ProcInv(Apply(s, a), Apply(s, a).procs[a.r])
  {
  }

  lemma ActorReadGrant(s: System, a: Action)
    requires Inv(s) && Enabled(s, a) && (a.RefreshRead? || a.RevokeRead?) && a.r in Apply(s, a).procs
    ensures ProcInv(Apply(s, a), Apply(s, a).procs[a.r])
  {
    ApplyPresents(s, a);
    assert forall f <- s.store.grants :: GenuineRecord(s, f, s.store.grants[f]);
  }

  lemma ActorMoved(s: System, a: Action)
    requires Enabled(s, a) && ActorSound(s, a) && Evolves(s, Apply(s, a))
    requires HasActor(a) && a.r in Apply(s, a).procs
    requires !Issues(s, a) && !a.ExchangeDraw? && !a.RefreshDraw? && !a.ExchangeRead? && !a.RefreshRead? && !a.RevokeRead?
    ensures ProcInv(Apply(s, a), Apply(s, a).procs[a.r])
  {
  }

  lemma StepKeepsProcs(s: System, a: Action)
    requires Inv(s) && Enabled(s, a) && ActorSound(s, a)
    ensures forall r <- Apply(s, a).procs :: ProcInv(Apply(s, a), Apply(s, a).procs[r])
  {
    var t := Apply(s, a);
    StepEvolves(s, a);
    forall r <- t.procs
      ensures ProcInv(t, t.procs[r])
    {
      if HasActor(a) && r == a.r {
        ActorAfter(s, a);
      } else {
        ApplyProcs(s, a, r);
        AtProc(s, r);
        if HoldsFresh(s.procs[r]) {
          PendingSurvives(s, a, r);
        }
        ProcInvSurvives(s, t, s.procs[r]);
      }
    }
  }

  lemma StepKeepsFreshDistinct(s: System, a: Action, r: Request, q: Request)
    requires ProcsSound(s) && Enabled(s, a)
    requires var t := Apply(s, a);
             r in t.procs && q in t.procs && r != q && HoldsFresh(t.procs[r]) && HoldsFresh(t.procs[q])
    requires HasActor(a) ==> q != a.r
    ensures Apply(s, a).procs[r].newSecret != Apply(s, a).procs[q].newSecret
  {
    ApplyProcs(s, a, q);
    assert ProcInv(s, s.procs[q]);
    if HasActor(a) && r == a.r {
      assert a.ExchangeDraw? || a.RefreshDraw?;
    } else {
      ApplyProcs(s, a, r);
    }
  }

  /** An access token expires with Google's or ACCESS_TOKEN_TTL after it was minted, whichever
      comes first, to the second. */
  lemma MintedExpiry(t: GrantTokens, now: Time)
    ensures var token := MintToken(t, now);
            && token.expiresAt <= token.googleExpiry
            && token.expiresAt <= token.issuedAt + ACCESS_TOKEN_TTL / SECOND
            && (token.expiresAt == token.googleExpiry || token.expiresAt == token.issuedAt + ACCESS_TOKEN_TTL / SECOND)
  {
  }

  lemma StepKeepsTokens(s: System, a: Action)
    requires Inv(s) && Enabled(s, a) && ActorSound(s, a)
    ensures TokensSound(Apply(s, a))
  {
    var t := Apply(s, a);
    ApplyStore(s, a);
    ApplySecrets(s, a);
    StepEvolves(s, a);
    if Mints(s, a) {
      MintedExpiry(s.procs[a.r].tokens, a.now);
    }
  }

  lemma InitInv(s: System)
    requires Init(s)
    ensures Inv(s)
  {
  }

  lemma StepKeepsInv(s: System, a: Action)
    requires Inv(s) && Enabled(s, a)
    ensures Inv(Apply(s, a))
  {
    var t := Apply(s, a);
    InvGivesActorSound(s, a);
    ApplyStore(s, a);
    ApplySecrets(s, a);
    if OpOf(s, a).Call? {
      ExecKeepsConsistent(s.store, OpOf(s, a).op);
    }
    StepKeepsGrants(s, a);
    StepKeepsIssues(s, a);
    StepKeepsProcs(s, a);
    forall r, q | r in t.procs && q in t.procs && r != q && HoldsFresh(t.procs[r]) && HoldsFresh(t.procs[q])
      ensures t.procs[r].newSecret != t.procs[q].newSecret
    {
      if HasActor(a) && q == a.r {
        StepKeepsFreshDistinct(s, a, q, r);
      } else {
        StepKeepsFreshDistinct(s, a, r, q);
      }
    }
    StepKeepsTokens(s, a);
  }
}
