/** Whole requests and whole sessions of the grant lifecycle: what a request that gets through has
    read and stored, where every access token comes from, and how long it is accepted.

    A request is followed through the steps it takes; between two of them any number of other
    requests may step. */
module GrantSessions {
  import opened GrantStore
  import opened GrantLifecycle
  import opened GrantRuns

  predicate IsStepOf(a: Action, r: Request) {
    HasActor(a) && a.r == r
  }

  /** j is request r's next step after i. */
  predicate Next(acts: seq<Action>, r: Request, i: nat, j: nat) {
    && i < j < |acts| && IsStepOf(acts[i], r) && IsStepOf(acts[j], r)
    && forall n | i < n < j :: !IsStepOf(acts[n], r)
  }

  /** A request's own state stays as its last step left it. */
  lemma {:induction false} Stays(run: seq<System>, acts: seq<Action>, r: Request, i: nat, j: nat)
    requires IsRun(run, acts) && i < j <= |acts| && forall n | i < n < j :: !IsStepOf(acts[n], r)
    ensures r in run[j].procs <==> r in run[i + 1].procs
    ensures r in run[j].procs ==> run[j].procs[r] == run[i + 1].procs[r]
  {
    if i + 1 < j {
      Stays(run, acts, r, i, j - 1);
      assert Enabled(run[j - 1], acts[j - 1]);
      OthersStay(run[j - 1], acts[j - 1], r);
    }
  }

  lemma AfterStep(run: seq<System>, acts: seq<Action>, r: Request, i: nat, j: nat)
    requires IsRun(run, acts) && Next(acts, r, i, j)
    ensures i < j < |acts| && |run| == |acts| + 1 && Enabled(run[i], acts[i]) && Enabled(run[j], acts[j])
    ensures acts[i].r == r && acts[j].r == r
    ensures run[i + 1] == Apply(run[i], acts[i])
    ensures r in run[j].procs <==> r in Apply(run[i], acts[i]).procs
    ensures r in run[j].procs ==> run[j].procs[r] == Apply(run[i], acts[i]).procs[r]
  {
    assert Enabled(run[i], acts[i]) && Enabled(run[j], acts[j]);
    Stays(run, acts, r, i, j);
  }

  lemma OthersStay(s: System, a: Action, r: Request)
    requires Enabled(s, a) && !IsStepOf(a, r)
    ensures r in Apply(s, a).procs <==> r in s.procs
    ensures r in s.procs ==> Apply(s, a).procs[r] == s.procs[r]
  {
  }

  /** The step that left a request in the state it is in. */
  lemma {:induction false} LastStep(run: seq<System>, acts: seq<Action>, r: Request, j: nat) returns (i: nat)
    requires IsRun(run, acts) && j <= |acts| && r in run[j].procs
    ensures i < j && IsStepOf(acts[i], r) && forall n | i < n < j :: !IsStepOf(acts[n], r)
    ensures r in run[i + 1].procs && run[i + 1].procs[r] == run[j].procs[r]
  {
    if j == 0 {
      assert false;
    } else if IsStepOf(acts[j - 1], r) {
      i := j - 1;
    } else {
      assert Enabled(run[j - 1], acts[j - 1]);
      OthersStay(run[j - 1], acts[j - 1], r);
      i := LastStep(run, acts, r, j - 1);
    }
  }

  // ---- Requests end ----

  /** How many steps a request can still take. */
  function StepsLeft(pc: PC): nat {
    match pc
    case RefreshPrepared(_) => 4
    case Refreshed(_, _, _) => 3
    case CodeChecked(_, _, _) => 3
    case Rotating(_, _, _, _) => 2
    case CodeRedeeming(_, _, _, _) => 2
    case _ => 1
  }

  /** Each step of a request brings it nearer to its end, and a request that dies is gone. */
  lemma EachStepIsNearer(s: System, a: Action)
    requires Enabled(s, a) && HasActor(a) && a.r in s.procs
    ensures a.r in Apply(s, a).procs ==> StepsLeft(Apply(s, a).procs[a.r]) < StepsLeft(s.procs[a.r])
    ensures a.Fail? ==> a.r !in Apply(s, a).procs && Apply(s, a).store == s.store
  {
  }

  function Taken(acts: seq<Action>, r: Request, i: nat, j: nat): nat
    requires i <= j <= |acts|
    decreases j
  {
    if i == j then 0 else Taken(acts, r, i, j - 1) + if IsStepOf(acts[j - 1], r) then 1 else 0
  }

  /** A request is over after at most four steps beyond its read. */
  lemma {:induction false} RequestsEnd(run: seq<System>, acts: seq<Action>, r: Request, i: nat, j: nat)
    requires IsRun(run, acts) && i <= j <= |acts|
    requires forall n | i <= n <= j :: r in run[n].procs
    ensures StepsLeft(run[j].procs[r]) + Taken(acts, r, i, j) <= StepsLeft(run[i].procs[r]) <= 4
  {
    if i < j {
      RequestsEnd(run, acts, r, i, j - 1);
      assert Enabled(run[j - 1], acts[j - 1]);
      assert r in run[j - 1].procs;
      if IsStepOf(acts[j - 1], r) {
        EachStepIsNearer(run[j - 1], acts[j - 1]);
      } else {
        OthersStay(run[j - 1], acts[j - 1], r);
      }
    }
  }

  /** Until then it can always go on, with a secret nobody has drawn or presented. */
  lemma NeverStuck(s: System, r: Request, secret: Secret, now: Time, googleRefresh: nat, googleExpiry: int)
    requires r in s.procs && Fresh(s, secret)
    ensures exists a: Action :: IsStepOf(a, r) && !a.Fail? && Enabled(s, a)
  {
    var a := match s.procs[r]
      case CodeReplayed(_, _) => ExchangeReplay(r)
      case CodeChecked(_, _, _) => ExchangeDraw(r, secret)
      case CodeRedeeming(_, _, _, _) => ExchangeRedeem(r)
      case RefreshReplayed(_, _, _) => RefreshReplay(r)
      case RefreshPrepared(_) => UpstreamAnswers(r, googleRefresh, googleExpiry)
      case RefreshRejected(_) => RefreshRevoke(r)
      case Refreshed(_, _, _) => RefreshDraw(r, secret)
      case Rotating(_, _, _, _) => RefreshRotate(r)
      case Minting(_) => Mint(r, now)
      case Possessed(_, _, _) => RevokeCommit(r);
    assert IsStepOf(a, r) && Enabled(s, a);
  }

  // ---- The steps of a request that gets a token ----

  /** ExchangeCode, or tokenFromRefresh, followed by writeMintedTokens: where in the run each step
      of the request was taken. */
  datatype Trail =
    | Exchanged(r: Request, read: nat, draw: nat, commit: nat, mint: nat)
    | Renewed(r: Request, read: nat, answer: nat, draw: nat, commit: nat, mint: nat)

  predicate Follows(acts: seq<Action>, t: Trail) {
    && Next(acts, t.r, t.draw, t.commit) && Next(acts, t.r, t.commit, t.mint) && acts[t.mint].Mint?
    && match t
       case Exchanged(r, read, draw, commit, mint) =>
         Next(acts, r, read, draw) && acts[read].ExchangeRead? && acts[draw].ExchangeDraw? && acts[commit].ExchangeRedeem?
       case Renewed(r, read, answer, draw, commit, mint) =>
         && Next(acts, r, read, answer) && Next(acts, r, answer, draw)
         && acts[read].RefreshRead? && acts[answer].UpstreamAnswers? && acts[draw].RefreshDraw? && acts[commit].RefreshRotate?
  }

  /** The code is active and unexpired, and its client, redirect and verifier are the caller's. */
  predicate CodeAdmits(st: Store, a: Action)
    requires a.ExchangeRead?
  {
    a.bound && a.key in st.codes && st.codes[a.key].status == Active && a.now < st.codes[a.key].expiresAt
  }

  /** The grant is active and unexpired, and the secret presented is its current one. */
  predicate GrantAdmits(st: Store, a: Action)
    requires a.RefreshRead?
  {
    && a.admitted && a.family in st.grants && st.grants[a.family].status == Active
    && a.now < st.grants[a.family].expiresAt && st.grants[a.family].hash == HashOf(a.secret)
    && st.grants[a.family].claims.googleRefresh != 0
  }

  /** What the request read lets it go on. */
  ghost predicate ReadAdmits(run: seq<System>, acts: seq<Action>, t: Trail)
    requires Follows(acts, t) && |run| == |acts| + 1
  {
    if t.Exchanged? then CodeAdmits(run[t.read].store, acts[t.read]) else GrantAdmits(run[t.read].store, acts[t.read])
  }

  /** Nobody was faster: what the request read is still current when its write runs. */
  ghost predicate CommitFinds(run: seq<System>, acts: seq<Action>, t: Trail)
    requires Follows(acts, t) && |run| == |acts| + 1
  {
    var st, a := run[t.commit].store, acts[t.read];
    if t.Exchanged? then a.key in st.codes && st.codes[a.key].status == Active
    else a.family in st.grants && st.grants[a.family].status == Active && st.grants[a.family].hash == HashOf(a.secret)
  }

  /** The documents after the request's write.  A redemption stores generation 1 of a family that
      lives for the configured lifetime; a rotation stores the next generation with the old expiry
      and identity, Google's new refresh token when it gave one and the old one otherwise. */
  ghost predicate Stores(run: seq<System>, acts: seq<Action>, t: Trail)
    requires Follows(acts, t) && |run| == |acts| + 1 && ReadAdmits(run, acts, t) && CommitFinds(run, acts, t)
  {
    var st, a, hash := run[t.commit].store, acts[t.read], HashOf(acts[t.draw].secret);
    run[t.commit + 1].store ==
    if t.Exchanged? then
      var code := st.codes[a.key];
      Store(st.codes[a.key := code.(status := Used, usedAt := a.now)],
            st.grants[code.family := GrantRecord(GrantClaims(code.claims.identity, code.claims.googleRefresh), hash, 1,
                                                 Active, a.now + run[0].ttl, a.now)])
    else
      var was, given := run[t.read].store.grants[a.family], acts[t.answer].googleRefresh;
      var kept := if given == 0 then was.claims.googleRefresh else given;
      st.(grants := st.grants[a.family := GrantRecord(GrantClaims(was.claims.identity, kept), hash, was.generation + 1,
                                                      Active, was.expiresAt, a.now)])
  }

  /** The expiry Google gave with the credentials the request mints: those sealed in the code, or
      those of the answer to this very refresh. */
  ghost function GoogleGave(run: seq<System>, acts: seq<Action>, t: Trail): int
    requires Follows(acts, t) && |run| == |acts| + 1 && ReadAdmits(run, acts, t)
  {
    if t.Exchanged? then run[t.read].store.codes[acts[t.read].key].claims.googleExpiry else acts[t.answer].googleExpiry
  }

  ghost function FamilyOf(run: seq<System>, acts: seq<Action>, t: Trail): Family
    requires Follows(acts, t) && |run| == |acts| + 1 && ReadAdmits(run, acts, t)
  {
    if t.Exchanged? then run[t.read].store.codes[acts[t.read].key].family else acts[t.read].family
  }

  ghost function IdentityOf(run: seq<System>, acts: seq<Action>, t: Trail): nat
    requires Follows(acts, t) && |run| == |acts| + 1 && ReadAdmits(run, acts, t)
  {
    if t.Exchanged? then run[t.read].store.codes[acts[t.read].key].claims.identity
    else run[t.read].store.grants[acts[t.read].family].claims.identity
  }

  /** The token at the end of a trail expires with Google's credentials or ACCESS_TOKEN_TTL after
      minting, whichever is first. */
  ghost function TokenOf(run: seq<System>, acts: seq<Action>, t: Trail): AccessToken
    requires Follows(acts, t) && |run| == |acts| + 1 && ReadAdmits(run, acts, t)
  {
    var google, now := GoogleGave(run, acts, t), acts[t.mint].now;
    AccessToken(FamilyOf(run, acts, t), IdentityOf(run, acts, t), google, now / SECOND,
                if google * SECOND < now + ACCESS_TOKEN_TTL then google else (now + ACCESS_TOKEN_TTL) / SECOND)
  }

  lemma RunLength(run: seq<System>, acts: seq<Action>)
    requires IsRun(run, acts)
    ensures |run| == |acts| + 1
  {
  }

  lemma TrailInRun(run: seq<System>, acts: seq<Action>, t: Trail)
    requires IsRun(run, acts) && Follows(acts, t)
    ensures t.read < t.draw < t.commit < t.mint < |acts| && |run| == |acts| + 1
    ensures acts[t.mint].Mint? && acts[t.mint].r == t.r
  {
  }

  // ---- A request that is let through stores and mints what it should ----

  lemma ExchangeReadStep(s: System, a: Action)
    requires Enabled(s, a) && a.ExchangeRead?
    requires CodeAdmits(s.store, a)
    ensures a.r in Apply(s, a).procs && Apply(s, a).procs[a.r] == CodeChecked(a.key, a.now, s.store.codes[a.key])
  {
  }

  lemma RefreshReadStep(s: System, a: Action)
    requires Enabled(s, a) && a.RefreshRead?
    requires GrantAdmits(s.store, a)
    ensures a.r in Apply(s, a).procs
    ensures Apply(s, a).procs[a.r] == RefreshPrepared(Prepared(a.family, s.store.grants[a.family], a.now))
  {
  }

  lemma AnswerStep(s: System, a: Action)
    requires Enabled(s, a) && a.UpstreamAnswers?
    ensures a.r in Apply(s, a).procs
    ensures Apply(s, a).procs[a.r] == Refreshed(s.procs[a.r].prepared, a.googleRefresh, a.googleExpiry)
  {
  }

  lemma ReadGoesOn(run: seq<System>, acts: seq<Action>, t: Trail)
    requires IsRun(run, acts) && Follows(acts, t) && ReadAdmits(run, acts, t)
    ensures Enabled(run[t.draw], acts[t.draw]) && acts[t.draw].r == t.r && t.r in run[t.draw].procs
    ensures var s, a := run[t.read], acts[t.read];
            run[t.draw].procs[t.r] ==
            if t.Exchanged? then CodeChecked(a.key, a.now, s.store.codes[a.key])
            else Refreshed(Prepared(a.family, s.store.grants[a.family], a.now), acts[t.answer].googleRefresh, acts[t.answer].googleExpiry)
  {
    hide IsRun, Next, Enabled, Apply, CodeAdmits, GrantAdmits;
    if t.Exchanged? {
      AfterStep(run, acts, t.r, t.read, t.draw);
      ExchangeReadStep(run[t.read], acts[t.read]);
    } else {
      AfterStep(run, acts, t.r, t.read, t.answer);
      RefreshReadStep(run[t.read], acts[t.read]);
      AfterStep(run, acts, t.r, t.answer, t.draw);
      AnswerStep(run[t.answer], acts[t.answer]);
    }
  }

  lemma DrawStep(s: System, a: Action)
    requires Enabled(s, a) && (a.ExchangeDraw? || a.RefreshDraw?)
    ensures var pc := s.procs[a.r];
            && a.r in Apply(s, a).procs
            && Apply(s, a).procs[a.r] == if a.ExchangeDraw? then CodeRedeeming(pc.key, pc.now, pc.code, a.secret)
                                         else Rotating(pc.prepared, pc.googleRefresh, pc.googleExpiry, a.secret)
  {
  }

  lemma RedeemStep(s: System, a: Action)
    requires Enabled(s, a) && a.ExchangeRedeem?
    requires var pc := s.procs[a.r];
             && pc.key in s.store.codes && s.store.codes[pc.key].status == Active
             && pc.now < s.store.codes[pc.key].expiresAt
    ensures var pc, x := s.procs[a.r], s.procs[a.r].newSecret;
            var code, read := s.store.codes[pc.key], pc.code;
            && Apply(s, a).store == Store(s.store.codes[pc.key := code.(status := Used, usedAt := pc.now)],
                                          s.store.grants[code.family := GrantRecord(GrantClaims(read.claims.identity, read.claims.googleRefresh),
                                                                                    HashOf(x), 1, Active, pc.now + s.ttl, pc.now)])
            && a.r in Apply(s, a).procs
            && Apply(s, a).procs[a.r] == Minting(GrantTokens(read.family, read.claims.identity, read.claims.googleExpiry, x))
  {
  }

  lemma RotateStep(s: System, a: Action)
    requires Enabled(s, a) && a.RefreshRotate?
    requires var p := s.procs[a.r].prepared;
             p.family in s.store.grants && GrantIsActive(s.store.grants[p.family], p.startedAt) && s.store.grants[p.family].hash == p.record.hash
    ensures var pc, p, x := s.procs[a.r], s.procs[a.r].prepared, s.procs[a.r].newSecret;
            var was, given := p.record, pc.googleRefresh;
            && Apply(s, a).store
               == s.store.(grants := s.store.grants[p.family := GrantRecord(GrantClaims(was.claims.identity,
                                                                                        if given == 0 then was.claims.googleRefresh else given),
                                                                            HashOf(x), was.generation + 1, Active, was.expiresAt, p.startedAt)])
            && a.r in Apply(s, a).procs
            && Apply(s, a).procs[a.r] == Minting(GrantTokens(p.family, was.claims.identity, pc.googleExpiry, x))
  {
  }

  lemma DrawGoesOn(run: seq<System>, acts: seq<Action>, t: Trail)
    requires IsRun(run, acts) && Follows(acts, t) && ReadAdmits(run, acts, t)
    ensures Enabled(run[t.commit], acts[t.commit]) && acts[t.commit].r == t.r && t.r in run[t.commit].procs
    ensures var s, a, x := run[t.read], acts[t.read], acts[t.draw].secret;
            run[t.commit].procs[t.r] ==
            if t.Exchanged? then CodeRedeeming(a.key, a.now, s.store.codes[a.key], x)
            else Rotating(Prepared(a.family, s.store.grants[a.family], a.now), acts[t.answer].googleRefresh, acts[t.answer].googleExpiry, x)
  {
    hide IsRun, Next, Enabled, Apply, CodeAdmits, GrantAdmits;
    ReadGoesOn(run, acts, t);
    AfterStep(run, acts, t.r, t.draw, t.commit);
    DrawStep(run[t.draw], acts[t.draw]);
  }

  lemma RedeemGoesOn(run: seq<System>, acts: seq<Action>, t: Trail)
    requires IsRun(run, acts) && Follows(acts, t) && t.Exchanged? && ReadAdmits(run, acts, t) && CommitFinds(run, acts, t)
    ensures t.mint < |acts| && |run| == |acts| + 1
    ensures Stores(run, acts, t) && Enabled(run[t.mint], acts[t.mint]) && acts[t.mint].r == t.r && t.r in run[t.mint].procs
    ensures run[t.mint].procs[t.r] ==
            Minting(GrantTokens(FamilyOf(run, acts, t), IdentityOf(run, acts, t), GoogleGave(run, acts, t), acts[t.draw].secret))
  {
    hide IsRun, Next, Enabled, Apply;
    TrailInRun(run, acts, t);
    CodesOnlyMoveForward(run, acts, t.read, t.commit, acts[t.read].key);
    TtlIsFixed(run, acts, t.commit);
    DrawGoesOn(run, acts, t);
    AfterStep(run, acts, t.r, t.commit, t.mint);
    RedeemStep(run[t.commit], acts[t.commit]);
  }

  lemma RotationGoesOn(run: seq<System>, acts: seq<Action>, t: Trail)
    requires IsRun(run, acts) && Follows(acts, t) && t.Renewed? && ReadAdmits(run, acts, t) && CommitFinds(run, acts, t)
    ensures t.mint < |acts| && |run| == |acts| + 1
    ensures Stores(run, acts, t) && Enabled(run[t.mint], acts[t.mint]) && acts[t.mint].r == t.r && t.r in run[t.mint].procs
    ensures run[t.mint].procs[t.r] ==
            Minting(GrantTokens(FamilyOf(run, acts, t), IdentityOf(run, acts, t), GoogleGave(run, acts, t), acts[t.draw].secret))
  {
    hide IsRun, Next, Enabled, Apply;
    TrailInRun(run, acts, t);
    GrantsOnlyMoveForward(run, acts, t.read, t.commit, acts[t.read].family);
    DrawGoesOn(run, acts, t);
    AfterStep(run, acts, t.r, t.commit, t.mint);
    RotateStep(run[t.commit], acts[t.commit]);
  }

  lemma ExpiryInSeconds(googleExpiry: int, now: Time)
    ensures MintExpiry(googleExpiry, now) / SECOND
            == if googleExpiry * SECOND < now + ACCESS_TOKEN_TTL then googleExpiry else (now + ACCESS_TOKEN_TTL) / SECOND
    ensures now < MintExpiry(googleExpiry, now) <==> now < googleExpiry * SECOND
  {
  }

  /** A request that is admitted and not overtaken stores its grant, and hands out its token and
      the secret it drew unless Google's credentials have expired by then. */
  lemma RequestGetsThrough(run: seq<System>, acts: seq<Action>, t: Trail)
    requires IsRun(run, acts) && Follows(acts, t) && ReadAdmits(run, acts, t) && CommitFinds(run, acts, t)
    ensures Stores(run, acts, t)
    ensures var live := acts[t.mint].now < GoogleGave(run, acts, t) * SECOND;
            && run[t.mint + 1].minted == run[t.mint].minted + (if live then {TokenOf(run, acts, t)} else {})
            && run[t.mint + 1].delivered == run[t.mint].delivered + (if live then {acts[t.draw].secret} else {})
  {
    hide IsRun, Follows, Next, Enabled, Apply, Stores, ReadAdmits, CommitFinds, MintExpiry, Inv, Evolves, ActorSound, StoreAfter;
    TrailInRun(run, acts, t);
    if t.Exchanged? {
      RedeemGoesOn(run, acts, t);
    } else {
      RotationGoesOn(run, acts, t);
    }
    RunStep(run, acts, t.mint);
    ApplySecrets(run[t.mint], acts[t.mint]);
    ExpiryInSeconds(GoogleGave(run, acts, t), acts[t.mint].now);
  }

  // ---- Every token is the end of such a request ----

  lemma CameFrom(s: System, a: Action)
    requires Enabled(s, a) && HasActor(a) && a.r in Apply(s, a).procs
    ensures match Apply(s, a).procs[a.r]
            case Minting(_) => a.ExchangeRedeem? || a.RefreshRotate?
            case CodeRedeeming(_, _, _, _) => a.ExchangeDraw?
            case Rotating(_, _, _, _) => a.RefreshDraw?
            case CodeChecked(_, _, _) => a.ExchangeRead?
            case Refreshed(_, _, _) => a.UpstreamAnswers?
            case RefreshPrepared(_) => a.RefreshRead?
            case _ => true
  {
  }

  lemma StateCameFrom(run: seq<System>, acts: seq<Action>, r: Request, j: nat) returns (i: nat)
    requires IsRun(run, acts) && j < |acts| && IsStepOf(acts[j], r) && r in run[j].procs
    ensures Next(acts, r, i, j) && Enabled(run[i], acts[i])
    ensures r in Apply(run[i], acts[i]).procs && Apply(run[i], acts[i]).procs[r] == run[j].procs[r]
    ensures match run[j].procs[r]
            case Minting(_) => acts[i].ExchangeRedeem? || acts[i].RefreshRotate?
            case CodeRedeeming(_, _, _, _) => acts[i].ExchangeDraw?
            case Rotating(_, _, _, _) => acts[i].RefreshDraw?
            case CodeChecked(_, _, _) => acts[i].ExchangeRead?
            case Refreshed(_, _, _) => acts[i].UpstreamAnswers?
            case RefreshPrepared(_) => acts[i].RefreshRead?
            case _ => true
  {
    i := LastStep(run, acts, r, j);
    assert Enabled(run[i], acts[i]);
    CameFrom(run[i], acts[i]);
  }

  /** A request that drew a secret had been admitted. */
  lemma DrawHasRead(run: seq<System>, acts: seq<Action>, d: nat) returns (q: nat, u: nat)
    requires IsRun(run, acts) && d < |acts| && (acts[d].ExchangeDraw? || acts[d].RefreshDraw?)
    ensures q < |acts| && |run| == |acts| + 1
    ensures acts[d].ExchangeDraw? ==> Next(acts, acts[d].r, q, d) && acts[q].ExchangeRead? && CodeAdmits(run[q].store, acts[q])
    ensures acts[d].RefreshDraw? ==>
              && Next(acts, acts[d].r, q, u) && Next(acts, acts[d].r, u, d) && acts[u].UpstreamAnswers?
              && acts[q].RefreshRead? && GrantAdmits(run[q].store, acts[q])
  {
    var r := acts[d].r;
    assert |run| == |acts| + 1;
    assert Enabled(run[d], acts[d]);
    hide IsRun;
    q := StateCameFrom(run, acts, r, d);
    u := q;
    if acts[d].RefreshDraw? {
      q := StateCameFrom(run, acts, r, u);
    }
  }

  lemma CommitCameFrom(run: seq<System>, acts: seq<Action>, k: nat) returns (d: nat, m: nat)
    requires IsRun(run, acts) && k < |acts| && acts[k].Mint?
    ensures Next(acts, acts[k].r, d, m) && Next(acts, acts[k].r, m, k)
    ensures (acts[d].ExchangeDraw? && acts[m].ExchangeRedeem?) || (acts[d].RefreshDraw? && acts[m].RefreshRotate?)
    ensures |run| == |acts| + 1 && Enabled(run[m], acts[m]) && ReplyOf(run[m], acts[m]) == Ok
  {
    var r := acts[k].r;
    assert |run| == |acts| + 1;
    assert Enabled(run[k], acts[k]);
    hide IsRun;
    m := StateCameFrom(run, acts, r, k);
    d := StateCameFrom(run, acts, r, m);
  }

  lemma MintHasTrail(run: seq<System>, acts: seq<Action>, k: nat) returns (t: Trail)
    requires IsRun(run, acts) && k < |acts| && acts[k].Mint?
    ensures Follows(acts, t) && t.mint == k && |run| == |acts| + 1 && ReadAdmits(run, acts, t) && CommitFinds(run, acts, t)
  {
    assert |run| == |acts| + 1;
    hide IsRun, Apply;
    var d, m := CommitCameFrom(run, acts, k);
    var q, u := DrawHasRead(run, acts, d);
    t := if acts[m].ExchangeRedeem? then Exchanged(acts[k].r, q, d, m, k) else Renewed(acts[k].r, q, u, d, m, k);
    DrawGoesOn(run, acts, t);
  }

  lemma NothingAtFirst(run: seq<System>, acts: seq<Action>)
    requires IsRun(run, acts)
    ensures run[0].minted == {}
  {
  }

  /** Every access token ends a request that was admitted and not overtaken, and carries that
      request's family and identity and the expiry Google gave it. */
  lemma {:induction false} TokenHasTrail(run: seq<System>, acts: seq<Action>, token: AccessToken, j: nat) returns (t: Trail)
    requires IsRun(run, acts) && j <= |acts| && token in run[j].minted
    ensures Follows(acts, t) && t.mint < j && ReadAdmits(run, acts, t) && CommitFinds(run, acts, t)
    ensures Stores(run, acts, t) && token == TokenOf(run, acts, t) && token in run[t.mint + 1].minted
    ensures acts[t.mint].now < GoogleGave(run, acts, t) * SECOND
  {
    hide IsRun, Follows, ReadAdmits, CommitFinds, Stores, TokenOf, GoogleGave, Apply, Inv, Evolves, ActorSound, StoreAfter;
    RunLength(run, acts);
    NothingAtFirst(run, acts);
    if j == 0 {
      assert false;
    } else if token in run[j - 1].minted {
      t := TokenHasTrail(run, acts, token, j - 1);
    } else {
      RunStep(run, acts, j - 1);
      ApplyMints(run[j - 1], acts[j - 1]);
      t := MintHasTrail(run, acts, j - 1);
      RequestGetsThrough(run, acts, t);
    }
  }

  /** The step that gave a request the credentials it mints: the redemption of a code that carries
      them, or Google's answer to a refresh. */
  ghost predicate Gives(s: System, a: Action, r: Request, family: Family, googleExpiry: int) {
    && IsStepOf(a, r) && Enabled(s, a)
    && if a.ExchangeRedeem? then
         var key := s.procs[r].key;
         && CommitsRedemption(s, a, key) && key in s.store.codes
         && s.store.codes[key].family == family && s.store.codes[key].claims.googleExpiry == googleExpiry
       else a.UpstreamAnswers? && s.procs[r].prepared.family == family && a.googleExpiry == googleExpiry
  }

  function Source(t: Trail): nat {
    if t.Exchanged? then t.commit else t.answer
  }

  lemma RefreshReadOn(run: seq<System>, acts: seq<Action>, r: Request, q: nat, u: nat)
    requires IsRun(run, acts) && Next(acts, r, q, u) && acts[q].RefreshRead? && GrantAdmits(run[q].store, acts[q])
    ensures |run| == |acts| + 1 && Enabled(run[u], acts[u]) && acts[u].r == r && r in run[u].procs
    ensures run[u].procs[r] == RefreshPrepared(Prepared(acts[q].family, run[q].store.grants[acts[q].family], acts[q].now))
  {
    AfterStep(run, acts, r, q, u);
    RefreshReadStep(run[q], acts[q]);
  }

  lemma SourceGives(run: seq<System>, acts: seq<Action>, t: Trail)
    requires IsRun(run, acts) && Follows(acts, t) && ReadAdmits(run, acts, t) && CommitFinds(run, acts, t)
    ensures Source(t) < t.mint < |acts| && |run| == |acts| + 1
    ensures Gives(run[Source(t)], acts[Source(t)], t.r, FamilyOf(run, acts, t), GoogleGave(run, acts, t))
  {
    assert |run| == |acts| + 1;
    if t.Exchanged? {
      CodesOnlyMoveForward(run, acts, t.read, t.commit, acts[t.read].key);
      hide IsRun, Next;
      DrawGoesOn(run, acts, t);
    } else {
      RefreshReadOn(run, acts, t.r, t.read, t.answer);
    }
  }

  lemma ThereBetween(run: seq<System>, acts: seq<Action>, r: Request, i: nat, j: nat, n: nat)
    requires IsRun(run, acts) && Next(acts, r, i, j) && i < n <= j
    requires |run| == |acts| + 1 && j < |acts| && r in run[j].procs
    ensures r in run[n].procs
  {
    Stays(run, acts, r, i, j);
    Stays(run, acts, r, i, n);
  }

  /** A request that mints was there all the time since its credentials were given. */
  lemma SourceIsSameRequest(run: seq<System>, acts: seq<Action>, t: Trail, n: nat)
    requires IsRun(run, acts) && Follows(acts, t) && ReadAdmits(run, acts, t) && CommitFinds(run, acts, t)
    requires Source(t) < n <= t.mint
    ensures n < |run| && t.r in run[n].procs
  {
    hide IsRun, Next, Enabled, Apply, ReadAdmits, CommitFinds, Stores;
    TrailInRun(run, acts, t);
    ReadGoesOn(run, acts, t);
    DrawGoesOn(run, acts, t);
    if t.commit < n {
      if t.Exchanged? {
        RedeemGoesOn(run, acts, t);
      } else {
        RotationGoesOn(run, acts, t);
      }
      ThereBetween(run, acts, t.r, t.commit, t.mint, n);
    } else if t.draw < n {
      ThereBetween(run, acts, t.r, t.draw, t.commit, n);
    } else {
      ThereBetween(run, acts, t.r, t.answer, t.draw, n);
    }
  }

  // ---- Requests that end in a revocation ----

  lemma RejectStep(s: System, a: Action)
    requires Enabled(s, a) && a.UpstreamRejects?
    ensures a.r in Apply(s, a).procs && Apply(s, a).procs[a.r] == RefreshRejected(s.procs[a.r].prepared)
  {
  }

  /** When Google refuses the refresh, or the account lost the pinned project, the request's next
      step revokes the family for good, unless the request dies first. */
  lemma RejectionRevokes(run: seq<System>, acts: seq<Action>, r: Request, q: nat, u: nat, m: nat, n: nat)
    requires IsRun(run, acts) && Next(acts, r, q, u) && Next(acts, r, u, m) && m < n <= |acts|
    requires acts[q].RefreshRead? && GrantAdmits(run[q].store, acts[q]) && acts[u].UpstreamRejects? && !acts[m].Fail?
    ensures CommitsRevocation(run[m], acts[m], acts[q].family)
    ensures acts[q].family in run[n].store.grants && run[n].store.grants[acts[q].family].status == Revoked
  {
    RefreshReadOn(run, acts, r, q, u);
    AfterStep(run, acts, r, u, m);
    RejectStep(run[u], acts[u]);
    GrantsOnlyMoveForward(run, acts, q, m, acts[q].family);
    RevocationSticks(run, acts, m, n, acts[q].family);
  }

  lemma StaleReadStep(s: System, a: Action)
    requires Enabled(s, a) && a.RefreshRead? && a.family in s.store.grants
    requires GrantIsActive(s.store.grants[a.family], a.now) && s.store.grants[a.family].hash != HashOf(a.secret)
    ensures a.r in Apply(s, a).procs && Apply(s, a).procs[a.r] == RefreshReplayed(a.family, a.secret, a.now)
  {
  }

  /** Section 10.4 of RFC 6749, from the presentation on: a request that presents a secret other
      than the current one of an active grant goes on to revoke the family for good, unless it
      dies first. */
  lemma StaleSecretRevokes(run: seq<System>, acts: seq<Action>, r: Request, q: nat, m: nat, n: nat)
    requires IsRun(run, acts) && Next(acts, r, q, m) && m < n <= |acts| && acts[q].RefreshRead? && !acts[m].Fail?
    requires acts[q].family in run[q].store.grants && GrantIsActive(run[q].store.grants[acts[q].family], acts[q].now)
    requires run[q].store.grants[acts[q].family].hash != HashOf(acts[q].secret)
    ensures acts[q].family in run[n].store.grants && run[n].store.grants[acts[q].family].status == Revoked
  {
    AfterStep(run, acts, r, q, m);
    StaleReadStep(run[q], acts[q]);
    RefreshReplayKillsFamily(run, acts, m, n);
  }

  lemma UsedReadStep(s: System, a: Action)
    requires Enabled(s, a) && a.ExchangeRead? && a.key in s.store.codes && s.store.codes[a.key].status != Active
    ensures a.r in Apply(s, a).procs && Apply(s, a).procs[a.r] == CodeReplayed(a.key, a.now)
  {
  }

  lemma CodeIsUsed(run: seq<System>, acts: seq<Action>, key: Key, i: nat, q: nat)
    requires IsRun(run, acts) && i < q <= |acts| && CommitsRedemption(run[i], acts[i], key)
    ensures key in run[q].store.codes && run[q].store.codes[key].status == Used
  {
    RunStep(run, acts, i);
    RedemptionStoresFirstGrant(run[i], acts[i], key);
    CodesOnlyMoveForward(run, acts, i + 1, q, key);
  }

  /** Section 4.1.2 of RFC 6749, from the presentation on: a request that presents a redeemed code
      goes on, unless it dies first, to revoke the family for good when its time is before the
      code's expiry, and to leave the store alone otherwise. */
  lemma UsedCodeRevokes(run: seq<System>, acts: seq<Action>, key: Key, i: nat, r: Request, q: nat, m: nat, n: nat)
    requires IsRun(run, acts) && i < q && Next(acts, r, q, m) && m < n <= |acts|
    requires CommitsRedemption(run[i], acts[i], key) && acts[q].ExchangeRead? && acts[q].key == key && !acts[m].Fail?
    ensures key in run[i].store.codes
    ensures var code := run[i].store.codes[key];
            if acts[q].now < code.expiresAt
            then code.family in run[n].store.grants && run[n].store.grants[code.family].status == Revoked
            else run[m + 1].store == run[m].store
  {
    CodeIsUsed(run, acts, key, i, q);
    AfterStep(run, acts, r, q, m);
    UsedReadStep(run[q], acts[q]);
    hide IsRun, Apply;
    ReplayKillsFamily(run, acts, key, i, m, n);
  }

  lemma PossessedStep(s: System, a: Action)
    requires Enabled(s, a) && a.RevokeRead?
    ensures a.r in Apply(s, a).procs <==> a.family in s.store.grants && s.store.grants[a.family].hash == HashOf(a.secret)
    ensures a.r in Apply(s, a).procs ==> Apply(s, a).procs[a.r] == Possessed(a.family, a.secret, a.now)
  {
  }

  /** RevokeToken with a refresh token revokes exactly when the secret is current at the read and
      still at the write, whatever the grant's status and expiry. */
  lemma PossessionRevokes(run: seq<System>, acts: seq<Action>, r: Request, q: nat, m: nat)
    requires IsRun(run, acts) && Next(acts, r, q, m) && acts[q].RevokeRead? && !acts[m].Fail? && r in run[m].procs
    ensures var a, st := acts[q], run[m].store;
            && a.family in run[q].store.grants && run[q].store.grants[a.family].hash == HashOf(a.secret)
            && a.family in st.grants
            && if st.grants[a.family].hash == HashOf(a.secret)
               then run[m + 1].store == st.(grants := st.grants[a.family := st.grants[a.family].(status := Revoked, updatedAt := a.now)])
               else run[m + 1].store == st
  {
    AfterStep(run, acts, r, q, m);
    PossessedStep(run[q], acts[q]);
    GrantsOnlyMoveForward(run, acts, q, m, acts[q].family);
    RunStep(run, acts, m);
  }

  /** RevokeToken with an access token always revokes the token's family. */
  lemma AccessTokenRevokes(run: seq<System>, acts: seq<Action>, m: nat, n: nat)
    requires IsRun(run, acts) && m < n <= |acts| && acts[m].RevokeAccess?
    ensures acts[m].token.family in run[n].store.grants
    ensures run[n].store.grants[acts[m].token.family].status == Revoked
  {
    RunStep(run, acts, m);
    assert TokenInv(run[m], acts[m].token);
    RevocationSticks(run, acts, m, n, acts[m].token.family);
  }

  // ---- Sessions ----

  /** What the token says of its request: when it was minted, and for how long. */
  lemma TokenSays(run: seq<System>, acts: seq<Action>, t: Trail)
    requires IsRun(run, acts) && Follows(acts, t) && ReadAdmits(run, acts, t)
    ensures t.mint < |acts| && IsStepOf(acts[t.mint], t.r) && acts[t.mint].Mint?
    ensures var token := TokenOf(run, acts, t);
            && token.family == FamilyOf(run, acts, t) && token.googleExpiry == GoogleGave(run, acts, t)
            && token.issuedAt == acts[t.mint].now / SECOND
  {
  }

  lemma FamilyIs(run: seq<System>, acts: seq<Action>, t: Trail)
    requires IsRun(run, acts) && Follows(acts, t) && ReadAdmits(run, acts, t)
    ensures TokenOf(run, acts, t).family == FamilyOf(run, acts, t)
  {
  }

  lemma FamilyStored(run: seq<System>, acts: seq<Action>, t: Trail)
    requires IsRun(run, acts) && Follows(acts, t) && ReadAdmits(run, acts, t) && CommitFinds(run, acts, t) && Stores(run, acts, t)
    ensures FamilyOf(run, acts, t) in run[t.commit + 1].store.grants
  {
    if t.Exchanged? {
      CodesOnlyMoveForward(run, acts, t.read, t.commit, acts[t.read].key);
    }
  }

  lemma TrailExpiry(google: int, mint: Time, now: Time)
    requires now < (if google * SECOND < mint + ACCESS_TOKEN_TTL then google else (mint + ACCESS_TOKEN_TTL) / SECOND) * SECOND
    ensures now < google * SECOND && now < mint + ACCESS_TOKEN_TTL
  {
  }

  lemma AcceptedIsLive(run: seq<System>, acts: seq<Action>, j: nat, t: Trail)
    requires IsRun(run, acts) && j < |acts| && acts[j].VerifyAccess?
    requires Accepts(run[j], acts[j].token, acts[j].now, acts[j].domainAllowed)
    requires Follows(acts, t) && ReadAdmits(run, acts, t) && acts[j].token == TokenOf(run, acts, t)
    ensures acts[j].now < GoogleGave(run, acts, t) * SECOND && acts[j].now < acts[t.mint].now + ACCESS_TOKEN_TTL
  {
    hide IsRun, Next, Follows, ReadAdmits, GoogleGave, FamilyOf, IdentityOf;
    TrailInRun(run, acts, t);
    TrailExpiry(GoogleGave(run, acts, t), acts[t.mint].now, acts[j].now);
  }

  lemma ActiveIsUnrevoked(run: seq<System>, acts: seq<Action>, f: Family, now: Time, j: nat)
    requires IsRun(run, acts) && j < |run| && f in run[j].store.grants && GrantIsActive(run[j].store.grants[f], now)
    ensures forall n | 0 <= n < j :: !CommitsRevocation(run[n], acts[n], f)
  {
    forall n | 0 <= n < j
      ensures !CommitsRevocation(run[n], acts[n], f)
    {
      if CommitsRevocation(run[n], acts[n], f) {
        RevocationSticks(run, acts, n, j, f);
      }
    }
  }

  lemma ActiveIsWithinLifetime(run: seq<System>, acts: seq<Action>, f: Family, now: Time, m: nat, j: nat) returns (i: nat, key: Key)
    requires IsRun(run, acts) && m < j < |run| && f in run[m + 1].store.grants
    requires f in run[j].store.grants && GrantIsActive(run[j].store.grants[f], now)
    ensures i <= m && CommitsRedemption(run[i], acts[i], key) && key in run[i].store.codes
    ensures run[i].store.codes[key].family == f
    ensures run[i].store.codes[key].claims.identity == run[j].store.grants[f].claims.identity
    ensures now < OpOf(run[i], acts[i]).op.now + run[0].ttl
  {
    i, key := GrantHasRedemption(run, acts, f, m + 1);
    GenerationCountsRotations(run, acts, key, i, j);
    TtlIsFixed(run, acts, i);
  }

  lemma TokenIdentity(run: seq<System>, acts: seq<Action>, token: AccessToken, j: nat)
    requires IsRun(run, acts) && j < |run| && token in run[j].minted
    ensures token.family in run[j].store.grants && run[j].store.grants[token.family].claims.identity == token.identity
  {
    RunInv(run, acts, j);
    assert TokenInv(run[j], token);
  }

  /** The bound on every session.  When VerifyAccess accepts a token at time `now`, the token was
      minted at the end of a request of its family that was admitted; `now` is before the expiry
      Google gave to that very request and within ACCESS_TOKEN_TTL of its minting.  The family was
      redeemed earlier in the run, for the token's identity, and `now` is before that redemption's
      time plus the refresh lifetime whatever refreshes came between; and no revocation of the
      family has committed. */
  lemma SessionBound(run: seq<System>, acts: seq<Action>, j: nat) returns (t: Trail, i: nat, key: Key)
    requires IsRun(run, acts) && j < |acts| && acts[j].VerifyAccess?
    requires Accepts(run[j], acts[j].token, acts[j].now, acts[j].domainAllowed)
    ensures Follows(acts, t) && t.mint < j && ReadAdmits(run, acts, t) && CommitFinds(run, acts, t)
    ensures acts[j].token == TokenOf(run, acts, t) && acts[j].token in run[t.mint + 1].minted
    ensures acts[j].now < GoogleGave(run, acts, t) * SECOND
    ensures acts[j].now < acts[t.mint].now + ACCESS_TOKEN_TTL
    ensures i <= t.commit && CommitsRedemption(run[i], acts[i], key) && key in run[i].store.codes
    ensures run[i].store.codes[key].family == acts[j].token.family
    ensures run[i].store.codes[key].claims.identity == acts[j].token.identity
    ensures acts[j].now < OpOf(run[i], acts[i]).op.now + run[0].ttl
    ensures forall n | 0 <= n < j :: !CommitsRevocation(run[n], acts[n], acts[j].token.family)
  {
    hide IsRun, Follows, ReadAdmits, CommitFinds, Stores, TokenOf, GoogleGave, FamilyOf, CommitsRedemption, CommitsRevocation;
    RunLength(run, acts);
    var token, f := acts[j].token, acts[j].token.family;
    t := TokenHasTrail(run, acts, token, j);
    TrailInRun(run, acts, t);
    FamilyStored(run, acts, t);
    FamilyIs(run, acts, t);
    AcceptedIsLive(run, acts, j, t);
    TokenIdentity(run, acts, token, j);
    i, key := ActiveIsWithinLifetime(run, acts, f, acts[j].now, t.commit, j);
    ActiveIsUnrevoked(run, acts, f, acts[j].now, j);
  }

  lemma RevokingStep(s: System, a: Action, f: Family)
    requires Enabled(s, a) && f in StoreAfter(s, a).grants && StoreAfter(s, a).grants[f].status == Revoked
    requires f in s.store.grants ==> s.store.grants[f].status != Revoked
    ensures CommitsRevocation(s, a, f)
  {
  }

  /** Every revoked grant goes back to a committed revocation. */
  lemma {:induction false} RevokedHasRevocation(run: seq<System>, acts: seq<Action>, f: Family, j: nat) returns (n: nat)
    requires IsRun(run, acts) && j <= |acts| && f in run[j].store.grants && run[j].store.grants[f].status == Revoked
    ensures n < j && CommitsRevocation(run[n], acts[n], f)
  {
    if j == 0 {
      assert false;
    } else if f in run[j - 1].store.grants && run[j - 1].store.grants[f].status == Revoked {
      n := RevokedHasRevocation(run, acts, f, j - 1);
    } else {
      n := j - 1;
      RunStep(run, acts, n);
      RevokingStep(run[n], acts[n], f);
    }
  }

  lemma UnrevokedIsActive(run: seq<System>, acts: seq<Action>, f: Family, j: nat)
    requires IsRun(run, acts) && j < |run| && f in run[j].store.grants
    requires forall n | 0 <= n < j :: !CommitsRevocation(run[n], acts[n], f)
    ensures run[j].store.grants[f].status == Active
  {
    RunInv(run, acts, j);
    assert GenuineRecord(run[j], f, run[j].store.grants[f]);
    if run[j].store.grants[f].status == Revoked {
      var n := RevokedHasRevocation(run, acts, f, j);
    }
  }

  /** Exactly when a token is accepted, by what happened in the run: before its expiry and the end
      of its family's refresh lifetime, while the account's domain is allowed, and while no
      revocation of the family has committed. */
  lemma AcceptedExactly(run: seq<System>, acts: seq<Action>, j: nat, i: nat, key: Key, token: AccessToken, now: Time, domainAllowed: bool)
    requires IsRun(run, acts) && i < j < |run| && token in run[j].minted
    requires CommitsRedemption(run[i], acts[i], key) && key in run[i].store.codes && run[i].store.codes[key].family == token.family
    ensures Accepts(run[j], token, now, domainAllowed) <==>
            && domainAllowed && now < token.expiresAt * SECOND
            && now < OpOf(run[i], acts[i]).op.now + run[0].ttl
            && forall n | 0 <= n < j :: !CommitsRevocation(run[n], acts[n], token.family)
  {
    TokenIdentity(run, acts, token, j);
    GenerationCountsRotations(run, acts, key, i, j);
    TtlIsFixed(run, acts, i);
    if GrantIsActive(run[j].store.grants[token.family], now) {
      ActiveIsUnrevoked(run, acts, token.family, now, j);
    } else if forall n | 0 <= n < j :: !CommitsRevocation(run[n], acts[n], token.family) {
      UnrevokedIsActive(run, acts, token.family, j);
    }
  }

  /** The same by the steps alone: the request that minted an accepted token was given Google's
      expiry earlier, and was there all the time in between. */
  lemma TokenSource(run: seq<System>, acts: seq<Action>, j: nat) returns (source: nat, mint: nat)
    requires IsRun(run, acts) && j < |acts| && acts[j].VerifyAccess?
    requires Accepts(run[j], acts[j].token, acts[j].now, acts[j].domainAllowed)
    ensures source < mint < j && acts[mint].Mint? && acts[j].token in run[mint + 1].minted
    ensures acts[j].token.issuedAt == acts[mint].now / SECOND
    ensures Gives(run[source], acts[source], acts[mint].r, acts[j].token.family, acts[j].token.googleExpiry)
    ensures forall n | source < n <= mint :: At(run[n], acts[mint].r)
    ensures acts[j].now < acts[j].token.googleExpiry * SECOND && acts[j].now < acts[mint].now + ACCESS_TOKEN_TTL
  {
    var t := TokenHasTrail(run, acts, acts[j].token, j);
    AcceptedIsLive(run, acts, j, t);
    hide IsRun, Follows, Next, ReadAdmits, CommitFinds, Stores, Gives, Accepts;
    TokenSays(run, acts, t);
    SourceGives(run, acts, t);
    source, mint := Source(t), t.mint;
    forall n | source < n <= mint
      ensures At(run[n], acts[mint].r)
    {
      SourceIsSameRequest(run, acts, t, n);
    }
  }
}
