/** Whole-run results about the grant lifecycle: statements over every interleaving of every
    number of requests. */
module GrantRuns {
  import opened GrantStore
  import opened GrantLifecycle

  ghost predicate IsRun(run: seq<System>, acts: seq<Action>) {
    && |run| == |acts| + 1
    && Init(run[0])
    && forall i {:trigger acts[i]} | 0 <= i < |acts| ::
         Enabled(run[i], acts[i]) && run[i + 1] == Apply(run[i], acts[i])
  }

  lemma {:induction false} RunInv(run: seq<System>, acts: seq<Action>, i: nat)
    requires IsRun(run, acts) && i < |run|
    ensures Inv(run[i])
  {
    if i == 0 {
      InitInv(run[0]);
    } else {
      RunInv(run, acts, i - 1);
      assert Enabled(run[i - 1], acts[i - 1]);
      StepKeepsInv(run[i - 1], acts[i - 1]);
    }
  }

  lemma RunStep(run: seq<System>, acts: seq<Action>, i: nat)
    requires IsRun(run, acts) && i < |acts|
    ensures Inv(run[i]) && Enabled(run[i], acts[i]) && run[i + 1] == Apply(run[i], acts[i])
    ensures run[i + 1].store == StoreAfter(run[i], acts[i])
    ensures ActorSound(run[i], acts[i]) && Evolves(run[i], run[i + 1])
  {
    RunInv(run, acts, i);
    assert Enabled(run[i], acts[i]);
    InvGivesActorSound(run[i], acts[i]);
    StepEvolves(run[i], acts[i]);
    ApplyStore(run[i], acts[i]);
  }

  // ---- Commits ----

  predicate CommitsRedemption(s: System, a: Action, key: Key) {
    && Enabled(s, a) && OpOf(s, a).Call? && OpOf(s, a).op.RedeemCode?
    && OpOf(s, a).op.key == key && ReplyOf(s, a) == Ok
  }

  predicate CommitsRotation(s: System, a: Action, family: Family) {
    && Enabled(s, a) && OpOf(s, a).Call? && OpOf(s, a).op.RotateGrant?
    && OpOf(s, a).op.family == family && ReplyOf(s, a) == Ok
  }

  /** Any of the five ways a stored grant is revoked: code replay, refresh replay, upstream
      rejection, access-token revocation and possessed-refresh-token revocation. */
  predicate CommitsRevocation(s: System, a: Action, family: Family) {
    && Enabled(s, a) && OpOf(s, a).Call? && family in s.store.grants
    && match OpOf(s, a).op
       case PutCode(_, _) => false
       case RedeemCode(key, _, _) =>
         key in s.store.codes && s.store.codes[key].family == family && ReplyOf(s, a) == CodeReplay
       case RotateGrant(f, _, _, _) => f == family && ReplyOf(s, a) == GrantReplay
       case RevokeGrant(f, _) => f == family
       case RevokeGrantIfSecret(f, _, _) => f == family && ReplyOf(s, a) == Ok
  }

  // ---- The zero grant ----

  ghost predicate NoBareGrant(s: System) {
    forall f <- s.store.grants :: s.store.grants[f].hash != NoHash && s.store.grants[f].status != Unset
  }

  lemma GenuineIsNotBare(s: System)
    requires GrantsGenuine(s)
    ensures NoBareGrant(s)
  {
    forall f <- s.store.grants
      ensures s.store.grants[f].hash != NoHash && s.store.grants[f].status != Unset
    {
      assert GenuineRecord(s, f, s.store.grants[f]);
    }
  }

  /** The all-zero grant handed to the store by the two replay paths is never committed, and no
      stored grant is ever without a secret. */
  lemma ZeroGrantNeverCommitted(run: seq<System>, acts: seq<Action>, i: nat)
    requires IsRun(run, acts) && i < |acts|
    ensures Enabled(run[i], acts[i])
    ensures match OpOf(run[i], acts[i])
            case Call(RedeemCode(_, _, grant)) => grant == ZERO_GRANT ==> ReplyOf(run[i], acts[i]) != Ok
            case Call(RotateGrant(_, _, next, _)) => next == ZERO_GRANT ==> ReplyOf(run[i], acts[i]) != Ok
            case _ => true
    ensures NoBareGrant(run[i + 1])
  {
    RunStep(run, acts, i);
    if acts[i].ExchangeReplay? || acts[i].RefreshReplay? {
      ReplayCallsCommitNothing(run[i], acts[i]);
    }
    RunInv(run, acts, i + 1);
    GenuineIsNotBare(run[i + 1]);
  }

  /** A refresh secret that did not match when PrepareRefresh read the grant never matches
      later, whatever rotations happen in between. */
  lemma {:induction false} MismatchIsForever(run: seq<System>, acts: seq<Action>, i: nat, j: nat)
    requires IsRun(run, acts) && i < j <= |acts|
    requires acts[i].RefreshRead? && acts[i].family in run[i].store.grants
    requires HashOf(acts[i].secret) != run[i].store.grants[acts[i].family].hash
    ensures acts[i].secret in run[j].presented
    ensures acts[i].family in run[j].store.grants
    ensures run[j].store.grants[acts[i].family].hash != HashOf(acts[i].secret)
  {
    RunStep(run, acts, j - 1);
    if j == i + 1 {
      ApplySecrets(run[i], acts[i]);
    } else {
      MismatchIsForever(run, acts, i, j - 1);
    }
  }

  // ---- What never changes, and what only grows ----

  lemma {:induction false} GrantsOnlyMoveForward(run: seq<System>, acts: seq<Action>, i: nat, j: nat, f: Family)
    requires IsRun(run, acts) && i <= j < |run| && f in run[i].store.grants
    ensures f in run[j].store.grants
    ensures run[j].store.grants[f].expiresAt == run[i].store.grants[f].expiresAt
    ensures run[j].store.grants[f].claims.identity == run[i].store.grants[f].claims.identity
    ensures run[i].store.grants[f].generation <= run[j].store.grants[f].generation
    ensures run[i].store.grants[f].status == Revoked ==> run[j].store.grants[f].status == Revoked
  {
    if i < j {
      GrantsOnlyMoveForward(run, acts, i, j - 1, f);
      RunStep(run, acts, j - 1);
    }
  }

  lemma {:induction false} CodesOnlyMoveForward(run: seq<System>, acts: seq<Action>, i: nat, j: nat, k: Key)
    requires IsRun(run, acts) && i <= j < |run| && k in run[i].store.codes
    ensures SameCode(run[j], k, run[i].store.codes[k])
    ensures run[i].store.codes[k].status == Used ==> run[j].store.codes[k].status == Used
  {
    if i < j {
      CodesOnlyMoveForward(run, acts, i, j - 1, k);
      RunStep(run, acts, j - 1);
    }
  }

  lemma {:induction false} IssuesPersist(run: seq<System>, acts: seq<Action>, i: nat, j: nat, x: Secret)
    requires IsRun(run, acts) && i <= j < |run| && x in run[i].issued
    ensures x in run[j].issued && run[j].issued[x] == run[i].issued[x]
  {
    if i < j {
      IssuesPersist(run, acts, i, j - 1, x);
      RunStep(run, acts, j - 1);
    }
  }

  lemma RevocationSticks(run: seq<System>, acts: seq<Action>, i: nat, j: nat, f: Family)
    requires IsRun(run, acts) && i < j < |run| && CommitsRevocation(run[i], acts[i], f)
    ensures f in run[j].store.grants && run[j].store.grants[f].status == Revoked
  {
    RunStep(run, acts, i);
    GrantsOnlyMoveForward(run, acts, i + 1, j, f);
  }

  // ---- Rotation ----

  ghost function Rotations(run: seq<System>, acts: seq<Action>, f: Family, i: nat, j: nat): nat
    requires i <= j <= |acts| < |run|
    decreases j
  {
    if i == j then 0
    else Rotations(run, acts, f, i, j - 1) + if CommitsRotation(run[j - 1], acts[j - 1], f) then 1 else 0
  }

  lemma RedemptionStoresFirstGrant(s: System, a: Action, key: Key)
    requires Inv(s) && CommitsRedemption(s, a, key)
    ensures a.ExchangeRedeem? && key in s.store.codes
    ensures s.store.codes[key].status == Active
    ensures var f := s.store.codes[key].family;
            && f !in s.store.grants
            && f in StoreAfter(s, a).grants
            && key in StoreAfter(s, a).codes && StoreAfter(s, a).codes[key].status == Used
            && StoreAfter(s, a).grants[f].generation == 1
            && StoreAfter(s, a).grants[f].status == Active
            && StoreAfter(s, a).grants[f].expiresAt == OpOf(s, a).op.now + s.ttl
            && StoreAfter(s, a).grants[f].claims.identity == s.store.codes[key].claims.identity
  {
    AtProc(s, a.r);
  }

  lemma OneStepGeneration(s: System, a: Action, f: Family)
    requires Inv(s) && Enabled(s, a) && f in s.store.grants
    ensures f in StoreAfter(s, a).grants
    ensures StoreAfter(s, a).grants[f].generation
            == s.store.grants[f].generation + if CommitsRotation(s, a, f) then 1 else 0
  {
    InvGivesActorSound(s, a);
    StoreEvolves(s, a, s.presented);
    GrantOrigin(s, a, f);
    if a.RefreshRotate? {
      SameHashSameGeneration(s, s.procs[a.r].prepared);
    }
  }

  lemma {:induction false} RotationsAddUp(run: seq<System>, acts: seq<Action>, f: Family, i: nat, j: nat)
    requires IsRun(run, acts) && i <= j <= |acts| && f in run[i].store.grants
    ensures f in run[j].store.grants
    ensures run[j].store.grants[f].generation
            == run[i].store.grants[f].generation + Rotations(run, acts, f, i, j)
  {
    hide Inv, CommitsRotation, ActorSound, Evolves, Apply, StoreAfter;
    if i < j {
      RotationsAddUp(run, acts, f, i, j - 1);
      RunStep(run, acts, j - 1);
      OneStepGeneration(run[j - 1], acts[j - 1], f);
    }
  }

  /** From its redemption on, a grant's generation is one plus the rotations committed so far,
      and its expiry and identity are those fixed at redemption, although every rotation writes
      back a record built from an old snapshot. */
  lemma GenerationCountsRotations(run: seq<System>, acts: seq<Action>, key: Key, i: nat, j: nat)
    requires IsRun(run, acts) && i < j <= |acts| && CommitsRedemption(run[i], acts[i], key)
    ensures key in run[i].store.codes
    ensures var f := run[i].store.codes[key].family;
            && f in run[j].store.grants
            && run[j].store.grants[f].generation == 1 + Rotations(run, acts, f, i + 1, j)
            && run[j].store.grants[f].expiresAt == OpOf(run[i], acts[i]).op.now + run[i].ttl
            && run[j].store.grants[f].claims.identity == run[i].store.codes[key].claims.identity
  {
    RunStep(run, acts, i);
    RedemptionStoresFirstGrant(run[i], acts[i], key);
    var f := run[i].store.codes[key].family;
    RotationsAddUp(run, acts, f, i + 1, j);
    GrantsOnlyMoveForward(run, acts, i + 1, j, f);
  }

  predicate WinsRotation(s: System, a: Action) {
    Enabled(s, a) && a.RefreshRotate? && ReplyOf(s, a) == Ok
  }

  function Rotated(s: System, a: Action): Prepared
    requires WinsRotation(s, a)
  {
    s.procs[a.r].prepared
  }

  lemma RotationMovesOn(s: System, a: Action)
    requires Inv(s) && WinsRotation(s, a)
    ensures var p := Rotated(s, a);
            && p.record.hash.HashOf? && p.record.hash.secret in s.issued
            && p.family in s.store.grants && p.family in StoreAfter(s, a).grants
            && s.store.grants[p.family].hash == p.record.hash
            && s.issued[p.record.hash.secret] == Issue(p.family, s.store.grants[p.family].generation)
            && s.store.grants[p.family].generation < StoreAfter(s, a).grants[p.family].generation
  {
    AtProc(s, a.r);
    SameHashSameGeneration(s, s.procs[a.r].prepared);
  }

  lemma GenerationsDiffer(s: System, f: Family, hash: Hash)
    requires GrantsGenuine(s) && f in s.store.grants
    requires hash.HashOf? && hash.secret in s.issued
    requires s.issued[hash.secret].generation < s.store.grants[f].generation
    ensures s.store.grants[f].hash != hash
  {
    assert GenuineRecord(s, f, s.store.grants[f]);
  }

  /** Once rotated away, a refresh secret is never the current one of its family again. */
  lemma RotatedSecretIsDead(run: seq<System>, acts: seq<Action>, i: nat, j: nat)
    requires IsRun(run, acts) && i < j <= |acts| && WinsRotation(run[i], acts[i])
    ensures var p := Rotated(run[i], acts[i]);
            && p.family in run[j].store.grants
            && run[j].store.grants[p.family].hash != p.record.hash
            && p.record.hash.HashOf? && p.record.hash.secret in run[j].issued
            && run[j].issued[p.record.hash.secret].family == p.family
  {
    var p := Rotated(run[i], acts[i]);
    RunStep(run, acts, i);
    RotationMovesOn(run[i], acts[i]);
    IssuesPersist(run, acts, i, j, p.record.hash.secret);
    GrantsOnlyMoveForward(run, acts, i + 1, j, p.family);
    RunInv(run, acts, j);
    GenerationsDiffer(run[j], p.family, p.record.hash);
  }

  lemma NoLaterRotation(run: seq<System>, acts: seq<Action>, i: nat, j: nat)
    requires IsRun(run, acts) && i < j < |acts|
    requires WinsRotation(run[i], acts[i]) && WinsRotation(run[j], acts[j])
    ensures Rotated(run[i], acts[i]).record.hash != Rotated(run[j], acts[j]).record.hash
  {
    RotatedSecretIsDead(run, acts, i, j);
    RunInv(run, acts, j);
    RotationMovesOn(run[j], acts[j]);
  }

  /** Each refresh secret wins at most one rotation, over all families and requests. */
  lemma SecretRotatesOnce(run: seq<System>, acts: seq<Action>, i: nat, j: nat)
    requires IsRun(run, acts) && i < |acts| && j < |acts|
    requires WinsRotation(run[i], acts[i]) && WinsRotation(run[j], acts[j])
    requires Rotated(run[i], acts[i]).record.hash == Rotated(run[j], acts[j]).record.hash
    ensures i == j
  {
    if i < j {
      NoLaterRotation(run, acts, i, j);
    } else if j < i {
      NoLaterRotation(run, acts, j, i);
    }
  }

  // ---- Codes ----

  lemma NoLaterRedemption(run: seq<System>, acts: seq<Action>, key: Key, i: nat, j: nat)
    requires IsRun(run, acts) && i < j < |acts| && CommitsRedemption(run[i], acts[i], key)
    ensures !CommitsRedemption(run[j], acts[j], key)
  {
    RunStep(run, acts, i);
    RedemptionStoresFirstGrant(run[i], acts[i], key);
    CodesOnlyMoveForward(run, acts, i + 1, j, key);
    if CommitsRedemption(run[j], acts[j], key) {
      RunInv(run, acts, j);
      RedemptionStoresFirstGrant(run[j], acts[j], key);
    }
  }

  /** Section 4.1.2 of RFC 6749: a code is redeemed at most once, in any interleaving. */
  lemma CodeRedeemedOnce(run: seq<System>, acts: seq<Action>, key: Key, i: nat, j: nat)
    requires IsRun(run, acts) && i < |acts| && j < |acts|
    requires CommitsRedemption(run[i], acts[i], key) && CommitsRedemption(run[j], acts[j], key)
    ensures i == j
  {
    if i < j {
      NoLaterRedemption(run, acts, key, i, j);
    } else if j < i {
      NoLaterRedemption(run, acts, key, j, i);
    }
  }

  /** After a redemption, any further redemption call on the code that runs before the code's
      expiry revokes the family for good; a call that runs later leaves the store alone. */
  lemma ReplayKillsFamily(run: seq<System>, acts: seq<Action>, key: Key, i: nat, j: nat, n: nat)
    requires IsRun(run, acts) && i < j < n <= |acts| && CommitsRedemption(run[i], acts[i], key)
    requires Enabled(run[j], acts[j]) && OpOf(run[j], acts[j]).Call?
    requires OpOf(run[j], acts[j]).op.RedeemCode? && OpOf(run[j], acts[j]).op.key == key
    ensures key in run[i].store.codes
    ensures var code := run[i].store.codes[key];
            if OpOf(run[j], acts[j]).op.now < code.expiresAt
            then code.family in run[n].store.grants && run[n].store.grants[code.family].status == Revoked
            else run[j + 1].store == run[j].store
  {
    RunStep(run, acts, i);
    RedemptionStoresFirstGrant(run[i], acts[i], key);
    CodesOnlyMoveForward(run, acts, i, j, key);
    CodesOnlyMoveForward(run, acts, i + 1, j, key);
    RunStep(run, acts, j);
    var op := OpOf(run[j], acts[j]).op;
    ReplayRevokesExactlyBeforeExpiry(run[j].store, key, op.now, op.grant);
    if op.now < run[i].store.codes[key].expiresAt {
      RevocationSticks(run, acts, j, n, run[i].store.codes[key].family);
    }
  }

  // ---- Refresh secrets that were rotated away ----

  lemma ReplayRevokes(s: System, a: Action)
    requires Inv(s) && Enabled(s, a) && a.RefreshReplay?
    ensures var f := s.procs[a.r].family;
            && f in s.store.grants && f in StoreAfter(s, a).grants
            && (StoreAfter(s, a).grants[f].status == Revoked || s.store.grants[f].status == Unset)
  {
    AtProc(s, a.r);
  }

  /** Section 10.4 of RFC 6749: once a request that presented a secret other than the current one
      has made its replay call, the family is revoked, and it stays so.  The grant was active when
      the request read it, so unlike a code's expiry the grant's cannot get in the way. */
  lemma RefreshReplayKillsFamily(run: seq<System>, acts: seq<Action>, i: nat, j: nat)
    requires IsRun(run, acts) && i < j <= |acts|
    requires Enabled(run[i], acts[i]) && acts[i].RefreshReplay?
    ensures var f := run[i].procs[acts[i].r].family;
            f in run[j].store.grants && run[j].store.grants[f].status == Revoked
  {
    var f := run[i].procs[acts[i].r].family;
    RunStep(run, acts, i);
    ReplayRevokes(run[i], acts[i]);
    GenuineIsNotBare(run[i]);
    GrantsOnlyMoveForward(run, acts, i + 1, j, f);
  }

  lemma ReadOf(s: System, a: Action)
    requires Enabled(s, a) && a.RefreshRead? && a.family in s.store.grants
    requires s.store.grants[a.family].hash != HashOf(a.secret)
    ensures var t := Apply(s, a);
            t.procs == if GrantIsActive(s.store.grants[a.family], a.now)
                       then s.procs[a.r := RefreshReplayed(a.family, a.secret, a.now)] else s.procs
  {
  }

  /** Presenting a secret that was rotated away never prepares a refresh: while the grant is active
      the request goes to its replay call, and otherwise it ends. */
  lemma RotatedSecretIsReplay(run: seq<System>, acts: seq<Action>, i: nat, j: nat)
    requires IsRun(run, acts) && i < j < |acts| && WinsRotation(run[i], acts[i]) && acts[j].RefreshRead?
    requires var p := Rotated(run[i], acts[i]); acts[j].family == p.family && HashOf(acts[j].secret) == p.record.hash
    ensures acts[j].family in run[j].store.grants
    ensures if GrantIsActive(run[j].store.grants[acts[j].family], acts[j].now)
            then run[j + 1].procs == run[j].procs[acts[j].r := RefreshReplayed(acts[j].family, acts[j].secret, acts[j].now)]
            else run[j + 1].procs == run[j].procs
  {
    RotatedSecretIsDead(run, acts, i, j);
    RunStep(run, acts, j);
    ReadOf(run[j], acts[j]);
  }

  /** Section 2.2 of RFC 7009 is about the token presented: a revocation that read the grant while
      its secret was current revokes nothing if the secret is rotated away before it commits. */
  lemma RotatedSecretRevokesNothing(run: seq<System>, acts: seq<Action>, i: nat, j: nat)
    requires IsRun(run, acts) && i < j < |acts| && WinsRotation(run[i], acts[i])
    requires Enabled(run[j], acts[j]) && acts[j].RevokeCommit?
    requires var p, pc := Rotated(run[i], acts[i]), run[j].procs[acts[j].r];
             pc.family == p.family && HashOf(pc.presented) == p.record.hash
    ensures ReplyOf(run[j], acts[j]) == NotRevoked && run[j + 1].store == run[j].store
  {
    RotatedSecretIsDead(run, acts, i, j);
    RunStep(run, acts, j);
  }

  // ---- Where a grant comes from ----

  lemma {:induction false} TtlIsFixed(run: seq<System>, acts: seq<Action>, i: nat)
    requires IsRun(run, acts) && i < |run|
    ensures run[i].ttl == run[0].ttl
  {
    if i > 0 {
      TtlIsFixed(run, acts, i - 1);
      RunStep(run, acts, i - 1);
    }
  }

  /** The step that first stores a grant is the redemption of a code of its family. */
  lemma FirstStored(run: seq<System>, acts: seq<Action>, f: Family, i: nat) returns (key: Key)
    requires IsRun(run, acts) && i < |acts| && f !in run[i].store.grants && f in run[i + 1].store.grants
    ensures CommitsRedemption(run[i], acts[i], key)
    ensures key in run[i].store.codes && run[i].store.codes[key].family == f
  {
    var s, a := run[i], acts[i];
    RunStep(run, acts, i);
    key := OriginKey(s, a, f);
  }

  lemma OriginKey(s: System, a: Action, f: Family) returns (key: Key)
    requires Inv(s) && Enabled(s, a) && f !in s.store.grants && f in StoreAfter(s, a).grants
    ensures CommitsRedemption(s, a, key) && key in s.store.codes && s.store.codes[key].family == f
  {
    InvGivesActorSound(s, a);
    GrantOrigin(s, a, f);
    key := s.procs[a.r].key;
  }

  /** Every stored grant goes back to one committed redemption. */
  lemma {:induction false} GrantHasRedemption(run: seq<System>, acts: seq<Action>, f: Family, j: nat)
    returns (i: nat, key: Key)
    requires IsRun(run, acts) && j <= |acts| && f in run[j].store.grants
    ensures i < j && CommitsRedemption(run[i], acts[i], key)
    ensures key in run[i].store.codes && run[i].store.codes[key].family == f
  {
    if j == 0 {
      assert false;
    } else if f in run[j - 1].store.grants {
      i, key := GrantHasRedemption(run, acts, f, j - 1);
    } else {
      i := j - 1;
      key := FirstStored(run, acts, f, i);
    }
  }
}
