/** The OAuth state store of internal/authsrv: its records, its transition rules and its
    mutex-guarded in-memory implementation.

    Keys, family identifiers and secrets are only ever compared for equality, so they are
    numbers here.  `HashOf` stands for SHA-256 and is injective by construction; `NoHash` is
    the empty string of the zero grant record.  Times are nanoseconds. */
module GrantStore {

  type Key = nat
  type Family = nat
  type Secret = nat
  type Time = int

  datatype Hash = NoHash | HashOf(secret: Secret)

  datatype Status = Unset | Active | Used | Revoked

  /** What a sealed blob carries: the account, client and scopes (`identity`), which no
      operation rewrites, and Google's credentials. */
  datatype CodeClaims = CodeClaims(identity: nat, googleExpiry: int, googleRefresh: nat)
  datatype GrantClaims = GrantClaims(identity: nat, googleRefresh: nat)

  datatype StateRecord = StateRecord(claims: nat, status: Status, expiresAt: Time, usedAt: Time)
  datatype CodeRecord =
    CodeRecord(claims: CodeClaims, status: Status, family: Family, expiresAt: Time, usedAt: Time)
  datatype GrantRecord =
    GrantRecord(claims: GrantClaims, hash: Hash, generation: int, status: Status,
                expiresAt: Time, updatedAt: Time)

  /** The `grantRecord{}` that the two replay paths hand to the store. */
  const ZERO_GRANT := GrantRecord(GrantClaims(0, 0), NoHash, 0, Unset, 0, 0)

  datatype Reply =
    | Ok
    | NotFound
    | Expired
    | StateReplay
    | CodeReplay
    | GrantReplay
    | GrantInactive
    | Duplicate
    | NotRevoked  // RevokeGrantIfSecret returning false

  // ---- Transition rules ----

  predicate GrantIsActive(rec: GrantRecord, now: Time) {
    rec.status == Active && now < rec.expiresAt
  }

  function CodeRedemptionDecision(rec: CodeRecord, now: Time): Reply {
    if now >= rec.expiresAt then NotFound
    else if rec.status != Active then CodeReplay
    else Ok
  }

  function GrantRotationDecision(rec: GrantRecord, expected: Hash, now: Time): Reply {
    if !GrantIsActive(rec, now) then GrantInactive
    else if rec.hash != expected then GrantReplay
    else Ok
  }

  function RevokeGrantRecord(rec: GrantRecord, now: Time): GrantRecord {
    rec.(status := Revoked, updatedAt := now)
  }

  predicate GrantRevokePossessed(rec: GrantRecord, expected: Hash) {
    rec.hash == expected
  }

  // ---- The store's operations as functions on its contents ----

  datatype Store = Store(codes: map<Key, CodeRecord>, grants: map<Family, GrantRecord>)

  datatype Op =
    | PutCode(key: Key, code: CodeRecord)
    | RedeemCode(key: Key, now: Time, grant: GrantRecord)
    | RotateGrant(family: Family, expected: Hash, next: GrantRecord, now: Time)
    | RevokeGrant(family: Family, now: Time)
    | RevokeGrantIfSecret(family: Family, expected: Hash, now: Time)

  datatype Outcome = Outcome(store: Store, reply: Reply)

  function RevokeIn(st: Store, family: Family, now: Time): Store {
    if family in st.grants
    then st.(grants := st.grants[family := RevokeGrantRecord(st.grants[family], now)])
    else st
  }

  /** One store call under the mutex: the new contents and the returned error. */
  function Exec(st: Store, op: Op): Outcome {
    match op
    case PutCode(key, code) =>
      if key in st.codes then Outcome(st, Duplicate)
      else Outcome(st.(codes := st.codes[key := code]), Ok)
    case RedeemCode(key, now, grant) =>
      if key !in st.codes then Outcome(st, NotFound)
      else
        var rec := st.codes[key];
        var decision := CodeRedemptionDecision(rec, now);
        if decision == CodeReplay then Outcome(RevokeIn(st, rec.family, now), CodeReplay)
        else if decision != Ok then Outcome(st, decision)
        else Outcome(Store(st.codes[key := rec.(status := Used, usedAt := now)],
                           st.grants[rec.family := grant]), Ok)
    case RotateGrant(family, expected, next, now) =>
      if family !in st.grants then Outcome(st, GrantInactive)
      else
        var decision := GrantRotationDecision(st.grants[family], expected, now);
        if decision == GrantReplay then Outcome(RevokeIn(st, family, now), GrantReplay)
        else if decision != Ok then Outcome(st, decision)
        else Outcome(st.(grants := st.grants[family := next]), Ok)
    case RevokeGrant(family, now) =>
      Outcome(RevokeIn(st, family, now), Ok)
    case RevokeGrantIfSecret(family, expected, now) =>
      if family !in st.grants || !GrantRevokePossessed(st.grants[family], expected)
      then Outcome(st, NotRevoked)
      else Outcome(RevokeIn(st, family, now), Ok)
  }

  /** Why an authorization state cannot be used, or Ok. */
  function StateUseDecision(states: map<Key, StateRecord>, key: Key, now: Time): Reply {
    if key !in states then NotFound
    else if now >= states[key].expiresAt then Expired
    else if states[key].status != Active then StateReplay
    else Ok
  }

  function MarkUsed(rec: StateRecord, now: Time): StateRecord {
    rec.(status := Used, usedAt := now)
  }

  /** The states after a use that gets the given reply. */
  function StatesAfterUse(states: map<Key, StateRecord>, key: Key, now: Time): map<Key, StateRecord> {
    if StateUseDecision(states, key, now) == Ok then states[key := MarkUsed(states[key], now)] else states
  }

  // ---- What the operations promise ----

  /** Reachable contents: a code's status is active or used, codes do not share a family, and
      a family has a grant exactly when its code was redeemed. */
  ghost predicate Consistent(st: Store) {
    && (forall k <- st.codes :: st.codes[k].status == Active || st.codes[k].status == Used)
    && (forall k, l | k in st.codes && l in st.codes && k != l ::
          st.codes[k].family != st.codes[l].family)
    && (forall k <- st.codes :: st.codes[k].status == Used <==> st.codes[k].family in st.grants)
  }

  /** The callback handler draws the key and the family at random just before PutCode. */
  predicate FreshCode(st: Store, op: Op)
    requires op.PutCode?
  {
    && op.code.status == Active
    && op.code.family !in st.grants
    && (forall k <- st.codes :: st.codes[k].family != op.code.family)
  }

  lemma ExecKeepsConsistent(st: Store, op: Op)
    requires Consistent(st)
    requires op.PutCode? ==> FreshCode(st, op)
    ensures Consistent(Exec(st, op).store)
  {
    var st' := Exec(st, op).store;
    forall k <- st'.codes
      ensures st'.codes[k].status == Used <==> st'.codes[k].family in st'.grants
    {
      assert k in st.codes || (op.PutCode? && k == op.key);
    }
  }

  /** No single call reopens a used code or a revoked grant, moves a grant's expiry or identity
      or removes anything, whatever the caller passes, provided a rotation's next record was
      built from one that carries the current expiry and identity. */
  lemma ExecIsMonotone(st: Store, op: Op, key: Key, family: Family)
    requires Consistent(st)
    requires op.RotateGrant? && family == op.family && family in st.grants ==>
               op.next.expiresAt == st.grants[family].expiresAt
               && op.next.claims.identity == st.grants[family].claims.identity
    ensures var st' := Exec(st, op).store;
            && (key in st.codes ==>
                  && key in st'.codes
                  && st'.codes[key].(status := Active, usedAt := 0) == st.codes[key].(status := Active, usedAt := 0)
                  && (st.codes[key].status == Used ==> st'.codes[key] == st.codes[key]))
            && (family in st.grants ==>
                  && family in st'.grants
                  && st'.grants[family].expiresAt == st.grants[family].expiresAt
                  && st'.grants[family].claims.identity == st.grants[family].claims.identity
                  && (st.grants[family].status == Revoked ==> st'.grants[family].status == Revoked))
  {
    if op.RedeemCode? && op.key in st.codes && family == st.codes[op.key].family && family in st.grants {
      assert st.codes[op.key].status == Used;
    }
  }

  /** A second redemption that runs before the code's own expiry revokes the family; one that
      runs later is reported as not found and revokes nothing. */
  lemma ReplayRevokesExactlyBeforeExpiry(st: Store, key: Key, now: Time, grant: GrantRecord)
    requires Consistent(st) && key in st.codes && st.codes[key].status == Used
    ensures var family := st.codes[key].family;
            var out := Exec(st, RedeemCode(key, now, grant));
            && family in st.grants
            && (now < st.codes[key].expiresAt <==> out.reply == CodeReplay)
            && (out.reply == CodeReplay ==>
                  out.store == st.(grants := st.grants[family := RevokeGrantRecord(st.grants[family], now)]))
            && (out.reply != CodeReplay ==> out == Outcome(st, NotFound))
  {
  }

  /** A code that was put can be redeemed until it expires; the redemption stores the grant under
      the code's family, and its secret then rotates it until the grant expires. */
  lemma PutRedeemRotate(st: Store, key: Key, code: CodeRecord, grant: GrantRecord, next: GrantRecord, now: Time, later: Time)
    requires key !in st.codes && code.status == Active
    ensures var put := Exec(st, PutCode(key, code));
            && put == Outcome(Store(st.codes[key := code], st.grants), Ok)
            && if now < code.expiresAt then
                 var redeemed := Exec(put.store, RedeemCode(key, now, grant));
                 && redeemed == Outcome(Store(st.codes[key := code.(status := Used, usedAt := now)], st.grants[code.family := grant]), Ok)
                 && var rotated := Exec(redeemed.store, RotateGrant(code.family, grant.hash, next, later));
                    if grant.status == Active && later < grant.expiresAt
                    then rotated == Outcome(redeemed.store.(grants := st.grants[code.family := next]), Ok)
                    else rotated == Outcome(redeemed.store, GrantInactive)
               else Exec(put.store, RedeemCode(key, now, grant)) == Outcome(put.store, NotFound)
  {
    assert st.grants[code.family := grant][code.family := next] == st.grants[code.family := next];
  }

  /** Possession of the current secret revokes whatever the grant's status and expiry, so that an
      upstream revocation can be tried again on an expired or revoked family; any other secret
      leaves the grants alone and says so. */
  lemma CurrentSecretRevokes(st: Store, family: Family, secret: Secret, now: Time)
    ensures var out := Exec(st, RevokeGrantIfSecret(family, HashOf(secret), now));
            if family in st.grants && st.grants[family].hash == HashOf(secret)
            then out.reply == Ok && out.store.codes == st.codes
                 && out.store.grants == st.grants[family := st.grants[family].(status := Revoked, updatedAt := now)]
            else out == Outcome(st, NotRevoked)
    ensures var again := Exec(Exec(st, RevokeGrantIfSecret(family, HashOf(secret), now)).store, RevokeGrantIfSecret(family, HashOf(secret), now));
            again.reply == Exec(st, RevokeGrantIfSecret(family, HashOf(secret), now)).reply
  {
  }

  // ---- The in-memory implementation ----

  class MemoryStateStore {
    var states: map<Key, StateRecord>
    var codes: map<Key, CodeRecord>
    var grants: map<Family, GrantRecord>

    constructor ()
      ensures states == map[] && View() == Store(map[], map[])
    {
      states, codes, grants := map[], map[], map[];
    }

    ghost function View(): (st: Store)
      reads this
    {
      Store(codes, grants)
    }

    method PutAuthorizationState(key: Key, rec: StateRecord) returns (err: Reply)
      modifies this`states
      ensures err == Duplicate <==> key in old(states)
      ensures err == Duplicate || err == Ok
      ensures states == if err == Ok then old(states)[key := rec] else old(states)
    {
      if key in states {
        return Duplicate;
      }
      states := states[key := rec];
      return Ok;
    }

    /** Consumes an authorization state.  Success needs the state to be active and makes every
        later call on the same key fail. */
    method UseAuthorizationState(key: Key, now: Time) returns (rec: StateRecord, err: Reply)
      modifies this`states
      ensures err == Ok <==>
              key in old(states) && now < old(states)[key].expiresAt && old(states)[key].status == Active
      ensures err == NotFound <==> key !in old(states)
      ensures err == Expired <==> key in old(states) && now >= old(states)[key].expiresAt
      ensures err in {Ok, NotFound, Expired, StateReplay}
      ensures err == Ok ==> rec == MarkUsed(old(states)[key], now)
      ensures err == StateUseDecision(old(states), key, now) && states == StatesAfterUse(old(states), key, now)
    {
      rec := StateRecord(0, Unset, 0, 0);
      if key !in states {
        return rec, NotFound;
      }
      if now >= states[key].expiresAt {
        return rec, Expired;
      }
      if states[key].status != Active {
        return rec, StateReplay;
      }
      rec := states[key].(status := Used, usedAt := now);
      states := states[key := rec];
      return rec, Ok;
    }

    method PutCode(key: Key, rec: CodeRecord) returns (err: Reply)
      modifies this`codes
      ensures Outcome(View(), err) == Exec(old(View()), Op.PutCode(key, rec))
    {
      if key in codes {
        return Duplicate;
      }
      codes := codes[key := rec];
      return Ok;
    }

    method RedeemCode(key: Key, now: Time, grant: GrantRecord) returns (err: Reply)
      modifies this`codes, this`grants
      ensures Outcome(View(), err) == Exec(old(View()), Op.RedeemCode(key, now, grant))
    {
      if key !in codes {
        return NotFound;
      }
      var rec := codes[key];
      var decision := CodeRedemptionDecision(rec, now);
      if decision == CodeReplay {
        if rec.family in grants {
          grants := grants[rec.family := RevokeGrantRecord(grants[rec.family], now)];
        }
      }
      if decision != Ok {
        return decision;
      }
      rec := rec.(status := Used, usedAt := now);
      codes := codes[key := rec];
      grants := grants[rec.family := grant];
      return Ok;
    }

    method RotateGrant(family: Family, expected: Hash, next: GrantRecord, now: Time) returns (err: Reply)
      modifies this`grants
      ensures Outcome(View(), err) == Exec(old(View()), Op.RotateGrant(family, expected, next, now))
    {
      if family !in grants {
        return GrantInactive;
      }
      var rec := grants[family];
      var decision := GrantRotationDecision(rec, expected, now);
      if decision == GrantReplay {
        grants := grants[family := RevokeGrantRecord(rec, now)];
      }
      if decision != Ok {
        return decision;
      }
      grants := grants[family := next];
      return Ok;
    }

    method RevokeGrant(family: Family, now: Time)
      modifies this`grants
      ensures Outcome(View(), Ok) == Exec(old(View()), Op.RevokeGrant(family, now))
    {
      if family !in grants {
        return;
      }
      grants := grants[family := RevokeGrantRecord(grants[family], now)];
    }

    method RevokeGrantIfSecret(family: Family, expected: Hash, now: Time) returns (revoked: bool)
      modifies this`grants
      ensures Outcome(View(), if revoked then Ok else NotRevoked)
              == Exec(old(View()), Op.RevokeGrantIfSecret(family, expected, now))
    {
      if family !in grants || !GrantRevokePossessed(grants[family], expected) {
        return false;
      }
      grants := grants[family := RevokeGrantRecord(grants[family], now)];
      return true;
    }
  }
}
