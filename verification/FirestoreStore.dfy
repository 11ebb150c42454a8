/** The production store, internal/authsrv/firestore_store.go: each operation is a transaction
    closure that Firestore may run any number of times, and whose writes apply only if what it
    read is unchanged when it commits.  The results say that this store is linearizable to the
    mutex store. */
module FirestoreStore {
  import opened GrantStore

  type Request = nat

  // ---- Documents ----

  datatype Doc<T> = Missing | Present(rec: T)

  datatype Read = CodeDoc(key: Key, code: Doc<CodeRecord>) | GrantDoc(family: Family, grant: Doc<GrantRecord>)

  datatype Write =
    | MarkCodeUsed(key: Key, now: Time)
    | CreateGrant(family: Family, rec: GrantRecord)
    | MergeRevoked(family: Family, now: Time)
    | UpdateRevoked(family: Family, now: Time)
    | SetGrant(family: Family, rec: GrantRecord)

  function LookupCode(st: Store, key: Key): Doc<CodeRecord> {
    if key in st.codes then Present(st.codes[key]) else Missing
  }

  function LookupGrant(st: Store, family: Family): Doc<GrantRecord> {
    if family in st.grants then Present(st.grants[family]) else Missing
  }

  /** The one document each transaction reads. */
  function ReadFor(st: Store, op: Op): Read
    requires !op.PutCode?
  {
    match op
    case RedeemCode(key, _, _) => CodeDoc(key, LookupCode(st, key))
    case RotateGrant(family, _, _, _) => GrantDoc(family, LookupGrant(st, family))
    case RevokeGrant(family, _) => GrantDoc(family, LookupGrant(st, family))
    case RevokeGrantIfSecret(family, _, _) => GrantDoc(family, LookupGrant(st, family))
  }

  /** Whether the server accepts a write: create needs the document to be absent, update needs
      it to be there, set and merge need nothing. */
  predicate Admissible(st: Store, w: Write) {
    match w
    case MarkCodeUsed(key, _) => key in st.codes
    case CreateGrant(family, _) => family !in st.grants
    case UpdateRevoked(family, _) => family in st.grants
    case MergeRevoked(_, _) => true
    case SetGrant(_, _) => true
  }

  /** A merge on a missing document creates one that decodes to zero values elsewhere. */
  function Write1(st: Store, w: Write): Store
    requires Admissible(st, w)
  {
    match w
    case MarkCodeUsed(key, now) =>
      st.(codes := st.codes[key := st.codes[key].(status := Used, usedAt := now)])
    case CreateGrant(family, rec) => st.(grants := st.grants[family := rec])
    case MergeRevoked(family, now) =>
      var base := if family in st.grants then st.grants[family] else ZERO_GRANT;
      st.(grants := st.grants[family := base.(status := Revoked, updatedAt := now)])
    case UpdateRevoked(family, now) =>
      st.(grants := st.grants[family := st.grants[family].(status := Revoked, updatedAt := now)])
    case SetGrant(family, rec) => st.(grants := st.grants[family := rec])
  }

  predicate AllAdmissible(st: Store, ws: seq<Write>)
    decreases |ws|
  {
    ws == [] || (Admissible(st, ws[0]) && AllAdmissible(Write1(st, ws[0]), ws[1..]))
  }

  function WriteAll(st: Store, ws: seq<Write>): Store
    requires AllAdmissible(st, ws)
    decreases |ws|
  {
    if ws == [] then st else WriteAll(Write1(st, ws[0]), ws[1..])
  }

  // ---- The closures ----

  /** A closure returns an error, or nil with buffered writes; `flag` is the captured `replayed`
      or `revoked` variable as the attempt leaves it. */
  datatype Attempt = Rejected(err: Reply, flag: bool) | Buffered(writes: seq<Write>, flag: bool)

  /** One run of the transaction closure.  `before` is what earlier attempts left in the captured
      variable; every closure that has one clears it first. */
  function RunClosure(op: Op, read: Read, before: bool): Attempt
    requires !op.PutCode? && (op.RedeemCode? <==> read.CodeDoc?)
  {
    match op
    case RedeemCode(key, now, grant) =>
      if read.code.Missing? then Rejected(NotFound, false)
      else
        var rec := read.code.rec;
        var decision := CodeRedemptionDecision(rec, now);
        if decision == CodeReplay then Buffered([MergeRevoked(rec.family, now)], true)
        else if decision != Ok then Rejected(decision, false)
        else Buffered([MarkCodeUsed(key, now), CreateGrant(rec.family, grant)], false)
    case RotateGrant(family, expected, next, now) =>
      if read.grant.Missing? then Rejected(GrantInactive, false)
      else
        var decision := GrantRotationDecision(read.grant.rec, expected, now);
        if decision == GrantReplay then Buffered([UpdateRevoked(family, now)], true)
        else if decision != Ok then Rejected(decision, false)
        else Buffered([SetGrant(family, next)], false)
    case RevokeGrant(family, now) =>
      if read.grant.Missing? then Buffered([], before) else Buffered([UpdateRevoked(family, now)], before)
    case RevokeGrantIfSecret(family, expected, now) =>
      if read.grant.Missing? || !GrantRevokePossessed(read.grant.rec, expected) then Buffered([], false)
      else Buffered([UpdateRevoked(family, now)], true)
  }

  /** What the operation returns once its transaction has committed. */
  function CommittedReply(op: Op, flag: bool): Reply {
    match op
    case PutCode(_, _) => Ok
    case RedeemCode(_, _, _) => if flag then CodeReplay else Ok
    case RotateGrant(_, _, _, _) => if flag then GrantReplay else Ok
    case RevokeGrant(_, _) => Ok
    case RevokeGrantIfSecret(_, _, _) => if flag then Ok else NotRevoked
  }

  // ---- Concurrent transactions ----

  datatype Tx =
    | Waiting(op: Op, flag: bool)                       // before an attempt; flag as the last one left it
    | Attempted(op: Op, read: Read, attempt: Attempt)   // the closure buffered its writes

  datatype Firestore = Firestore(docs: Store, txs: map<Request, Tx>)

  datatype Action =
    | Create(op: Op)                  // PutCode: one document create, no transaction
    | Begin(r: Request, op: Op)
    | Attempting(r: Request)
    | Commit(r: Request)
    | Conflict(r: Request)            // the server aborts the attempt; it will be run again
    | GiveUp(r: Request)              // retries exhausted or the caller left; nothing committed

  /** The commit the server performs only when the read is still current. */
  predicate Current(fs: Firestore, tx: Tx)
    requires tx.Attempted? && !tx.op.PutCode?
  {
    tx.read == ReadFor(fs.docs, tx.op)
  }

  ghost predicate Enabled(fs: Firestore, a: Action) {
    match a
    case Create(op) => op.PutCode? && FreshCode(fs.docs, op)
    case Begin(r, op) => r !in fs.txs && !op.PutCode?
    case Attempting(r) => r in fs.txs && fs.txs[r].Waiting? && !fs.txs[r].op.PutCode?
    case Commit(r) =>
      && r in fs.txs && fs.txs[r].Attempted? && !fs.txs[r].op.PutCode? && fs.txs[r].attempt.Buffered?
      && Current(fs, fs.txs[r])
    case Conflict(r) => r in fs.txs && fs.txs[r].Attempted?
    case GiveUp(r) => r in fs.txs
  }

  datatype Answer = Silent | Answers(op: Op, reply: Reply) | Refused(op: Op)

  /** What a step returns to its caller.  `Refused` is a failed create precondition at commit. */
  ghost function AnswerOf(fs: Firestore, a: Action): Answer
    requires Enabled(fs, a)
  {
    match a
    case Create(op) => Answers(op, if op.key in fs.docs.codes then Duplicate else Ok)
    case Attempting(r) =>
      var tx := fs.txs[r];
      var attempt := RunClosure(tx.op, ReadFor(fs.docs, tx.op), tx.flag);
      if attempt.Rejected? then Answers(tx.op, attempt.err) else Silent
    case Commit(r) =>
      var tx := fs.txs[r];
      if AllAdmissible(fs.docs, tx.attempt.writes) then Answers(tx.op, CommittedReply(tx.op, tx.attempt.flag))
      else Refused(tx.op)
    case _ => Silent
  }

  ghost function Apply(fs: Firestore, a: Action): Firestore
    requires Enabled(fs, a)
  {
    match a
    case Create(op) =>
      if op.key in fs.docs.codes then fs
      else fs.(docs := fs.docs.(codes := fs.docs.codes[op.key := op.code]))
    case Begin(r, op) => fs.(txs := fs.txs[r := Waiting(op, false)])
    case Attempting(r) =>
      var tx := fs.txs[r];
      var read := ReadFor(fs.docs, tx.op);
      var attempt := RunClosure(tx.op, read, tx.flag);
      if attempt.Rejected? then fs.(txs := fs.txs - {r})
      else fs.(txs := fs.txs[r := Attempted(tx.op, read, attempt)])
    case Commit(r) =>
      var tx := fs.txs[r];
      var docs := if AllAdmissible(fs.docs, tx.attempt.writes) then WriteAll(fs.docs, tx.attempt.writes) else fs.docs;
      Firestore(docs, fs.txs - {r})
    case Conflict(r) => fs.(txs := fs.txs[r := Waiting(fs.txs[r].op, fs.txs[r].attempt.flag)])
    case GiveUp(r) => fs.(txs := fs.txs - {r})
  }

  // ---- Refinement ----

  /** A buffered attempt is what its closure makes of its read, whatever came before. */
  ghost predicate Faithful(tx: Tx) {
    tx.Attempted? ==>
      && !tx.op.PutCode? && (tx.op.RedeemCode? <==> tx.read.CodeDoc?)
      && exists before :: tx.attempt == RunClosure(tx.op, tx.read, before)
  }

  ghost predicate Inv(fs: Firestore) {
    Consistent(fs.docs) && forall r <- fs.txs :: Faithful(fs.txs[r])
  }

  /** The answer depends on the last attempt alone: not on what aborted attempts left behind. */
  lemma FlagsDoNotLeak(op: Op, read: Read, before: bool, before': bool)
    requires !op.PutCode? && (op.RedeemCode? <==> read.CodeDoc?)
    ensures var a, b := RunClosure(op, read, before), RunClosure(op, read, before');
            && (a.Rejected? <==> b.Rejected?)
            && (a.Rejected? ==> a.err == b.err)
            && (a.Buffered? ==> a.writes == b.writes && CommittedReply(op, a.flag) == CommittedReply(op, b.flag))
  {
  }

  /** An attempt whose read is current does exactly what the mutex store would do now: an error
      changes nothing, and buffered writes are admissible (a create never meets an existing
      grant, a merge never creates one) and have the same effect and the same reply. */
  lemma AttemptIsAtomic(st: Store, op: Op, before: bool)
    requires Consistent(st) && !op.PutCode?
    ensures var attempt := RunClosure(op, ReadFor(st, op), before);
            if attempt.Rejected? then Exec(st, op) == Outcome(st, attempt.err)
            else
              && AllAdmissible(st, attempt.writes)
              && Exec(st, op) == Outcome(WriteAll(st, attempt.writes), CommittedReply(op, attempt.flag))
  {
    hide RunClosure, Exec, AllAdmissible, WriteAll, CommittedReply;
    FirstAttemptIsAtomic(st, op);
    FlagsDoNotLeak(op, ReadFor(st, op), false, before);
  }

  /** The same for an attempt that nothing came before. */
  lemma FirstAttemptIsAtomic(st: Store, op: Op)
    requires Consistent(st) && !op.PutCode?
    ensures var attempt := RunClosure(op, ReadFor(st, op), false);
            if attempt.Rejected? then Exec(st, op) == Outcome(st, attempt.err)
            else
              && AllAdmissible(st, attempt.writes)
              && Exec(st, op) == Outcome(WriteAll(st, attempt.writes), CommittedReply(op, attempt.flag))
  {
    var attempt := RunClosure(op, ReadFor(st, op), false);
    if attempt.Buffered? && |attempt.writes| > 0 {
      var st' := Write1(st, attempt.writes[0]);
      if |attempt.writes| == 2 {
        var rest := attempt.writes[1..];
        assert rest[1..] == [];
        assert AllAdmissible(st', rest);
        assert WriteAll(st', rest) == Write1(st', rest[0]);
      } else {
        assert attempt.writes[1..] == [];
      }
    }
  }

  /** Every step that answers is one atomic call on the mutex store, with the same reply; every
      other step leaves the documents alone; no commit is ever refused. */
  lemma StepRefinesMutexStore(fs: Firestore, a: Action)
    requires Inv(fs) && Enabled(fs, a)
    ensures var answer := AnswerOf(fs, a);
            && !answer.Refused?
            && (answer.Silent? ==> Apply(fs, a).docs == fs.docs)
            && (answer.Answers? ==> Outcome(Apply(fs, a).docs, answer.reply) == Exec(fs.docs, answer.op))
    ensures Inv(Apply(fs, a))
  {
    match a {
      case Attempting(r) =>
        AttemptIsAtomic(fs.docs, fs.txs[r].op, fs.txs[r].flag);
      case Commit(r) =>
        var tx := fs.txs[r];
        assert Faithful(tx);
        var before :| tx.attempt == RunClosure(tx.op, tx.read, before);
        AttemptIsAtomic(fs.docs, tx.op, before);
        ExecKeepsConsistent(fs.docs, tx.op);
      case Create(op) =>
        ExecKeepsConsistent(fs.docs, op);
      case _ =>
    }
  }

  // ---- Whole runs ----

  ghost predicate IsRun(run: seq<Firestore>, acts: seq<Action>) {
    && |run| == |acts| + 1
    && run[0] == Firestore(Store(map[], map[]), map[])
    && forall i {:trigger acts[i]} | 0 <= i < |acts| ::
         Enabled(run[i], acts[i]) && run[i + 1] == Apply(run[i], acts[i])
  }

  /** The answers given in the first n steps, in order. */
  ghost function Answered(run: seq<Firestore>, acts: seq<Action>, n: nat): seq<Answer>
    requires IsRun(run, acts) && n <= |acts|
  {
    if n == 0 then []
    else
      assert Enabled(run[n - 1], acts[n - 1]);
      var answer := AnswerOf(run[n - 1], acts[n - 1]);
      Answered(run, acts, n - 1) + if answer.Silent? then [] else [answer]
  }

  /** Running calls one after the other on the mutex store, checking each reply. */
  ghost predicate MutexRun(answers: seq<Answer>, final: Store)
    decreases |answers|
  {
    if answers == [] then final == Store(map[], map[])
    else
      var last := answers[|answers| - 1];
      last.Answers? && exists st :: MutexRun(answers[..|answers| - 1], st) && Exec(st, last.op) == Outcome(final, last.reply)
  }

  /** Linearizability: for any number of concurrent transactions, aborted attempts and abandoned
      calls, the answers given so far are those of the mutex store executing the answered calls
      one at a time in that order, and the documents are that store's contents. */
  lemma {:induction false} Linearizable(run: seq<Firestore>, acts: seq<Action>, n: nat)
    requires IsRun(run, acts) && n <= |acts|
    ensures Inv(run[n])
    ensures MutexRun(Answered(run, acts, n), run[n].docs)
  {
    if n > 0 {
      Linearizable(run, acts, n - 1);
      assert Enabled(run[n - 1], acts[n - 1]);
      StepRefinesMutexStore(run[n - 1], acts[n - 1]);
      var answer := AnswerOf(run[n - 1], acts[n - 1]);
      var before, now := Answered(run, acts, n - 1), Answered(run, acts, n);
      if answer.Silent? {
        assert now == before;
      } else {
        assert now[..|now| - 1] == before && now[|now| - 1] == answer;
        var st, final := run[n - 1].docs, run[n].docs;
        assert MutexRun(now[..|now| - 1], st) && Exec(st, answer.op) == Outcome(final, answer.reply);
      }
    }
  }

  /** The difference the invariant hides: on contents no run reaches, the two stores part. */
  lemma DifferencesAreOffTheReachableStates(rec: CodeRecord, now: Time, stale: GrantRecord, grant: GrantRecord)
    requires now < rec.expiresAt
    ensures var st := Store(map[0 := rec.(status := Active)], map[rec.family := stale]);
            var op := RedeemCode(0, now, grant);
            && !Consistent(st)
            && Exec(st, op).reply == Ok
            && RunClosure(op, ReadFor(st, op), false).Buffered?
            && !AllAdmissible(st, RunClosure(op, ReadFor(st, op), false).writes)
    ensures var st := Store(map[0 := rec.(status := Used)], map[]);
            var op := RedeemCode(0, now, grant);
            var attempt := RunClosure(op, ReadFor(st, op), false);
            && !Consistent(st)
            && attempt.Buffered? && AllAdmissible(st, attempt.writes)
            && rec.family !in Exec(st, op).store.grants && rec.family in WriteAll(st, attempt.writes).grants
  {
    var st := Store(map[0 := rec.(status := Active)], map[rec.family := stale]);
    assert st.codes[0].status == Active && 0 in st.codes;
    var st' := Write1(st, MarkCodeUsed(0, now));
    assert [MarkCodeUsed(0, now), CreateGrant(rec.family, grant)][1..] == [CreateGrant(rec.family, grant)];
    var st2 := Store(map[0 := rec.(status := Used)], map[]);
    assert st2.codes[0].status == Used && 0 in st2.codes;
    assert [MergeRevoked(rec.family, now)][1..] == [];
  }
}
