/** Authorization states in the production store, internal/authsrv/firestore_store.go: a create, and
    a transaction that marks a state used.  Whatever attempts are aborted and retried, a state is
    used at most once, and the store answers as the mutex store does. */
module FirestoreStates {
  import opened GrantStore

  type Request = nat
  type States = map<Key, StateRecord>

  datatype Doc = Missing | Present(rec: StateRecord)

  function Lookup(docs: States, key: Key): Doc {
    if key in docs then Present(docs[key]) else Missing
  }

  /** What the closure makes of the document it reads. */
  function ClosureReply(read: Doc, now: Time): Reply {
    if read.Missing? then NotFound
    else if now >= read.rec.expiresAt then Expired
    else if read.rec.status != Active then StateReplay
    else Ok
  }

  /** `Attempted` has buffered its update. */
  datatype Tx = Waiting(key: Key, now: Time) | Attempted(key: Key, now: Time, read: Doc)

  datatype Firestore = Firestore(docs: States, txs: map<Request, Tx>)

  datatype Action =
    | Create(key: Key, rec: StateRecord)   // PutAuthorizationState: one document create
    | Begin(r: Request, key: Key, now: Time)
    | Attempting(r: Request)
    | Commit(r: Request)
    | Conflict(r: Request)                 // the server aborts the attempt; it will be run again
    | GiveUp(r: Request)

  predicate Enabled(fs: Firestore, a: Action) {
    match a
    case Create(_, _) => true
    case Begin(r, _, _) => r !in fs.txs
    case Attempting(r) => r in fs.txs && fs.txs[r].Waiting?
    case Commit(r) => r in fs.txs && fs.txs[r].Attempted? && fs.txs[r].read == Lookup(fs.docs, fs.txs[r].key)
    case Conflict(r) => r in fs.txs && fs.txs[r].Attempted?
    case GiveUp(r) => r in fs.txs
  }

  /** The update a commit applies needs its document to be there. */
  function Committed(docs: States, tx: Tx): States
    requires tx.Attempted?
  {
    if tx.key in docs then docs[tx.key := MarkUsed(docs[tx.key], tx.now)] else docs
  }

  function Apply(fs: Firestore, a: Action): Firestore
    requires Enabled(fs, a)
  {
    match a
    case Create(key, rec) => if key in fs.docs then fs else fs.(docs := fs.docs[key := rec])
    case Begin(r, key, now) => fs.(txs := fs.txs[r := Waiting(key, now)])
    case Attempting(r) =>
      var tx := fs.txs[r];
      var read := Lookup(fs.docs, tx.key);
      if ClosureReply(read, tx.now) == Ok then fs.(txs := fs.txs[r := Attempted(tx.key, tx.now, read)])
      else fs.(txs := fs.txs - {r})
    case Commit(r) => Firestore(Committed(fs.docs, fs.txs[r]), fs.txs - {r})
    case Conflict(r) => fs.(txs := fs.txs[r := Waiting(fs.txs[r].key, fs.txs[r].now)])
    case GiveUp(r) => fs.(txs := fs.txs - {r})
  }

  /** What a step returns to the caller of UseAuthorizationState. */
  datatype Answer = Silent | Answers(key: Key, now: Time, reply: Reply)

  function AnswerOf(fs: Firestore, a: Action): Answer
    requires Enabled(fs, a)
  {
    match a
    case Attempting(r) =>
      var tx := fs.txs[r];
      var reply := ClosureReply(Lookup(fs.docs, tx.key), tx.now);
      if reply == Ok then Silent else Answers(tx.key, tx.now, reply)
    case Commit(r) => Answers(fs.txs[r].key, fs.txs[r].now, Ok)
    case _ => Silent
  }

  ghost predicate Inv(fs: Firestore) {
    forall r <- fs.txs :: fs.txs[r].Attempted? ==> ClosureReply(fs.txs[r].read, fs.txs[r].now) == Ok
  }

  /** A step that answers is one call on the mutex store, with its reply and its effect; any other
      step but a create leaves the documents alone, and a create never overwrites one. */
  lemma StepRefinesMutexStore(fs: Firestore, a: Action)
    requires Inv(fs) && Enabled(fs, a)
    ensures Inv(Apply(fs, a))
    ensures match AnswerOf(fs, a)
            case Answers(key, now, reply) =>
              reply == StateUseDecision(fs.docs, key, now) && Apply(fs, a).docs == StatesAfterUse(fs.docs, key, now)
            case Silent =>
              if a.Create? && a.key !in fs.docs then Apply(fs, a).docs == fs.docs[a.key := a.rec]
              else Apply(fs, a).docs == fs.docs
  {
  }

  // ---- Whole runs ----

  ghost predicate IsRun(run: seq<Firestore>, acts: seq<Action>) {
    && |run| == |acts| + 1
    && run[0] == Firestore(map[], map[])
    && forall i {:trigger acts[i]} | 0 <= i < |acts| ::
         Enabled(run[i], acts[i]) && run[i + 1] == Apply(run[i], acts[i])
  }

  lemma {:induction false} RunInv(run: seq<Firestore>, acts: seq<Action>, i: nat)
    requires IsRun(run, acts) && i < |run|
    ensures Inv(run[i])
  {
    if i > 0 {
      RunInv(run, acts, i - 1);
      assert Enabled(run[i - 1], acts[i - 1]);
      StepRefinesMutexStore(run[i - 1], acts[i - 1]);
    }
  }

  /** The step tells its caller that the state was used by this call. */
  predicate Uses(fs: Firestore, a: Action, key: Key) {
    Enabled(fs, a) && AnswerOf(fs, a).Answers? && AnswerOf(fs, a).key == key && AnswerOf(fs, a).reply == Ok
  }

  lemma {:induction false} StaysUsed(run: seq<Firestore>, acts: seq<Action>, i: nat, j: nat, key: Key)
    requires IsRun(run, acts) && i <= j < |run|
    requires key in run[i].docs && run[i].docs[key].status == Used
    ensures key in run[j].docs && run[j].docs[key].status == Used
  {
    if i < j {
      StaysUsed(run, acts, i, j - 1, key);
      assert Enabled(run[j - 1], acts[j - 1]);
      RunInv(run, acts, j - 1);
      StepRefinesMutexStore(run[j - 1], acts[j - 1]);
    }
  }

  lemma NotUsedAgain(run: seq<Firestore>, acts: seq<Action>, i: nat, j: nat, key: Key)
    requires IsRun(run, acts) && i < j < |acts| && Uses(run[i], acts[i], key)
    ensures !Uses(run[j], acts[j], key)
  {
    assert Enabled(run[i], acts[i]);
    assert Enabled(run[j], acts[j]);
    RunInv(run, acts, i);
    RunInv(run, acts, j);
    StepRefinesMutexStore(run[i], acts[i]);
    StaysUsed(run, acts, i + 1, j, key);
    StepRefinesMutexStore(run[j], acts[j]);
  }

  /** An authorization state completes at most one callback, for any number of concurrent requests
      and retries. */
  lemma StateUsedOnce(run: seq<Firestore>, acts: seq<Action>, i: nat, j: nat, key: Key)
    requires IsRun(run, acts) && i < |acts| && j < |acts|
    requires Uses(run[i], acts[i], key) && Uses(run[j], acts[j], key)
    ensures i == j
  {
    if i < j {
      NotUsedAgain(run, acts, i, j, key);
    } else if j < i {
      NotUsedAgain(run, acts, j, i, key);
    }
  }
}
