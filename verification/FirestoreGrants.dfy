/** The grant lifecycle on the production store: the requests of GrantLifecycle with the
    transactions of FirestoreStore in place of the mutex store's calls.

    A store read is one atomic read of one document.  A request whose writing call has begun waits
    for it while others go on, and its transaction may be attempted any number of times.  The
    results say that every run is one of the mutex store's with the waiting left out, so that what
    GrantRuns proves holds of production. */
module FirestoreGrants {
  import opened GrantStore
  import F = FirestoreStore
  import L = GrantLifecycle
  import R = GrantRuns
  import T = GrantSessions

  /** A transaction in progress, for the step of the lifecycle that makes the call. */
  datatype Open = Open(action: L.Action, tx: F.Tx)

  /** The documents are the store of `sys`. */
  datatype Server = Server(sys: L.System, calls: map<nat, Open>)

  datatype Action =
    | Local(a: L.Action)          // a step without a transaction: no store call, a read, or a create
    | Begin(t: nat, a: L.Action)
    | Attempting(t: nat)
    | Commit(t: nat)
    | Conflict(t: nat)            // the server aborts the attempt; it will be run again
    | GiveUp(t: nat)              // retries exhausted: the request fails

  predicate InTransaction(s: L.System, a: L.Action) {
    L.Enabled(s, a) && L.OpOf(s, a).Call? && !a.IssueCode?
  }

  /** The request of this step is not waiting for a transaction. */
  ghost predicate IsFree(sv: Server, a: L.Action) {
    L.HasActor(a) ==> forall t <- sv.calls :: !(L.HasActor(sv.calls[t].action) && sv.calls[t].action.r == a.r)
  }

  /** Transaction t, begun by a step of the lifecycle that is still to be taken. */
  ghost predicate Waits(sv: Server, t: nat) {
    t in sv.calls && InTransaction(sv.sys, sv.calls[t].action)
  }

  ghost predicate Enabled(sv: Server, x: Action) {
    match x
    case Local(a) => L.Enabled(sv.sys, a) && !InTransaction(sv.sys, a) && IsFree(sv, a)
    case Begin(t, a) => t !in sv.calls && InTransaction(sv.sys, a) && IsFree(sv, a)
    case Attempting(t) => Waits(sv, t) && sv.calls[t].tx.Waiting? && !sv.calls[t].tx.op.PutCode?
    case Commit(t) =>
      && Waits(sv, t) && sv.calls[t].tx.Attempted? && sv.calls[t].tx.attempt.Buffered? && !sv.calls[t].tx.op.PutCode?
      && sv.calls[t].tx.read == F.ReadFor(sv.sys.store, sv.calls[t].tx.op)
    case Conflict(t) => t in sv.calls && sv.calls[t].tx.Attempted?
    case GiveUp(t) => Waits(sv, t)
  }

  function OpenTx(sv: Server, t: nat, tx: F.Tx): Server
    requires t in sv.calls
  {
    sv.(calls := sv.calls[t := sv.calls[t].(tx := tx)])
  }

  /** The call is answered: its request goes on with the reply, on the documents as they are then. */
  function Answered(sv: Server, t: nat, docs: Store, reply: Reply): Server
    requires t in sv.calls && L.Enabled(sv.sys, sv.calls[t].action)
  {
    Server(L.Continue(sv.sys, sv.calls[t].action, docs, reply), sv.calls - {t})
  }

  function Failed(sv: Server, t: nat): Server
    requires t in sv.calls && L.Enabled(sv.sys, sv.calls[t].action)
  {
    var a := sv.calls[t].action;
    Server(if L.HasActor(a) then L.Done(sv.sys, a.r) else sv.sys, sv.calls - {t})
  }

  ghost function Apply(sv: Server, x: Action): Server
    requires Enabled(sv, x)
  {
    match x
    case Local(a) => sv.(sys := L.Apply(sv.sys, a))
    case Begin(t, a) => sv.(calls := sv.calls[t := Open(a, F.Waiting(L.OpOf(sv.sys, a).op, false))])
    case Attempting(t) =>
      var tx := sv.calls[t].tx;
      var read := F.ReadFor(sv.sys.store, tx.op);
      var attempt := F.RunClosure(tx.op, read, tx.flag);
      if attempt.Rejected? then Answered(sv, t, sv.sys.store, attempt.err) else OpenTx(sv, t, F.Attempted(tx.op, read, attempt))
    case Commit(t) =>
      var tx := sv.calls[t].tx;
      if F.AllAdmissible(sv.sys.store, tx.attempt.writes)
      then Answered(sv, t, F.WriteAll(sv.sys.store, tx.attempt.writes), F.CommittedReply(tx.op, tx.attempt.flag))
      else Failed(sv, t)
    case Conflict(t) => OpenTx(sv, t, F.Waiting(sv.calls[t].tx.op, sv.calls[t].tx.attempt.flag))
    case GiveUp(t) => Failed(sv, t)
  }

  /** The step of the lifecycle that a step is, if it is one. */
  datatype Step = Silent | Takes(a: L.Action)

  ghost function StepOf(sv: Server, x: Action): Step
    requires Enabled(sv, x)
  {
    match x
    case Local(a) => Takes(a)
    case Attempting(t) =>
      var tx := sv.calls[t].tx;
      if F.RunClosure(tx.op, F.ReadFor(sv.sys.store, tx.op), tx.flag).Rejected? then Takes(sv.calls[t].action) else Silent
    case Commit(t) => Takes(sv.calls[t].action)
    case GiveUp(t) => if L.HasActor(sv.calls[t].action) then Takes(L.Fail(sv.calls[t].action.r)) else Silent
    case _ => Silent
  }

  // ---- Refinement ----

  ghost predicate CallSound(sv: Server, t: nat)
    requires t in sv.calls
  {
    var c := sv.calls[t];
    && InTransaction(sv.sys, c.action) && L.OpOf(sv.sys, c.action).op == c.tx.op && !c.tx.op.PutCode?
    && F.Faithful(c.tx)
  }

  ghost predicate Inv(sv: Server) {
    && L.Inv(sv.sys)
    && (forall t <- sv.calls :: CallSound(sv, t))
    && (forall t, u | t in sv.calls && u in sv.calls && t != u
          && L.HasActor(sv.calls[t].action) && L.HasActor(sv.calls[u].action) :: sv.calls[t].action.r != sv.calls[u].action.r)
  }

  lemma ProcStays(s: L.System, a: L.Action, q: L.Request)
    requires L.Enabled(s, a) && q in s.procs && (L.HasActor(a) ==> q != a.r)
    ensures q in L.Apply(s, a).procs && L.Apply(s, a).procs[q] == s.procs[q]
  {
  }

  /** A call that has begun is unaffected by the steps of other requests. */
  lemma CallStays(s: L.System, a: L.Action, b: L.Action)
    requires L.Enabled(s, a) && InTransaction(s, b)
    requires L.HasActor(a) && L.HasActor(b) ==> a.r != b.r
    ensures InTransaction(L.Apply(s, a), b) && L.OpOf(L.Apply(s, a), b) == L.OpOf(s, b)
  {
    L.ApplyStore(s, a);
    L.ApplyMints(s, a);
    if L.HasActor(b) {
      ProcStays(s, a, b.r);
    }
  }

  /** The other transactions after a step of the lifecycle. */
  lemma CallsStay(sv: Server, a: L.Action, next: Server)
    requires Inv(sv) && L.Enabled(sv.sys, a) && next.sys == L.Apply(sv.sys, a)
    requires forall t <- next.calls :: t in sv.calls && next.calls[t] == sv.calls[t]
    requires IsFree(next, a)
    ensures Inv(next)
  {
    L.StepKeepsInv(sv.sys, a);
    forall t <- next.calls ensures CallSound(next, t) {
      assert CallSound(sv, t);
      CallStays(sv.sys, a, sv.calls[t].action);
    }
  }

  /** The answer of a transaction is the step of the lifecycle on the mutex store. */
  lemma AnswerIsStep(sv: Server, t: nat, docs: Store, reply: Reply)
    requires t in sv.calls && CallSound(sv, t)
    requires Exec(sv.sys.store, sv.calls[t].tx.op) == Outcome(docs, reply)
    ensures Answered(sv, t, docs, reply).sys == L.Apply(sv.sys, sv.calls[t].action)
  {
  }

  lemma AttemptRefines(sv: Server, t: nat)
    requires Inv(sv) && Enabled(sv, Attempting(t))
    ensures var next := Apply(sv, Attempting(t));
            && Inv(next)
            && match StepOf(sv, Attempting(t))
               case Silent => next.sys == sv.sys
               case Takes(a) => L.Enabled(sv.sys, a) && next.sys == L.Apply(sv.sys, a)
  {
    var tx, next := sv.calls[t].tx, Apply(sv, Attempting(t));
    assert CallSound(sv, t);
    F.AttemptIsAtomic(sv.sys.store, tx.op, tx.flag);
    var attempt := F.RunClosure(tx.op, F.ReadFor(sv.sys.store, tx.op), tx.flag);
    if attempt.Rejected? {
      AnswerIsStep(sv, t, sv.sys.store, attempt.err);
      CallsStay(sv, sv.calls[t].action, next);
    } else {
      forall u <- next.calls ensures CallSound(next, u) {
        assert CallSound(sv, u);
      }
    }
  }

  lemma CommitRefines(sv: Server, t: nat)
    requires Inv(sv) && Enabled(sv, Commit(t))
    ensures var next := Apply(sv, Commit(t));
            && Inv(next)
            && L.Enabled(sv.sys, sv.calls[t].action) && next.sys == L.Apply(sv.sys, sv.calls[t].action)
  {
    var tx, next := sv.calls[t].tx, Apply(sv, Commit(t));
    assert CallSound(sv, t);
    var before :| tx.attempt == F.RunClosure(tx.op, tx.read, before);
    F.AttemptIsAtomic(sv.sys.store, tx.op, before);
    AnswerIsStep(sv, t, F.WriteAll(sv.sys.store, tx.attempt.writes), F.CommittedReply(tx.op, tx.attempt.flag));
    CallsStay(sv, sv.calls[t].action, next);
  }

  lemma GiveUpRefines(sv: Server, t: nat)
    requires Inv(sv) && Enabled(sv, GiveUp(t))
    ensures var next := Apply(sv, GiveUp(t));
            && Inv(next)
            && match StepOf(sv, GiveUp(t))
               case Silent => next.sys == sv.sys
               case Takes(a) => L.Enabled(sv.sys, a) && next.sys == L.Apply(sv.sys, a)
  {
    var next := Apply(sv, GiveUp(t));
    assert CallSound(sv, t);
    if L.HasActor(sv.calls[t].action) {
      CallsStay(sv, L.Fail(sv.calls[t].action.r), next);
    } else {
      CallsUntouched(sv, next);
    }
  }

  lemma WaitingKeepsInv(sv: Server, x: Action)
    requires Inv(sv) && Enabled(sv, x) && (x.Begin? || x.Conflict?)
    ensures Inv(Apply(sv, x)) && Apply(sv, x).sys == sv.sys
  {
    if x.Conflict? {
      assert CallSound(sv, x.t);
    }
    CallsUntouched(sv, Apply(sv, x));
  }

  /** Every step on the production store is a step of the lifecycle on the mutex store, or none. */
  lemma StepRefines(sv: Server, x: Action)
    requires Inv(sv) && Enabled(sv, x)
    ensures var next := Apply(sv, x);
            && Inv(next)
            && match StepOf(sv, x)
               case Silent => next.sys == sv.sys
               case Takes(a) => L.Enabled(sv.sys, a) && next.sys == L.Apply(sv.sys, a)
  {
    hide Inv;
    match x {
      case Local(a) => LocalRefines(sv, a);
      case Attempting(t) => AttemptRefines(sv, t);
      case Commit(t) => CommitRefines(sv, t);
      case GiveUp(t) => GiveUpRefines(sv, t);
      case _ => WaitingKeepsInv(sv, x);
    }
  }

  lemma LocalRefines(sv: Server, a: L.Action)
    requires Inv(sv) && Enabled(sv, Local(a))
    ensures Inv(Apply(sv, Local(a)))
  {
    CallsStay(sv, a, Apply(sv, Local(a)));
  }

  lemma CallsUntouched(sv: Server, next: Server)
    requires Inv(sv) && next.sys == sv.sys
    requires forall t <- next.calls :: (t in sv.calls && next.calls[t] == sv.calls[t]) || CallSound(next, t)
    requires forall t, u | t in next.calls && u in next.calls && t != u
               && L.HasActor(next.calls[t].action) && L.HasActor(next.calls[u].action) :: next.calls[t].action.r != next.calls[u].action.r
    ensures Inv(next)
  {
    forall t <- next.calls ensures CallSound(next, t) {
      if t in sv.calls && next.calls[t] == sv.calls[t] {
        assert CallSound(sv, t);
      }
    }
  }

  // ---- Whole runs ----

  ghost predicate IsRun(run: seq<Server>, acts: seq<Action>) {
    && |run| == |acts| + 1
    && L.Init(run[0].sys) && run[0].calls == map[]
    && forall i {:trigger acts[i]} | 0 <= i < |acts| ::
         Enabled(run[i], acts[i]) && run[i + 1] == Apply(run[i], acts[i])
  }

  lemma {:induction false} RunInv(run: seq<Server>, acts: seq<Action>, i: nat)
    requires IsRun(run, acts) && i < |run|
    ensures Inv(run[i])
  {
    if i == 0 {
      L.InitInv(run[0].sys);
    } else {
      RunInv(run, acts, i - 1);
      assert Enabled(run[i - 1], acts[i - 1]);
      StepRefines(run[i - 1], acts[i - 1]);
    }
  }

  /** The steps of the lifecycle among the first n. */
  ghost function Steps(run: seq<Server>, acts: seq<Action>, n: nat): seq<L.Action>
    requires IsRun(run, acts) && n <= |acts|
  {
    if n == 0 then []
    else
      assert Enabled(run[n - 1], acts[n - 1]);
      var step := StepOf(run[n - 1], acts[n - 1]);
      Steps(run, acts, n - 1) + if step.Takes? then [step.a] else []
  }

  /** The systems they go through. */
  ghost function Systems(run: seq<Server>, acts: seq<Action>, n: nat): seq<L.System>
    requires IsRun(run, acts) && n <= |acts|
  {
    if n == 0 then [run[0].sys]
    else
      assert Enabled(run[n - 1], acts[n - 1]);
      Systems(run, acts, n - 1) + if StepOf(run[n - 1], acts[n - 1]).Takes? then [run[n].sys] else []
  }

  /** The composition: what the requests and the documents go through on the production store is a
      run of the lifecycle on the mutex store. */
  lemma {:induction false} RunsOnMutexStore(run: seq<Server>, acts: seq<Action>, n: nat)
    requires IsRun(run, acts) && n <= |acts|
    ensures R.IsRun(Systems(run, acts, n), Steps(run, acts, n))
    ensures Systems(run, acts, n)[|Steps(run, acts, n)|] == run[n].sys
  {
    if n > 0 {
      RunsOnMutexStore(run, acts, n - 1);
      RunInv(run, acts, n - 1);
      assert Enabled(run[n - 1], acts[n - 1]);
      StepRefines(run[n - 1], acts[n - 1]);
      var step := StepOf(run[n - 1], acts[n - 1]);
      if step.Takes? {
        RunSnoc(Systems(run, acts, n - 1), Steps(run, acts, n - 1), step.a, run[n].sys);
      }
    }
  }

  lemma RunSnoc(run: seq<L.System>, acts: seq<L.Action>, a: L.Action, s: L.System)
    requires R.IsRun(run, acts) && L.Enabled(run[|acts|], a) && s == L.Apply(run[|acts|], a)
    ensures R.IsRun(run + [s], acts + [a])
  {
    var run', acts' := run + [s], acts + [a];
    forall i {:trigger acts'[i]} | 0 <= i < |acts'|
      ensures L.Enabled(run'[i], acts'[i]) && run'[i + 1] == L.Apply(run'[i], acts'[i])
    {
      if i < |acts| {
        assert acts'[i] == acts[i];
      }
    }
  }

  /** Where step i of a run is in that run. */
  ghost function At(run: seq<Server>, acts: seq<Action>, i: nat): nat
    requires IsRun(run, acts) && i <= |acts|
  {
    |Steps(run, acts, i)|
  }

  lemma {:induction false} Prefixes(run: seq<Server>, acts: seq<Action>, i: nat, n: nat)
    requires IsRun(run, acts) && i <= n <= |acts|
    ensures Steps(run, acts, i) <= Steps(run, acts, n) && Systems(run, acts, i) <= Systems(run, acts, n)
  {
    if i < n {
      Prefixes(run, acts, i, n - 1);
    }
  }

  lemma SystemsLength(run: seq<Server>, acts: seq<Action>)
    requires IsRun(run, acts)
    ensures |Systems(run, acts, |acts|)| == |Steps(run, acts, |acts|)| + 1
  {
    RunsOnMutexStore(run, acts, |acts|);
  }

  /** A step of the lifecycle is found again at its place, on the same system. */
  lemma StepAt(run: seq<Server>, acts: seq<Action>, i: nat)
    requires IsRun(run, acts) && i < |acts| && Enabled(run[i], acts[i]) && StepOf(run[i], acts[i]).Takes?
    ensures var n := |acts|;
            && R.IsRun(Systems(run, acts, n), Steps(run, acts, n))
            && At(run, acts, i + 1) == At(run, acts, i) + 1 <= |Steps(run, acts, n)|
            && Steps(run, acts, n)[At(run, acts, i)] == StepOf(run[i], acts[i]).a
            && Systems(run, acts, n)[At(run, acts, i)] == run[i].sys
  {
    RunsOnMutexStore(run, acts, |acts|);
    RunsOnMutexStore(run, acts, i);
    Prefixes(run, acts, i, |acts|);
    Prefixes(run, acts, i + 1, |acts|);
  }

  /** Each step of the mutex store's run is one of these. */
  lemma {:induction false} StepFrom(run: seq<Server>, acts: seq<Action>, n: nat, p: nat) returns (i: nat)
    requires IsRun(run, acts) && n <= |acts| && p < |Steps(run, acts, n)|
    ensures i < n && At(run, acts, i) == p && Enabled(run[i], acts[i])
    ensures StepOf(run[i], acts[i]) == Takes(Steps(run, acts, n)[p])
  {
    assert Enabled(run[n - 1], acts[n - 1]);
    if p < |Steps(run, acts, n - 1)| {
      i := StepFrom(run, acts, n - 1, p);
    } else {
      i := n - 1;
    }
  }

  // ---- What production keeps ----

  /** Each refresh secret wins at most one rotation. */
  lemma SecretRotatesOnce(run: seq<Server>, acts: seq<Action>, i: nat, j: nat)
    requires IsRun(run, acts) && i < |acts| && j < |acts|
    requires Enabled(run[i], acts[i]) && StepOf(run[i], acts[i]).Takes? && R.WinsRotation(run[i].sys, StepOf(run[i], acts[i]).a)
    requires Enabled(run[j], acts[j]) && StepOf(run[j], acts[j]).Takes? && R.WinsRotation(run[j].sys, StepOf(run[j], acts[j]).a)
    requires R.Rotated(run[i].sys, StepOf(run[i], acts[i]).a).record.hash == R.Rotated(run[j].sys, StepOf(run[j], acts[j]).a).record.hash
    ensures i == j
  {
    StepAt(run, acts, i);
    StepAt(run, acts, j);
    R.SecretRotatesOnce(Systems(run, acts, |acts|), Steps(run, acts, |acts|), At(run, acts, i), At(run, acts, j));
    SamePlace(run, acts, i, j);
  }

  lemma SamePlace(run: seq<Server>, acts: seq<Action>, i: nat, j: nat)
    requires IsRun(run, acts) && i < |acts| && j < |acts| && At(run, acts, i) == At(run, acts, j)
    requires Enabled(run[i], acts[i]) && StepOf(run[i], acts[i]).Takes?
    requires Enabled(run[j], acts[j]) && StepOf(run[j], acts[j]).Takes?
    ensures i == j
  {
    if i < j {
      Prefixes(run, acts, i + 1, j);
    } else if j < i {
      Prefixes(run, acts, j + 1, i);
    }
  }

  /** Each authorization code is redeemed at most once. */
  lemma CodeRedeemedOnce(run: seq<Server>, acts: seq<Action>, key: Key, i: nat, j: nat)
    requires IsRun(run, acts) && i < |acts| && j < |acts|
    requires Enabled(run[i], acts[i]) && StepOf(run[i], acts[i]).Takes? && R.CommitsRedemption(run[i].sys, StepOf(run[i], acts[i]).a, key)
    requires Enabled(run[j], acts[j]) && StepOf(run[j], acts[j]).Takes? && R.CommitsRedemption(run[j].sys, StepOf(run[j], acts[j]).a, key)
    ensures i == j
  {
    StepAt(run, acts, i);
    StepAt(run, acts, j);
    R.CodeRedeemedOnce(Systems(run, acts, |acts|), Steps(run, acts, |acts|), key, At(run, acts, i), At(run, acts, j));
    SamePlace(run, acts, i, j);
  }

  /** A presented secret other than the current one revokes the family for good. */
  lemma RefreshReplayKillsFamily(run: seq<Server>, acts: seq<Action>, i: nat, j: nat)
    requires IsRun(run, acts) && i < j < |acts|
    requires Enabled(run[i], acts[i]) && StepOf(run[i], acts[i]).Takes? && StepOf(run[i], acts[i]).a.RefreshReplay?
    ensures L.At(run[i].sys, StepOf(run[i], acts[i]).a.r) && run[i].sys.procs[StepOf(run[i], acts[i]).a.r].RefreshReplayed?
    ensures var f := run[i].sys.procs[StepOf(run[i], acts[i]).a.r].family;
            f in run[j].sys.store.grants && run[j].sys.store.grants[f].status == Revoked
  {
    StepAt(run, acts, i);
    NotBefore(run, acts, i, j);
    PlaceIs(run, acts, j);
    StepEnabled(run, acts, i);
    R.RefreshReplayKillsFamily(Systems(run, acts, |acts|), Steps(run, acts, |acts|), At(run, acts, i), At(run, acts, j));
  }

  lemma PlaceIs(run: seq<Server>, acts: seq<Action>, j: nat)
    requires IsRun(run, acts) && j <= |acts|
    ensures At(run, acts, j) < |Systems(run, acts, |acts|)| && Systems(run, acts, |acts|)[At(run, acts, j)] == run[j].sys
  {
    RunsOnMutexStore(run, acts, j);
    Prefixes(run, acts, j, |acts|);
  }

  lemma StepEnabled(run: seq<Server>, acts: seq<Action>, i: nat)
    requires IsRun(run, acts) && i < |acts| && Enabled(run[i], acts[i]) && StepOf(run[i], acts[i]).Takes?
    ensures L.Enabled(run[i].sys, StepOf(run[i], acts[i]).a)
  {
    RunInv(run, acts, i);
    StepRefines(run[i], acts[i]);
  }

  lemma RunLength(run: seq<Server>, acts: seq<Action>)
    requires IsRun(run, acts)
    ensures |run| == |acts| + 1
  {
  }

  lemma LocalIsItself(sv: Server, x: Action)
    requires Enabled(sv, x)
    ensures x.Local? ==> StepOf(sv, x) == Takes(x.a)
  {
  }

  lemma NotBefore(run: seq<Server>, acts: seq<Action>, m: nat, j: nat)
    requires IsRun(run, acts) && m < j < |acts| && Enabled(run[m], acts[m]) && StepOf(run[m], acts[m]).Takes?
    ensures var n := |acts|;
            && At(run, acts, m) < At(run, acts, j) <= |Steps(run, acts, n)| < |Systems(run, acts, n)|
            && Steps(run, acts, n)[At(run, acts, m)] == StepOf(run[m], acts[m]).a
            && Systems(run, acts, n)[At(run, acts, m)] == run[m].sys
  {
    hide IsRun, R.IsRun, StepOf, Enabled, Steps, Systems;
    RunLength(run, acts);
    StepAt(run, acts, m);
    Prefixes(run, acts, m + 1, j);
    Prefixes(run, acts, j, |acts|);
    SystemsLength(run, acts);
  }

  /** Step n of the run is a step of the lifecycle. */
  ghost predicate IsStep(run: seq<Server>, acts: seq<Action>, n: nat) {
    n < |acts| < |run| && Enabled(run[n], acts[n]) && StepOf(run[n], acts[n]).Takes?
  }

  ghost function StepHere(run: seq<Server>, acts: seq<Action>, n: nat): L.Action
    requires IsStep(run, acts, n)
  {
    StepOf(run[n], acts[n]).a
  }

  /** A place in the mutex store's run, found among the steps before j. */
  lemma PlaceFrom(run: seq<Server>, acts: seq<Action>, j: nat, p: nat) returns (n: nat)
    requires IsRun(run, acts) && j <= |acts| && p < At(run, acts, j)
    ensures n < j && IsStep(run, acts, n) && At(run, acts, n) == p && At(run, acts, n + 1) == p + 1
    ensures p + 1 < |Systems(run, acts, |acts|)| && p < |Steps(run, acts, |acts|)|
    ensures Systems(run, acts, |acts|)[p] == run[n].sys && Systems(run, acts, |acts|)[p + 1] == run[n + 1].sys
    ensures Steps(run, acts, |acts|)[p] == StepHere(run, acts, n)
  {
    hide IsRun, R.IsRun, StepOf, Enabled, Steps, Systems;
    RunLength(run, acts);
    SystemsLength(run, acts);
    Prefixes(run, acts, j, |acts|);
    n := StepFrom(run, acts, j, p);
    StepAt(run, acts, n);
    PlaceIs(run, acts, n);
    PlaceIs(run, acts, n + 1);
  }

  lemma InOrder(run: seq<Server>, acts: seq<Action>, m: nat, n: nat)
    requires IsRun(run, acts) && m < |acts| && n < |acts| && At(run, acts, m) < At(run, acts, n)
    ensures m < n
  {
    if n <= m {
      Prefixes(run, acts, n, m);
    }
  }

  /** A request that is in the mutex store's run from p to q is in the production run meanwhile. */
  lemma RequestStays(run: seq<Server>, acts: seq<Action>, r: L.Request, source: nat, mint: nat)
    requires IsRun(run, acts) && source < mint < |acts| && IsStep(run, acts, source)
    requires forall p | At(run, acts, source) < p <= At(run, acts, mint) < |Systems(run, acts, |acts|)| ::
               L.At(Systems(run, acts, |acts|)[p], r)
    ensures |run| == |acts| + 1 && forall n | source < n <= mint :: L.At(run[n].sys, r)
  {
    hide IsRun, StepOf, Enabled, Steps, Systems;
    RunLength(run, acts);
    StepAt(run, acts, source);
    forall n | source < n <= mint
      ensures L.At(run[n].sys, r)
    {
      Prefixes(run, acts, source + 1, n);
      Prefixes(run, acts, n, mint);
      PlaceIs(run, acts, n);
      PlaceIs(run, acts, mint);
    }
  }

  /** An accepted token, as the mutex store's run sees it. */
  ghost predicate Verifies(run: seq<Server>, acts: seq<Action>, j: nat) {
    && j < |acts| < |run| && Enabled(run[j], acts[j]) && acts[j].Local? && acts[j].a.VerifyAccess?
    && L.Accepts(run[j].sys, acts[j].a.token, acts[j].a.now, acts[j].a.domainAllowed)
  }

  lemma VerifiesAt(run: seq<Server>, acts: seq<Action>, j: nat)
    requires IsRun(run, acts) && Verifies(run, acts, j)
    ensures var n, p := |acts|, At(run, acts, j);
            && R.IsRun(Systems(run, acts, n), Steps(run, acts, n))
            && |run| == n + 1 && |Systems(run, acts, n)| == |Steps(run, acts, n)| + 1
            && p < |Steps(run, acts, n)| && Steps(run, acts, n)[p] == acts[j].a
            && Systems(run, acts, n)[p] == run[j].sys && Systems(run, acts, n)[0] == run[0].sys
  {
    LocalIsItself(run[j], acts[j]);
    StepAt(run, acts, j);
    SystemsLength(run, acts);
    Prefixes(run, acts, 0, |acts|);
  }

  lemma TokenSteps(run: seq<Server>, acts: seq<Action>, j: nat) returns (source: nat, mint: nat)
    requires IsRun(run, acts) && Verifies(run, acts, j)
    ensures source < mint < j && IsStep(run, acts, source) && IsStep(run, acts, mint) && StepHere(run, acts, mint).Mint?
    ensures var token, now, minting := acts[j].a.token, acts[j].a.now, StepHere(run, acts, mint);
            && token in run[mint + 1].sys.minted && token.issuedAt == minting.now / L.SECOND
            && T.Gives(run[source].sys, StepHere(run, acts, source), minting.r, token.family, token.googleExpiry)
            && (forall n | source < n <= mint :: L.At(run[n].sys, minting.r))
            && now < token.googleExpiry * L.SECOND && now < minting.now + L.ACCESS_TOKEN_TTL
  {
    hide IsRun, R.IsRun, StepOf, Enabled, Steps, Systems, At, L.Accepts, T.Gives;
    VerifiesAt(run, acts, j);
    var ms, ma := Systems(run, acts, |acts|), Steps(run, acts, |acts|);
    var p, q := T.TokenSource(ms, ma, At(run, acts, j));
    source := PlaceFrom(run, acts, j, p);
    mint := PlaceFrom(run, acts, j, q);
    InOrder(run, acts, source, mint);
    RequestStays(run, acts, ma[q].r, source, mint);
  }

  lemma FamilySteps(run: seq<Server>, acts: seq<Action>, j: nat) returns (i: nat, key: Key)
    requires IsRun(run, acts) && Verifies(run, acts, j)
    ensures i < j && IsStep(run, acts, i) && R.CommitsRedemption(run[i].sys, StepHere(run, acts, i), key)
    ensures var token, codes := acts[j].a.token, run[i].sys.store.codes;
            && key in codes && codes[key].family == token.family && codes[key].claims.identity == token.identity
            && acts[j].a.now < L.OpOf(run[i].sys, StepHere(run, acts, i)).op.now + run[0].sys.ttl
    ensures forall n | 0 <= n < j && IsStep(run, acts, n) ::
              !R.CommitsRevocation(run[n].sys, StepHere(run, acts, n), acts[j].a.token.family)
  {
    hide IsRun, R.IsRun, StepOf, Enabled, Steps, Systems, At, L.Accepts, T.Follows, T.ReadAdmits, T.CommitFinds;
    VerifiesAt(run, acts, j);
    var t, p;
    t, p, key := T.SessionBound(Systems(run, acts, |acts|), Steps(run, acts, |acts|), At(run, acts, j));
    T.TrailInRun(Systems(run, acts, |acts|), Steps(run, acts, |acts|), t);
    i := PlaceFrom(run, acts, j, p);
    forall m | 0 <= m < j && IsStep(run, acts, m)
      ensures !R.CommitsRevocation(run[m].sys, StepHere(run, acts, m), acts[j].a.token.family)
    {
      NotBefore(run, acts, m, j);
    }
  }

  /** The bound on every session: an access token accepted at step j was minted by a request at an
      earlier step, within ACCESS_TOKEN_TTL, and the time is before the expiry that Google gave to
      that same request.  Its family was redeemed before, for the token's identity, the time is
      within that redemption's refresh lifetime, and no revocation of the family has committed. */
  lemma SessionBound(run: seq<Server>, acts: seq<Action>, j: nat) returns (source: nat, mint: nat, i: nat, key: Key)
    requires IsRun(run, acts) && Verifies(run, acts, j)
    ensures source < mint < j && IsStep(run, acts, source) && IsStep(run, acts, mint) && StepHere(run, acts, mint).Mint?
    ensures var token, now, minting := acts[j].a.token, acts[j].a.now, StepHere(run, acts, mint);
            && token in run[mint + 1].sys.minted && token.issuedAt == minting.now / L.SECOND
            && T.Gives(run[source].sys, StepHere(run, acts, source), minting.r, token.family, token.googleExpiry)
            && (forall n | source < n <= mint :: L.At(run[n].sys, minting.r))
            && now < token.googleExpiry * L.SECOND && now < minting.now + L.ACCESS_TOKEN_TTL
    ensures i < j && IsStep(run, acts, i) && R.CommitsRedemption(run[i].sys, StepHere(run, acts, i), key)
    ensures var token, codes := acts[j].a.token, run[i].sys.store.codes;
            && key in codes && codes[key].family == token.family && codes[key].claims.identity == token.identity
            && acts[j].a.now < L.OpOf(run[i].sys, StepHere(run, acts, i)).op.now + run[0].sys.ttl
    ensures forall n | 0 <= n < j && IsStep(run, acts, n) ::
              !R.CommitsRevocation(run[n].sys, StepHere(run, acts, n), acts[j].a.token.family)
  {
    hide R.IsRun, StepOf, Enabled, L.Accepts, T.Gives;
    source, mint := TokenSteps(run, acts, j);
    i, key := FamilySteps(run, acts, j);
  }
}
