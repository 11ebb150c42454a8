/** Whole requests on the user pool of internal/server/userpool.go: who is served, who is turned
    away, and that no request waits for a build that nobody runs. */
module PoolRequests {
  import opened UserPool

  /** j is thread r's next step after i. */
  predicate Next(acts: seq<Action>, r: Thread, i: nat, j: nat) {
    && i < j < |acts| && acts[i].r == r && acts[j].r == r
    && forall n | i < n < j :: acts[n].r != r
  }

  lemma OthersStay(p: Pool, a: Action, r: Thread)
    requires Enabled(p, a) && a.r != r
    ensures r in Apply(p, a).threads <==> r in p.threads
    ensures r in p.threads ==> Apply(p, a).threads[r] == p.threads[r]
  {
  }

  lemma {:induction false} Stays(run: seq<Pool>, acts: seq<Action>, r: Thread, i: nat, j: nat)
    requires IsRun(run, acts) && i < j <= |acts| && forall n | i < n < j :: acts[n].r != r
    ensures r in run[j].threads <==> r in run[i + 1].threads
    ensures r in run[j].threads ==> run[j].threads[r] == run[i + 1].threads[r]
  {
    if i + 1 < j {
      Stays(run, acts, r, i, j - 1);
      RunStep(run, acts, j - 1);
      OthersStay(run[j - 1], acts[j - 1], r);
    }
  }

  lemma AfterStep(run: seq<Pool>, acts: seq<Action>, r: Thread, i: nat, j: nat)
    requires IsRun(run, acts) && Next(acts, r, i, j)
    ensures i < j < |acts| && |run| == |acts| + 1 && acts[i].r == r && acts[j].r == r
    ensures Enabled(run[i], acts[i]) && Enabled(run[j], acts[j])
    ensures r in run[j].threads <==> r in Apply(run[i], acts[i]).threads
    ensures r in run[j].threads ==> run[j].threads[r] == Apply(run[i], acts[i]).threads[r]
  {
    RunStep(run, acts, i);
    RunStep(run, acts, j);
    Stays(run, acts, r, i, j);
  }

  lemma {:induction false} EntriesStay(run: seq<Pool>, acts: seq<Action>, i: nat, j: nat, e: EntryId)
    requires IsRun(run, acts) && i <= j < |run| && e in run[i].heap
    ensures e in run[j].heap && run[j].heap[e].key == run[i].heap[e].key
  {
    if i < j {
      EntriesStay(run, acts, i, j - 1, e);
      RunStep(run, acts, j - 1);
      StepKeepsHeap(run[j - 1], acts[j - 1], e);
    }
  }

  lemma NothingAtFirst(run: seq<Pool>, acts: seq<Action>)
    requires IsRun(run, acts)
    ensures |run| == |acts| + 1 && run[0].heap == map[]
  {
  }

  // ---- Builds ----

  /** Step b runs the builder for entry e. */
  ghost predicate BuildsAt(run: seq<Pool>, acts: seq<Action>, b: nat, e: EntryId) {
    && b < |acts| < |run| && acts[b].Build?
    && acts[b].r in run[b].threads && run[b].threads[acts[b].r] == Constructing(e)
  }

  /** A build publishes its outcome: the builder is served when it succeeded and reports the failure
      when it did not, and no other entry is touched. */
  lemma BuilderIsServed(run: seq<Pool>, acts: seq<Action>, b: nat, e: EntryId)
    requires IsRun(run, acts) && BuildsAt(run, acts, b, e)
    ensures e in run[b].heap && run[b].heap[e].phase == Building
    ensures run[b + 1].heap == run[b].heap[e := run[b].heap[e].(phase := if acts[b].ok then Ready else Failed)]
    ensures acts[b].r in run[b + 1].threads
    ensures run[b + 1].threads[acts[b].r] == if acts[b].ok then Serving(e) else Failing(e)
    ensures run[b + 1].entries == run[b].entries
  {
    RunStep(run, acts, b);
    RunInv(run, acts, b);
    assert ThreadSound(run[b], run[b].threads[acts[b].r]);
  }

  lemma OnlyBuildsPublish(p: Pool, a: Action, e: EntryId)
    requires Enabled(p, a) && e in p.heap && Apply(p, a).heap[e].phase != p.heap[e].phase
    ensures a.Build? && a.r in p.threads && p.threads[a.r] == Constructing(e)
    ensures Apply(p, a).heap[e].phase == if a.ok then Ready else Failed
  {
    hide EntriesAfter, NextPC;
  }

  lemma NewEntriesBuild(p: Pool, a: Action, e: EntryId)
    requires Enabled(p, a) && e !in p.heap && e in Apply(p, a).heap
    ensures Apply(p, a).heap[e].phase == Building
  {
    hide EntriesAfter, NextPC;
  }

  /** The outcome published for an entry is that of the one build run for it. */
  lemma {:induction false} OutcomeIsBuilds(run: seq<Pool>, acts: seq<Action>, e: EntryId, j: nat) returns (b: nat)
    requires IsRun(run, acts) && j <= |acts| && e in run[j].heap && run[j].heap[e].phase != Building
    ensures b < j && BuildsAt(run, acts, b, e)
    ensures run[j].heap[e].phase == if acts[b].ok then Ready else Failed
  {
    hide IsRun, Enabled, Apply;
    NothingAtFirst(run, acts);
    if j == 0 {
      assert false;
    } else {
      RunStep(run, acts, j - 1);
      if e !in run[j - 1].heap {
        NewEntriesBuild(run[j - 1], acts[j - 1], e);
      } else if run[j].heap[e].phase == run[j - 1].heap[e].phase {
        b := OutcomeIsBuilds(run, acts, e, j - 1);
      } else {
        OnlyBuildsPublish(run[j - 1], acts[j - 1], e);
        b := j - 1;
      }
    }
  }

  lemma BuilderIsBuilding(p: Pool, a: Action)
    requires Inv(p) && Enabled(p, a) && a.Build?
    ensures p.heap[p.threads[a.r].e].phase == Building
  {
    assert ThreadSound(p, p.threads[a.r]);
  }

  lemma PublishedOnce(p: Pool, a: Action, e: EntryId)
    requires Enabled(p, a) && e in p.heap && (a.Build? ==> p.heap[p.threads[a.r].e].phase == Building)
    ensures e in Apply(p, a).heap
    ensures p.heap[e].phase != Building ==> Apply(p, a).heap[e].phase == p.heap[e].phase
  {
    hide EntriesAfter, NextPC;
  }

  lemma PublishedStays(run: seq<Pool>, acts: seq<Action>, i: nat, e: EntryId)
    requires IsRun(run, acts) && i < |acts| && e in run[i].heap
    ensures |run| == |acts| + 1 && Enabled(run[i], acts[i]) && run[i + 1] == Apply(run[i], acts[i])
    ensures e in run[i + 1].heap
    ensures run[i].heap[e].phase != Building ==> run[i + 1].heap[e].phase == run[i].heap[e].phase
  {
    RunStep(run, acts, i);
    RunInv(run, acts, i);
    hide IsRun, Inv, Apply;
    if acts[i].Build? {
      BuilderIsBuilding(run[i], acts[i]);
    }
    PublishedOnce(run[i], acts[i], e);
  }

  lemma {:induction false} OutcomeStays(run: seq<Pool>, acts: seq<Action>, e: EntryId, i: nat, j: nat)
    requires IsRun(run, acts) && i <= j <= |acts| && e in run[i].heap && run[i].heap[e].phase != Building
    ensures e in run[j].heap && run[j].heap[e].phase == run[i].heap[e].phase
  {
    if i < j {
      OutcomeStays(run, acts, e, i, j - 1);
      PublishedStays(run, acts, j - 1, e);
    }
  }

  /** An entry is built at most once. */
  lemma BuiltOnce(run: seq<Pool>, acts: seq<Action>, e: EntryId, b: nat, c: nat)
    requires IsRun(run, acts) && BuildsAt(run, acts, b, e) && BuildsAt(run, acts, c, e)
    ensures b == c
  {
    var first, last := if b < c then b else c, if b < c then c else b;
    if first < last {
      BuilderIsServed(run, acts, first, e);
      OutcomeStays(run, acts, e, first + 1, last);
      BuilderIsServed(run, acts, last, e);
    }
  }

  // ---- Requests that find an entry ----

  lemma HitStep(p: Pool, a: Action)
    requires Enabled(p, a) && a.Hit?
    ensures a.r in Apply(p, a).threads && Apply(p, a).threads[a.r] == Waiting(p.entries[a.key])
  {
  }

  lemma WakeStep(p: Pool, a: Action, e: EntryId)
    requires Enabled(p, a) && a.r in p.threads && p.threads[a.r] == Waiting(e)
    ensures a.Wake? || a.Cancel?
    ensures a.r in Apply(p, a).threads && (a.Wake? ==> e in p.heap && p.heap[e].phase != Building)
    ensures Apply(p, a).threads[a.r] == if a.Wake? && p.heap[e].phase == Ready then Serving(e) else Leaving(e)
  {
  }

  /** A request that finds an entry for its key shares that entry's one build: when it stops waiting
      because the build is over, it is served that assembly if and only if the build succeeded, and
      leaves if and only if it failed. */
  lemma WaiterSharesBuild(run: seq<Pool>, acts: seq<Action>, r: Thread, i: nat, j: nat) returns (b: nat)
    requires IsRun(run, acts) && Next(acts, r, i, j) && acts[i].Hit? && acts[j].Wake?
    ensures |run| == |acts| + 1 && acts[i].key in run[i].entries
    ensures var e := run[i].entries[acts[i].key];
            && b < j && BuildsAt(run, acts, b, e) && e in run[j].heap && r in run[j + 1].threads
            && (run[j + 1].threads[r] == Serving(e) <==> acts[b].ok)
            && (run[j + 1].threads[r] == Leaving(e) <==> !acts[b].ok)
            && (run[j + 1].threads[r] == Serving(e) <==> run[j].heap[e].phase == Ready)
            && (run[j + 1].threads[r] == Leaving(e) <==> run[j].heap[e].phase == Failed)
  {
    AfterStep(run, acts, r, i, j);
    HitStep(run[i], acts[i]);
    var e := run[i].entries[acts[i].key];
    RunStep(run, acts, j);
    WakeStep(run[j], acts[j], e);
    b := OutcomeIsBuilds(run, acts, e, j);
  }

  /** A request stops waiting by waking or by being cancelled, and a cancelled one leaves. */
  lemma WaiterWakesOrLeaves(run: seq<Pool>, acts: seq<Action>, r: Thread, i: nat, j: nat)
    requires IsRun(run, acts) && Next(acts, r, i, j) && acts[i].Hit?
    ensures |run| == |acts| + 1 && acts[i].key in run[i].entries && (acts[j].Wake? || acts[j].Cancel?)
    ensures acts[j].Cancel? ==> r in run[j + 1].threads && run[j + 1].threads[r] == Leaving(run[i].entries[acts[i].key])
  {
    AfterStep(run, acts, r, i, j);
    HitStep(run[i], acts[i]);
    RunStep(run, acts, j);
    WakeStep(run[j], acts[j], run[i].entries[acts[i].key]);
  }

  // ---- Nobody waits for a build that nobody runs ----

  predicate WillBuild(pc: PC, e: EntryId) {
    (pc.Evicting? || pc.Constructing?) && pc.e == e
  }

  ghost predicate HasBuilder(p: Pool, e: EntryId) {
    exists r :: r in p.threads && WillBuild(p.threads[r], e)
  }

  lemma BuilderStays(p: Pool, a: Action, e: EntryId)
    requires Enabled(p, a) && e in p.heap && HasBuilder(p, e) && Apply(p, a).heap[e].phase == Building
    ensures HasBuilder(Apply(p, a), e)
  {
    var r :| r in p.threads && WillBuild(p.threads[r], e);
    var t := Apply(p, a);
    assert r in t.threads && WillBuild(t.threads[r], e);
  }

  lemma NewHasBuilder(p: Pool, a: Action, e: EntryId)
    requires Enabled(p, a) && e !in p.heap && e in Apply(p, a).heap
    ensures HasBuilder(Apply(p, a), e)
  {
    assert WillBuild(Apply(p, a).threads[a.r], e);
  }

  /** Every entry still being built has a thread that is on its way to run the builder. */
  lemma {:induction false} EveryBuildIsRun(run: seq<Pool>, acts: seq<Action>, e: EntryId, j: nat)
    requires IsRun(run, acts) && j <= |acts| && e in run[j].heap && run[j].heap[e].phase == Building
    ensures HasBuilder(run[j], e)
  {
    hide IsRun, Enabled, Apply, HasBuilder;
    NothingAtFirst(run, acts);
    if j == 0 {
      assert false;
    } else {
      RunStep(run, acts, j - 1);
      var p, a := run[j - 1], acts[j - 1];
      if e !in p.heap {
        NewHasBuilder(p, a, e);
      } else {
        PublishedStays(run, acts, j - 1, e);
        EveryBuildIsRun(run, acts, e, j - 1);
        BuilderStays(p, a, e);
      }
    }
  }

  // ---- Every request ends ----

  /** How many steps a thread still has to take. */
  function StepsLeft(pc: PC): nat {
    match pc
    case Evicting(_, _) => 6
    case Constructing(_) => 5
    case Failing(_) => 4
    case Waiting(_) => 3
    case Serving(_) => 2
    case Leaving(_) => 1
    case Sweeping(victims) => |victims|
  }

  /** Every step brings its thread nearer to its end, at which a request is released: counted out
      of the entry it was counted into, and gone. */
  lemma EachStepIsNearer(p: Pool, a: Action)
    requires Enabled(p, a) && a.r in p.threads
    ensures if a.Release? then
              var e := p.threads[a.r].e;
              && a.r !in Apply(p, a).threads
              && Apply(p, a).heap == p.heap[e := p.heap[e].(inflight := p.heap[e].inflight - 1)]
            else a.r in Apply(p, a).threads && StepsLeft(Apply(p, a).threads[a.r]) < StepsLeft(p.threads[a.r])
    ensures a.r in Apply(p, a).threads && !p.threads[a.r].Sweeping? ==> Holds(Apply(p, a).threads[a.r], p.threads[a.r].e)
  {
  }

  /** A thread that is not done can take a step, unless it waits for a build still being run. */
  lemma NeverStuck(p: Pool, r: Thread)
    requires Inv(p) && r in p.threads && p.threads[r] != Sweeping([])
    requires p.threads[r].Waiting? ==> p.threads[r].e in p.heap && p.heap[p.threads[r].e].phase != Building
    ensures exists a: Action :: a.r == r && !a.Cancel? && Enabled(p, a)
  {
    assert ThreadSound(p, p.threads[r]);
    var a := match p.threads[r]
      case Waiting(_) => Wake(r)
      case Evicting(_, _) => CloseVictim(r)
      case Constructing(_) => Build(r, true)
      case Failing(_) => DropFailed(r)
      case Serving(_) => Finish(r)
      case Leaving(_) => Release(r)
      case Sweeping(_) => CloseSwept(r);
    if a.CloseVictim? {
      assert Owns(p.threads[r], p.threads[r].victim);
    } else if a.CloseSwept? {
      assert Owns(p.threads[r], p.threads[r].victims[0]);
    }
    assert a.r == r && Enabled(p, a);
  }

  lemma DropStep(p: Pool, a: Action, e: EntryId)
    requires Enabled(p, a) && a.r in p.threads && p.threads[a.r] == Failing(e)
    ensures a.DropFailed? && e in p.heap && Apply(p, a).entries == p.entries - {p.heap[e].key}
    ensures a.r in Apply(p, a).threads && Apply(p, a).threads[a.r] == Leaving(e)
  {
  }

  /** After a failed build the builder takes its own key out of the map and leaves. */
  lemma FailureIsDropped(run: seq<Pool>, acts: seq<Action>, b: nat, e: EntryId, d: nat)
    requires IsRun(run, acts) && BuildsAt(run, acts, b, e) && !acts[b].ok && Next(acts, acts[b].r, b, d)
    ensures |run| == |acts| + 1 && e in run[d].heap && acts[d].DropFailed?
    ensures run[d + 1].entries == run[d].entries - {run[d].heap[e].key}
    ensures acts[b].r in run[d + 1].threads && run[d + 1].threads[acts[b].r] == Leaving(e)
  {
    var r := acts[b].r;
    BuilderIsServed(run, acts, b, e);
    RunStep(run, acts, b);
    AfterStep(run, acts, r, b, d);
    EntriesStay(run, acts, b, d, e);
    RunStep(run, acts, d);
    DropStep(run[d], acts[d], e);
  }

  // ---- The idle limit slides ----

  /** The step is a request for entry e. */
  ghost predicate Requests(p: Pool, a: Action, e: EntryId) {
    || (a.Hit? && a.key in p.entries && p.entries[a.key] == e)
    || ((a.Insert? || a.Replace?) && a.e == e)
  }

  lemma UsedWhenRequested(p: Pool, a: Action, e: EntryId)
    requires Enabled(p, a) && e in Apply(p, a).heap
    ensures if Requests(p, a, e) then Apply(p, a).heap[e].lastUsed == a.now
            else e in p.heap && Apply(p, a).heap[e].lastUsed == p.heap[e].lastUsed
  {
    hide EntriesAfter, NextPC;
  }

  /** An entry's last use is the time of the last request for it, so every request resets it. */
  lemma {:induction false} LastUseIsLastRequest(run: seq<Pool>, acts: seq<Action>, e: EntryId, j: nat) returns (i: nat)
    requires IsRun(run, acts) && j <= |acts| && e in run[j].heap
    ensures i < j && |run| == |acts| + 1 && Requests(run[i], acts[i], e) && run[j].heap[e].lastUsed == acts[i].now
    ensures forall n | i < n < j :: !Requests(run[n], acts[n], e)
  {
    hide IsRun, Enabled, Apply, Requests;
    NothingAtFirst(run, acts);
    if j == 0 {
      assert false;
    } else {
      RunStep(run, acts, j - 1);
      UsedWhenRequested(run[j - 1], acts[j - 1], e);
      if Requests(run[j - 1], acts[j - 1], e) {
        i := j - 1;
      } else {
        i := LastUseIsLastRequest(run, acts, e, j - 1);
      }
    }
  }
}
