/** The executor's promises, stated over every run of the protocol. */
module ExecutorTheorems {
  import opened Prelude
  import opened ExecutorLog
  import opened ExecutorProtocol
  import opened ExecutorInvariant

  /** In every run each envelope's records follow the lifecycle, and no identity is used twice. */
  lemma RunLifecycle(steps: seq<Step>)
    requires Run(steps).Some?
    ensures var log := Run(steps).value.log;
            && (forall env :: Lifecycles(Records(log, env)))
            && (forall i, j :: 0 <= i < j < |log| && IdentityOf(log[j]) != Unkeyed
                               ==> IdentityOf(log[i]) != IdentityOf(log[j]))
  {
    RunKeeps(steps);
    var log := Run(steps).value.log;
    forall env ensures Lifecycles(Records(log, env)) {
      GoodLifecycle(log, env);
    }
    forall i, j | 0 <= i < j < |log| && IdentityOf(log[j]) != Unkeyed ensures IdentityOf(log[i]) != IdentityOf(log[j]) {
      IdentitiesDistinct(log, i, j);
    }
  }

  /** The fence at `j` carries the sequence number of an earlier close of its own generation. */
  predicate FencedByClose(log: Log, j: nat)
    requires j < |log| && log[j].Fenced?
  {
    1 <= log[j].fenceSequence <= j && IsClose(log[log[j].fenceSequence - 1], log[j].who.generation)
  }

  /**
    In every run: no RESULT follows its generation's close, a DISCARDED always does, and a fence
    names its own generation's close event.
   */
  lemma RunFences(steps: seq<Step>)
    requires Run(steps).Some?
    ensures var log := Run(steps).value.log;
            && (forall i, j :: 0 <= i < j < |log| && IsRecord(log[j], Result) ==>
                !IsClose(log[i], log[j].who.generation))
            && (forall j :: 0 <= j < |log| && IsRecord(log[j], Discarded)
                            ==> exists i :: 0 <= i < j && IsClose(log[i], log[j].who.generation))
            && (forall j :: 0 <= j < |log| && log[j].Fenced? ==> FencedByClose(log, j))
  {
    RunKeeps(steps);
    var log := Run(steps).value.log;
    forall i, j | 0 <= i < j < |log| && IsRecord(log[j], Result) ensures !IsClose(log[i], log[j].who.generation) {
      NoResultAfterClose(log, i, j);
    }
    forall j | 0 <= j < |log| && IsRecord(log[j], Discarded)
      ensures exists i :: 0 <= i < j && IsClose(log[i], log[j].who.generation)
    {
      DiscardFollowsClose(log, j);
    }
    forall j | 0 <= j < |log| && log[j].Fenced?
      ensures FencedByClose(log, j)
    {
      FenceNamesClose(log, j);
    }
  }

  // ---------------------------------------------------------------- takeover

  /** The processes the latest observation of an envelope left behind; none if it was never observed. */
  function LatestSurvivors(log: Log, env: nat): seq<nat> {
    if log == [] then []
    else
      var e := log[|log| - 1];
      if e.Observed? && e.envelope == env then e.lifecycle.afterKill else LatestSurvivors(log[..|log| - 1], env)
  }

  lemma {:induction false} LookSurvivors(log: Log, env: nat)
    ensures Look(BoardOf(log), env).survivors == LatestSurvivors(log, env)
  {
    if log != [] {
      LookSurvivors(log[..|log| - 1], env);
      AdvanceLook(BoardOf(log[..|log| - 1]), log[|log| - 1], env);
    }
  }

  predicate Finished(records: seq<EnvelopeRecord>) {
    records != [] && records[|records| - 1] in {Result, Discarded}
  }

  /**
    What takeover re-examines, in every run: the unfinished envelopes, and of the finished ones only
    those whose latest observation left processes behind.  A result recorded with an incomplete
    cleanup but no survivors is therefore not looked at again.
   */
  lemma TakeoverExamines(steps: seq<Step>, env: nat)
    requires Run(steps).Some?
    ensures var log := Run(steps).value.log;
            env in Worklist(BoardOf(log)) <==>
              Records(log, env) != [] && (Finished(Records(log, env)) ==> LatestSurvivors(log, env) != [])
  {
    RunKeeps(steps);
    var log := Run(steps).value.log;
    GoodBoard(log);
    WorklistFacts(BoardOf(log));
    LookRecords(log, env);
    LookSurvivors(log, env);
  }

  /** When a new owner's construction returns, every envelope is finished and left no process behind. */
  lemma TakeoverReturns(steps: seq<Step>)
    requires Run(steps + [Do(TakeOver(BeginServing))]).Some?
    ensures var log := Run(steps + [Do(TakeOver(BeginServing))]).value.log;
            forall env :: Records(log, env) != [] ==> Finished(Records(log, env)) && LatestSurvivors(log, env) == []
  {
    var whole := steps + [Do(TakeOver(BeginServing))];
    assert whole[..|whole| - 1] == steps;
    RunKeeps(steps);
    var s := Run(steps).value;
    assert Run(whole).value.log == s.log;
    TakeoverSettles(BoardOf(s.log), s.owner.value);
    forall env | Records(s.log, env) != [] ensures Finished(Records(s.log, env)) && LatestSurvivors(s.log, env) == [] {
      LookRecords(s.log, env);
      LookSurvivors(s.log, env);
      assert Settled(Look(BoardOf(s.log), env));
    }
  }

  /** The move ends the recording of the worklist's first item. */
  predicate Concludes(item: Item, m: Takeover) {
    m.ItemRefuse? || (m.ItemObserve? && item.residue) || m.ItemCommit? || m.ItemDiscard?
  }

  /**
    Takeover raises exactly when what ends an item's recording does not settle it: an incomplete
    cleanup, or no new evidence for a finished envelope.  The item's envelope is finished all the
    same, and the next owner, who can open at once over a log that follows the lifecycle, looks at it
    again exactly when its latest observation left processes behind.
   */
  lemma TakeoverRaises(steps: seq<Step>, m: Takeover, binding: Binding)
    requires Run(steps + [Do(TakeOver(m))]).Some?
    ensures var s, s' := Run(steps).value, Run(steps + [Do(TakeOver(m))]).value;
            && (s'.owner.None? <==>
                  && s.owner.value.phase.Reconciling? && s.owner.value.phase.todo != []
                  && var item := s.owner.value.phase.todo[0];
                     Concludes(item, m) && !(item.observation.cleanupComplete && HasEvidence(item)))
            && (s'.owner.None? ==>
                  var env := s.owner.value.phase.todo[0].envelope;
                  && Finished(Records(s'.log, env))
                  && (env in Worklist(BoardOf(s'.log)) <==> LatestSurvivors(s'.log, env) != [])
                  && Enabled(s', OpenOwner(binding)) && forall other :: Lifecycles(Records(s'.log, other)))
  {
    var whole := steps + [Do(TakeOver(m))];
    assert whole[..|whole| - 1] == steps;
    var s, s' := Run(steps).value, Run(whole).value;
    RunKeeps(steps);
    ConcludedGone(BoardOf(s.log), s.owner.value, m);
    if s'.owner.None? {
      ConcludedFinished(steps, m);
      LookedAtAgain(whole, s.owner.value.phase.todo[0].envelope);
      RunLifecycle(whole);
    }
  }

  lemma ConcludedGone(b: Board, p: Process, m: Takeover)
    requires ProcessInv(b, p) && TakeoverEnabled(b, p, m)
    ensures TakeoverNext(b, p, m).None? <==>
              && p.phase.Reconciling? && p.phase.todo != []
              && var item := p.phase.todo[0];
                 Concludes(item, m) && !(item.observation.cleanupComplete && HasEvidence(item))
  {
    if p.phase.Reconciling? && p.phase.todo != [] {
      assert ItemInv(b, p.phase.todo[0], true);
    }
  }

  lemma LookedAtAgain(steps: seq<Step>, env: nat)
    requires Run(steps).Some? && Finished(Records(Run(steps).value.log, env))
    ensures var log := Run(steps).value.log; env in Worklist(BoardOf(log)) <==> LatestSurvivors(log, env) != []
  {
    TakeoverExamines(steps, env);
  }

  /** The envelope of an item whose recording has ended is finished. */
  lemma ConcludedFinished(steps: seq<Step>, m: Takeover)
    requires Run(steps).Some? && Enabled(Run(steps).value, TakeOver(m))
    requires var p := Run(steps).value.owner.value;
             p.phase.Reconciling? && p.phase.todo != [] && Concludes(p.phase.todo[0], m)
    ensures var s := Run(steps).value;
            Finished(Records(s.log + Events(s, TakeOver(m)), s.owner.value.phase.todo[0].envelope))
  {
    var s := Run(steps).value;
    var item, events := s.owner.value.phase.todo[0], Events(s, TakeOver(m));
    RunKeeps(steps);
    ConcludingRecord(BoardOf(s.log), s.owner.value, m);
    if m.ItemRefuse? || m.ItemObserve? {
      LookRecords(s.log, item.envelope);
      RecordsStay(s.log, events, item.envelope);
    } else {
      LastRecord(s.log, events, item.envelope);
    }
  }

  /** What ends an item's recording: nothing about records of one finished before, else a final record. */
  lemma ConcludingRecord(b: Board, p: Process, m: Takeover)
    requires ProcessInv(b, p) && TakeoverEnabled(b, p, m)
    requires p.phase.Reconciling? && p.phase.todo != [] && Concludes(p.phase.todo[0], m)
    ensures var env, events := p.phase.todo[0].envelope, TakeoverEvents(b, p, m);
            if m.ItemRefuse? || m.ItemObserve?
            then Terminal(Look(b, env)) && forall e :: e in events ==> !e.Envelope?
            else
              events != [] && var last := events[|events| - 1];
              last.Envelope? && last.envelope == env && last.record in {Result, Discarded}
  {
    assert ItemInv(b, p.phase.todo[0], true);
  }

  lemma LastRecord(log: Log, events: Log, env: nat)
    requires events != [] && events[|events| - 1].Envelope? && events[|events| - 1].envelope == env
    ensures Records(log + events, env) != []
    ensures Records(log + events, env)[|Records(log + events, env)| - 1] == events[|events| - 1].record
  {
    var all := log + events;
    assert all[|all| - 1] == events[|events| - 1];
  }

  /** Events that hold no record of an envelope leave its records alone. */
  lemma {:induction false} RecordsStay(log: Log, events: Log, env: nat)
    requires forall e :: e in events ==> !(e.Envelope? && e.envelope == env)
    ensures Records(log + events, env) == Records(log, env)
  {
    if events == [] {
      assert log + events == log;
    } else {
      var before, e := events[..|events| - 1], events[|events| - 1];
      assert e in events;
      RecordsStay(log, before, env);
      assert (log + events)[..|log + events| - 1] == log + before;
      assert Records(log + before, env) + [] == Records(log + before, env);
    }
  }

  // ---------------------------------------------------------------- closing a generation

  /**
    When a close returns normally, every envelope of its generation is fenced, and every one its
    snapshot could see is finished.  What the snapshot could not see is exactly the starts that had
    reserved but not yet registered, and the handles an unexpected error had already removed.
   */
  lemma CloseDrains(steps: seq<Step>, token: nat)
    requires Run(steps).Some? && Enabled(Run(steps).value, CloseCall(token, Return))
    ensures var s := Run(steps).value;
            var closer := s.owner.value.phase.closers[token];
            forall env :: Of(Look(BoardOf(s.log), env), closer.generation) ==>
              && Look(BoardOf(s.log), env).fence != 0
              && (Finished(Records(s.log, env)) || env in closer.snapshot.value.missed)
  {
    RunKeeps(steps);
    var s := Run(steps).value;
    var b, phase := BoardOf(s.log), s.owner.value.phase;
    var closer := phase.closers[token];
    assert CloserInv(b, phase.starting.Keys, closer);
    forall env | Of(Look(b, env), closer.generation)
      ensures Look(b, env).fence != 0 && (Finished(Records(s.log, env)) || env in closer.snapshot.value.missed)
    {
      LookRecords(s.log, env);
      assert Terminal(Look(b, env)) || env in closer.snapshot.value.awaited || env in closer.snapshot.value.missed;
    }
  }

  // ---------------------------------------------------------------- threads that failed

  /** A thread that failed unexpectedly left its envelope unfinished, and nobody works on it any more. */
  predicate AbandonedAt(log: Log, phase: Phase)
    requires phase.Serving?
  {
    forall env :: env in phase.abandoned ==> Unfinished(Records(log, env)) && env !in phase.handles
  }

  lemma {:induction false} SurroundingsQuiet(b: Board, ms: seq<Surrounding>)
    requires SurroundingsEnabled(b, ms)
    ensures forall e :: e in SurroundingEvents(b, ms) ==> e.Generation? || e.Foreign?
    decreases |ms|
  {
    if ms != [] {
      SurroundingsQuiet(Advance(b, SurroundingEvent(b, ms[0])), ms[1..]);
    }
  }

  lemma {:induction false} FencesOnly(b: Board, envs: seq<nat>, generation: string)
    ensures forall e :: e in FenceEvents(b, envs, generation) ==> e.Fenced?
  {
    if envs != [] {
      FencesOnly(b, envs[1..], generation);
    }
  }

  /** No move of a serving process records anything about an envelope that no thread works on. */
  lemma NothingRecorded(s: State, m: Move, env: nat)
    requires Inv(s) && Enabled(s, m) && s.owner.Some? && s.owner.value.phase.Serving?
    requires Known(Look(BoardOf(s.log), env)) && env !in s.owner.value.phase.handles
    ensures forall e :: e in Events(s, m) ==> !(e.Envelope? && e.envelope == env)
  {
    var b := BoardOf(s.log);
    if m.Start? {
      StartRecords(b, s.owner.value, m.request, m.before, m.between);
      GoodBoard(s.log);
      assert ViewInv(b, env);
    } else if m.Thread? {
      ThreadRecords(b, s.owner.value, m.envelope, m.threading);
    } else if m.CloseCall? {
      ClosingRecords(b, m.closing);
    }
  }

  lemma StartRecords(b: Board, p: Process, request: Request, before: seq<Surrounding>, between: seq<Surrounding>)
    requires StartEnabled(b, p, request, before, between)
    ensures forall e :: e in StartEvents(b, p, request, before, between) ==>
              !e.Envelope? || e.envelope == b.reserved + 1
  {
    SurroundingsQuiet(b, before);
    SurroundingsQuiet(Granted(b, request, before), between);
  }

  lemma ThreadRecords(b: Board, p: Process, env: nat, m: Threading)
    requires ThreadEnabled(b, p, env, m)
    ensures forall e :: e in ThreadEvents(b, p, env, m) ==>
              !e.Envelope? || (e.envelope == env && env in p.phase.handles)
  {}

  lemma ClosingRecords(b: Board, m: Closing)
    ensures forall e :: e in ClosingEvents(b, m) ==> !e.Envelope?
  {
    if m.CloseAndFence? {
      var closed := AdvanceAll(b, CloseEvents(b, m.generation));
      FencesOnly(closed, closed.order, m.generation);
    }
  }

  lemma AbandonedKept(s: State, m: Move)
    requires Inv(s) && Enabled(s, m) && s.owner.Some? && s.owner.value.phase.Serving?
    requires AbandonedAt(s.log, s.owner.value.phase)
    ensures Volatile(s, m).Some? && Volatile(s, m).value.phase.Serving?
    ensures AbandonedAt(s.log + Events(s, m), Volatile(s, m).value.phase)
  {
    var phase, phase' := s.owner.value.phase, Volatile(s, m).value.phase;
    forall env | env in phase'.abandoned
      ensures Unfinished(Records(s.log + Events(s, m), env)) && env !in phase'.handles
    {
      StaysAbandoned(s, m, env);
      if env in phase.abandoned {
        LookRecords(s.log, env);
        NothingRecorded(s, m, env);
        RecordsStay(s.log, Events(s, m), env);
      } else {
        HandleUnfinished(s, env);
        assert s.log + Events(s, m) == s.log;
      }
    }
  }

  /** Who is among the failed after a move was there before, or has just failed. */
  lemma StaysAbandoned(s: State, m: Move, env: nat)
    requires Inv(s) && Enabled(s, m) && s.owner.Some? && s.owner.value.phase.Serving?
    requires AbandonedAt(s.log, s.owner.value.phase) && env in Volatile(s, m).value.phase.abandoned
    ensures env !in Volatile(s, m).value.phase.handles
    ensures env !in s.owner.value.phase.abandoned ==> Events(s, m) == [] && env in s.owner.value.phase.handles
  {}

  lemma HandleUnfinished(s: State, env: nat)
    requires Inv(s) && s.owner.Some? && s.owner.value.phase.Serving? && env in s.owner.value.phase.handles
    ensures Unfinished(Records(s.log, env))
  {
    assert HandleInv(BoardOf(s.log), env, s.owner.value.phase.handles[env]);
    LookRecords(s.log, env);
  }

  predicate AbandonedIn(s: State) {
    s.owner.Some? && s.owner.value.phase.Serving? ==> AbandonedAt(s.log, s.owner.value.phase)
  }

  lemma AbandonedStep(s: State, step: Step)
    requires Inv(s) && Possible(s, step) && AbandonedIn(s)
    ensures AbandonedIn(After(s, step))
  {
    if step.Do? && s.owner.Some? && s.owner.value.phase.Serving? {
      AbandonedKept(s, step.move);
    }
  }

  /** In every run what a failed thread leaves behind stays unfinished for as long as its owner serves. */
  lemma {:induction false} AbandonedRun(steps: seq<Step>)
    requires Run(steps).Some?
    ensures AbandonedIn(Run(steps).value)
  {
    if steps != [] {
      var front := steps[..|steps| - 1];
      AbandonedRun(front);
      RunKeeps(front);
      AbandonedStep(Run(front).value, steps[|steps| - 1]);
    }
  }

  /** What a snapshot misses is every unfinished envelope of the generation that has no handle. */
  lemma SnapshotMisses(steps: seq<Step>, token: nat, env: nat)
    requires Run(steps + [Do(CloseCall(token, TakeSnapshot))]).Some?
    ensures var s := Run(steps).value;
            var closer := Run(steps + [Do(CloseCall(token, TakeSnapshot))]).value.owner.value.phase.closers[token];
            && closer.snapshot.Some?
            && (env in closer.snapshot.value.missed <==>
                  && Unfinished(Records(s.log, env)) && Look(BoardOf(s.log), env).who.generation == closer.generation
                  && env !in s.owner.value.phase.handles)
  {
    var whole := steps + [Do(CloseCall(token, TakeSnapshot))];
    assert whole[..|whole| - 1] == steps;
    var s := Run(steps).value;
    var b, phase := BoardOf(s.log), s.owner.value.phase;
    RunKeeps(steps);
    GoodBoard(s.log);
    AbandonedRun(steps);
    LookRecords(s.log, env);
    assert ViewInv(b, env);
    assert env in phase.starting ==> StartInv(b, env, phase.starting[env]);
  }

  // ---------------------------------------------------------------- reserve and register as one step

  predicate IsStart(step: Step) {
    step.Do? && step.move.Start?
  }

  predicate IsRegister(step: Step) {
    step.Do? && step.move.Thread? && step.move.threading.Register?
  }

  /** Every start registers at once. */
  predicate StartsAtOnce(steps: seq<Step>) {
    forall i :: 0 <= i < |steps| - 1 && IsStart(steps[i]) ==> IsRegister(steps[i + 1])
  }

  /** At most one start is between its locks, just after it reserved, so snapshots miss only failed threads. */
  predicate OneStarting(phase: Phase, startedLast: bool)
    requires phase.Serving?
  {
    && (forall env, other :: env in phase.starting && other in phase.starting ==> env == other)
    && (!startedLast ==> phase.starting == map[])
    && (forall token :: token in phase.closers && phase.closers[token].snapshot.Some? ==>
          phase.closers[token].snapshot.value.missed <= phase.abandoned)
  }

  lemma OneStartingKept(s: State, m: Move, startedLast: bool)
    requires Enabled(s, m) && s.owner.Some? && s.owner.value.phase.Serving?
    requires OneStarting(s.owner.value.phase, startedLast)
    requires startedLast ==> m.Thread? && m.threading.Register?
    ensures Volatile(s, m).Some? && Volatile(s, m).value.phase.Serving?
    ensures OneStarting(Volatile(s, m).value.phase, m.Start?)
  {
    var phase, phase' := s.owner.value.phase, Volatile(s, m).value.phase;
    if m.Thread? && m.threading.Register? {
      assert phase.starting - {m.envelope} == map[];
    } else if m.CloseCall? && m.closing.TakeSnapshot? {
      var b, g := BoardOf(s.log), phase.closers[m.token].generation;
      assert OfGeneration(b, phase.starting.Keys + phase.abandoned, g) <= phase.abandoned;
    }
  }

  predicate OneStartingIn(s: State, startedLast: bool) {
    s.owner.Some? && s.owner.value.phase.Serving? ==> OneStarting(s.owner.value.phase, startedLast)
  }

  lemma OneStartingStep(s: State, step: Step, startedLast: bool)
    requires Possible(s, step) && OneStartingIn(s, startedLast) && (startedLast ==> IsRegister(step))
    ensures OneStartingIn(After(s, step), IsStart(step))
  {
    if step.Do? && s.owner.Some? && s.owner.value.phase.Serving? {
      OneStartingKept(s, step.move, startedLast);
    }
  }

  predicate StartedLast(steps: seq<Step>) {
    steps != [] && IsStart(steps[|steps| - 1])
  }

  lemma FollowsLast(steps: seq<Step>)
    requires steps != [] && StartsAtOnce(steps)
    ensures StartsAtOnce(steps[..|steps| - 1])
    ensures StartedLast(steps[..|steps| - 1]) ==> IsRegister(steps[|steps| - 1])
  {
    var k := |steps| - 2;
    assert k >= 0 && IsStart(steps[k]) ==> IsRegister(steps[k + 1]);
  }

  lemma {:induction false} OneStartingRun(steps: seq<Step>)
    requires Run(steps).Some? && StartsAtOnce(steps)
    ensures OneStartingIn(Run(steps).value, StartedLast(steps))
  {
    if steps != [] {
      var front := steps[..|steps| - 1];
      FollowsLast(steps);
      OneStartingRun(front);
      OneStartingStep(Run(front).value, steps[|steps| - 1], StartedLast(front));
    }
  }

  /**
    With reserve and register as one step, a close that returns normally leaves every envelope of its
    generation fenced, and finished exactly when its snapshot did not miss it, which is exactly when
    its thread did not fail.
   */
  lemma CloseExact(steps: seq<Step>, token: nat)
    requires Run(steps).Some? && StartsAtOnce(steps) && Enabled(Run(steps).value, CloseCall(token, Return))
    ensures var s := Run(steps).value;
            var closer := s.owner.value.phase.closers[token];
            forall env :: Of(Look(BoardOf(s.log), env), closer.generation) ==>
              && Look(BoardOf(s.log), env).fence != 0
              && (Finished(Records(s.log, env)) <==> env !in closer.snapshot.value.missed)
              && (Finished(Records(s.log, env)) <==> env !in s.owner.value.phase.abandoned)
  {
    OneStartingRun(steps);
    AbandonedRun(steps);
    CloseDrains(steps, token);
  }

  predicate IsAbandon(step: Step, env: nat) {
    step.Do? && step.move == Thread(env, Abandon)
  }

  /** Only a thread that failed is among the failed. */
  lemma {:induction false} AbandonedByStep(steps: seq<Step>, env: nat)
    requires Run(steps).Some?
    ensures var s := Run(steps).value;
            s.owner.Some? && s.owner.value.phase.Serving? && env in s.owner.value.phase.abandoned ==>
              exists i :: 0 <= i < |steps| && IsAbandon(steps[i], env)
  {
    var s := Run(steps).value;
    if steps != [] && s.owner.Some? && s.owner.value.phase.Serving? && env in s.owner.value.phase.abandoned {
      var front, step := steps[..|steps| - 1], steps[|steps| - 1];
      AbandonedByStep(front, env);
      AbandonedBefore(Run(front).value, step, env);
      if i :| 0 <= i < |front| && IsAbandon(front[i], env) {
        assert IsAbandon(steps[i], env);
      }
    }
  }

  lemma AbandonedBefore(s: State, step: Step, env: nat)
    requires Possible(s, step) && After(s, step).owner.Some? && After(s, step).owner.value.phase.Serving?
    requires env in After(s, step).owner.value.phase.abandoned
    ensures IsAbandon(step, env)
            || (s.owner.Some? && s.owner.value.phase.Serving? && env in s.owner.value.phase.abandoned)
  {}

  /**
    With reserve and register as one step, a close that returns normally leaves every envelope of its
    generation fenced and finished, if no thread of that generation failed.
   */
  lemma CloseDrainsAll(steps: seq<Step>, token: nat)
    requires Run(steps).Some? && StartsAtOnce(steps) && Enabled(Run(steps).value, CloseCall(token, Return))
    requires var s := Run(steps).value;
             forall i, env :: 0 <= i < |steps| && IsAbandon(steps[i], env) ==>
               !Of(Look(BoardOf(s.log), env), s.owner.value.phase.closers[token].generation)
    ensures var s := Run(steps).value;
            var generation := s.owner.value.phase.closers[token].generation;
            forall env :: Of(Look(BoardOf(s.log), env), generation) ==>
              Look(BoardOf(s.log), env).fence != 0 && Finished(Records(s.log, env))
  {
    CloseExact(steps, token);
    var s := Run(steps).value;
    forall env | Of(Look(BoardOf(s.log), env), s.owner.value.phase.closers[token].generation)
      ensures Finished(Records(s.log, env))
    {
      AbandonedByStep(steps, env);
    }
  }

  // ---------------------------------------------------------------- longer runs

  lemma Extend(steps: seq<Step>, s: State, step: Step) returns (longer: seq<Step>, s': State)
    requires Run(steps) == Some(s) && Possible(s, step)
    ensures s' == After(s, step) && Run(longer) == Some(s') && longer == steps + [step]
  {
    longer, s' := steps + [step], After(s, step);
    assert longer[..|longer| - 1] == steps;
  }

  /** An envelope between its two locks is reserved and its generation is known. */
  lemma StartedGate(steps: seq<Step>, s: State, env: nat)
    requires Run(steps) == Some(s) && s.owner.Some? && s.owner.value.phase.Serving?
    requires env in s.owner.value.phase.starting
    ensures var g := s.owner.value.phase.starting[env].who.generation;
            && Records(s.log, env) == [Reserved] && Look(BoardOf(s.log), env).who.generation == g
            && !GateOf(BoardOf(s.log), g).Unknown?
  {
    RunKeeps(steps);
    GoodBoard(s.log);
    LookRecords(s.log, env);
    assert StartInv(BoardOf(s.log), env, s.owner.value.phase.starting[env]);
    assert ViewInv(BoardOf(s.log), env);
  }
}
