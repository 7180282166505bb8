/**
  What the executor's records say: every RESULT, DISCARDED and process observation of every run
  carries what was reported about its envelope by the steps of the run, and nothing else.

  A report is made once per envelope and owner: by a thread whose preparation failed or whose launch
  returned, or by the survey of a takeover.
 */
module ExecutorReports {
  import opened Prelude
  import opened ExecutorLog
  import opened ExecutorProtocol
  import opened ExecutorInvariant
  import opened ExecutorTheorems

  // ---------------------------------------------------------------- what the steps of a run report

  /** The first place of `env` in the list, or its length. */
  function Place(envs: seq<nat>, env: nat): (i: nat)
    ensures i <= |envs| && (i < |envs| ==> envs[i] == env)
    ensures forall j :: 0 <= j < i ==> envs[j] != env
  {
    if envs == [] || envs[0] == env then 0
    else
      var rest := Place(envs[1..], env);
      assert forall j :: 1 <= j < |envs| ==> envs[j] == envs[1..][j - 1];
      rest + 1
  }

  /** What one step reports about an envelope, given whether it was cancelled before. */
  function Said(s: State, step: Step, cancelled: bool, env: nat): Option<Observation> {
    match step
    case Crash(_, _) => None
    case Do(m) =>
      if m == Thread(env, PrepareFails) then Some(Observation(LaunchFailed, "", true, None))
      else if m.Thread? && m.envelope == env && m.threading.LaunchReturns? then
        var o := m.threading.observation;
        Some(if cancelled && o.outcome == Exited then o.(outcome := Cancelled) else o)
      else if m.TakeOver? && m.takeover.Survey? then
        var i := Place(Worklist(BoardOf(s.log)), env);
        if i < |m.takeover.observations| then Some(m.takeover.observations[i]) else None
      else None
  }

  ghost predicate CancelledIn(steps: seq<Step>, env: nat) {
    exists i :: 0 <= i < |steps| && steps[i] == Do(Thread(env, Cancel))
  }

  ghost predicate PreparedIn(steps: seq<Step>, env: nat, cgroup: string) {
    exists i :: 0 <= i < |steps| && steps[i] == Do(Thread(env, PrepareReturns(cgroup)))
  }

  /** The last report about an envelope made under the n-th owner. */
  ghost function Reported(steps: seq<Step>, n: nat, env: nat): Option<Observation> {
    if steps == [] then None
    else
      var front, step := steps[..|steps| - 1], steps[|steps| - 1];
      if Run(front).Some? && BoardOf(Run(front).value.log).owners == n
         && Said(Run(front).value, step, CancelledIn(front, env), env).Some?
      then Said(Run(front).value, step, CancelledIn(front, env), env)
      else Reported(front, n, env)
  }

  // ---------------------------------------------------------------- what the log tells

  /** The event says what came of an envelope. */
  predicate IsReport(e: Event) {
    e.Observed? || (e.Envelope? && e.record in {Result, Discarded})
  }

  /** It says what the observation says. */
  predicate Tells(e: Event, o: Observation)
    requires IsReport(e)
  {
    if e.Observed? then o.lifecycle == Some(e.lifecycle)
    else
      && e.cgroup == o.cgroup && e.cleanupComplete == o.cleanupComplete
      && e.outcome == if e.record == Result then Some(o.outcome) else None
  }

  /** What a run has reported, whom it cancelled, and which cgroups were prepared. */
  datatype History = History(reports: (nat, nat) -> Option<Observation>, cancelled: nat -> bool,
                             prepared: (nat, string) -> bool)

  ghost function HistoryOf(steps: seq<Step>): History {
    History((n: nat, env: nat) => Reported(steps, n, env), (env: nat) => CancelledIn(steps, env),
            (env: nat, cgroup: string) => PreparedIn(steps, env, cgroup))
  }

  ghost predicate EventTold(e: Event, h: History) {
    && (IsReport(e) ==> h.reports(e.epoch, e.envelope).Some? && Tells(e, h.reports(e.epoch, e.envelope).value))
    && (IsRecord(e, Launched) ==> h.prepared(e.envelope, e.cgroup))
  }

  ghost predicate EventsTold(log: Log, h: History) {
    forall k :: 0 <= k < |log| ==> EventTold(log[k], h)
  }

  /** The envelope was reserved by the n-th owner. */
  predicate ReservedIn(log: Log, env: nat, n: nat) {
    exists k :: 0 <= k < |log| && IsRecord(log[k], Reserved) && log[k].envelope == env && log[k].epoch == n
  }

  // ---------------------------------------------------------------- what a run keeps

  /** A handle stands where the reports about its envelope say. */
  ghost predicate HandleTold(log: Log, n: nat, env: nat, handle: Handle, h: History) {
    && ReservedIn(log, env, n)
    && h.reports(n, env) == (if handle.pc.Recording? then Some(handle.pc.observation) else None)
    && h.cancelled(env) == handle.cancelled
    && (handle.pc.Prepared? ==> h.prepared(env, handle.pc.cgroup))
  }

  ghost predicate StartTold(log: Log, n: nat, env: nat, h: History) {
    ReservedIn(log, env, n) && h.reports(n, env) == None && !h.cancelled(env)
  }

  ghost predicate PhaseTold(log: Log, n: nat, phase: Phase, h: History) {
    match phase
    case Opening => forall env :: h.reports(n, env) == None
    case Reconciling(todo) =>
      forall i :: 0 <= i < |todo| ==> h.reports(n, todo[i].envelope) == Some(todo[i].observation)
    case Serving(starting, handles, _, _) =>
      && (forall env :: env in starting ==> StartTold(log, n, env, h))
      && (forall env :: env in handles ==> HandleTold(log, n, env, handles[env], h))
  }

  /** Nothing was reported under owners yet to come, nor about envelopes yet to be reserved. */
  ghost predicate NothingAhead(owners: nat, reserved: nat, h: History) {
    && (forall n, env :: n > owners ==> h.reports(n, env) == None)
    && (forall n, env :: env > reserved ==> h.reports(n, env) == None)
    && (forall env :: env > reserved ==> !h.cancelled(env))
  }

  /** Only the owner that reserved an envelope reports anything but a reconciliation. */
  ghost predicate Sourced(log: Log, h: History) {
    forall n, env :: h.reports(n, env).Some? && !ReservedIn(log, env, n) ==>
      h.reports(n, env).value.outcome == Reconciled
  }

  ghost predicate Tracks(s: State, h: History) {
    var b := BoardOf(s.log);
    && NothingAhead(b.owners, b.reserved, h) && EventsTold(s.log, h) && Sourced(s.log, h)
    && (s.owner.Some? ==> PhaseTold(s.log, b.owners, s.owner.value.phase, h))
  }

  /** How one step adds to the history. */
  ghost predicate Follows(s: State, step: Step, h: History, h': History) {
    && (forall n, env :: h'.reports(n, env)
                         == if n == BoardOf(s.log).owners && Said(s, step, h.cancelled(env), env).Some?
                            then Said(s, step, h.cancelled(env), env) else h.reports(n, env))
    && (forall env :: h'.cancelled(env) == (h.cancelled(env) || step == Do(Thread(env, Cancel))))
    && (forall env, cgroup ::
          h'.prepared(env, cgroup) == (h.prepared(env, cgroup) || step == Do(Thread(env, PrepareReturns(cgroup)))))
  }

  lemma HistoryFollows(steps: seq<Step>, step: Step)
    requires Run(steps).Some?
    ensures Follows(Run(steps).value, step, HistoryOf(steps), HistoryOf(steps + [step]))
  {
    var longer := steps + [step];
    assert longer[..|longer| - 1] == steps && longer[|longer| - 1] == step;
    forall env ensures CancelledIn(longer, env) == (CancelledIn(steps, env) || step == Do(Thread(env, Cancel))) {
      StepIn(steps, step, Do(Thread(env, Cancel)));
    }
    forall env, cgroup
      ensures PreparedIn(longer, env, cgroup)
              == (PreparedIn(steps, env, cgroup) || step == Do(Thread(env, PrepareReturns(cgroup))))
    {
      StepIn(steps, step, Do(Thread(env, PrepareReturns(cgroup))));
    }
  }

  lemma StepIn(steps: seq<Step>, step: Step, x: Step)
    ensures (exists i :: 0 <= i < |steps + [step]| && (steps + [step])[i] == x) <==>
            (exists i :: 0 <= i < |steps| && steps[i] == x) || step == x
  {
    var longer := steps + [step];
    if i :| 0 <= i < |steps| && steps[i] == x {
      assert longer[i] == x;
    }
    if step == x {
      assert longer[|steps|] == x;
    }
  }

  // ---------------------------------------------------------------- what one step reports is new

  lemma HandleKnown(s: State, env: nat)
    requires Inv(s) && s.owner.Some? && s.owner.value.phase.Serving? && env in s.owner.value.phase.handles
    ensures env <= BoardOf(s.log).reserved
  {
    var b := BoardOf(s.log);
    GoodBoard(s.log);
    assert HandleInv(b, env, s.owner.value.phase.handles[env]);
    assert ViewInv(b, env);
  }

  lemma SurveyKnown(s: State, env: nat)
    requires Inv(s) && env in Worklist(BoardOf(s.log))
    ensures env <= BoardOf(s.log).reserved
  {
    GoodBoard(s.log);
    WorklistFacts(BoardOf(s.log));
    assert ViewInv(BoardOf(s.log), env);
  }

  /** A report is the first on its envelope under its owner; who did not reserve it only reconciles. */
  lemma SaidNew(s: State, step: Step, h: History, env: nat)
    requires Inv(s) && Possible(s, step) && Tracks(s, h) && Said(s, step, h.cancelled(env), env).Some?
    ensures h.reports(BoardOf(s.log).owners, env) == None && env <= BoardOf(s.log).reserved
    ensures ReservedIn(s.log, env, BoardOf(s.log).owners)
            || Said(s, step, h.cancelled(env), env).value.outcome == Reconciled
  {
    var b, m := BoardOf(s.log), step.move;
    if m.Thread? {
      HandleKnown(s, env);
      assert HandleTold(s.log, b.owners, env, s.owner.value.phase.handles[env], h);
    } else {
      var i := Place(Worklist(b), env);
      assert Worklist(b)[i] == env;
      SurveyKnown(s, env);
      assert ReconcileReports(Look(b, Worklist(b)[i]).cgroup, m.takeover.observations[i]);
    }
  }

  // ---------------------------------------------------------------- what one move writes

  /** Whose observation a move records. */
  function Reporting(s: State, m: Move): Option<(nat, Observation)>
    requires Enabled(s, m)
  {
    if m.TakeOver? && (m.takeover.ItemObserve? || m.takeover.ItemCommit? || m.takeover.ItemDiscard?) then
      var item := s.owner.value.phase.todo[0];
      Some((item.envelope, item.observation))
    else if m.Thread? && (m.threading.Observe? || m.threading.Commit? || m.threading.Discard?) then
      Some((m.envelope, s.owner.value.phase.handles[m.envelope].pc.observation))
    else None
  }

  /** What a move may write: reports of the observation it records, and launches of the cgroup that was prepared. */
  predicate Written(s: State, m: Move, e: Event)
    requires Enabled(s, m)
  {
    && (e.OwnerOpened? ==> m.OpenOwner?)
    && (IsReport(e) ==>
          && Reporting(s, m).Some? && e.envelope == Reporting(s, m).value.0 && e.epoch == BoardOf(s.log).owners
          && Tells(e, Reporting(s, m).value.1))
    && (IsRecord(e, Launched) ==>
          && m == Thread(e.envelope, Launch) && e.cgroup == s.owner.value.phase.handles[e.envelope].pc.cgroup)
  }

  lemma StartWrites(s: State, m: Move)
    requires Enabled(s, m) && m.Start?
    ensures forall e :: e in Events(s, m) ==> Written(s, m, e)
  {
    var b := BoardOf(s.log);
    SurroundingsQuiet(b, m.before);
    SurroundingsQuiet(Granted(b, m.request, m.before), m.between);
  }

  lemma CloseWrites(s: State, m: Move)
    requires Enabled(s, m) && m.CloseCall?
    ensures forall e :: e in Events(s, m) ==> Written(s, m, e)
  {
    if m.closing.CloseAndFence? {
      var b := BoardOf(s.log);
      var closed := AdvanceAll(b, CloseEvents(b, m.closing.generation));
      FencesOnly(closed, closed.order, m.closing.generation);
    }
  }

  lemma TakeoverWrites(s: State, m: Move)
    requires Enabled(s, m) && m.TakeOver?
    ensures forall e :: e in Events(s, m) ==> Written(s, m, e)
  {}

  lemma ThreadWrites(s: State, m: Move)
    requires Enabled(s, m) && m.Thread?
    ensures forall e :: e in Events(s, m) ==> Written(s, m, e)
  {}

  lemma MoveWrites(s: State, m: Move)
    requires Enabled(s, m)
    ensures forall e :: e in Events(s, m) ==> Written(s, m, e)
  {
    match m
    case Start(_, _, _) => StartWrites(s, m);
    case CloseCall(_, _) => CloseWrites(s, m);
    case TakeOver(_) => TakeoverWrites(s, m);
    case Thread(_, _) => ThreadWrites(s, m);
    case Around(_) =>
    case OpenOwner(_) =>
  }

  /** What is written was reported. */
  lemma WritesTold(s: State, m: Move, h: History, e: Event)
    requires Inv(s) && Enabled(s, m) && Tracks(s, h) && e in Events(s, m)
    ensures EventTold(e, h)
  {
    MoveWrites(s, m);
    assert Written(s, m, e);
    if IsReport(e) {
      if m.Thread? {
        assert HandleTold(s.log, BoardOf(s.log).owners, e.envelope, s.owner.value.phase.handles[e.envelope], h);
      }
    }
    if IsRecord(e, Launched) {
      assert HandleTold(s.log, BoardOf(s.log).owners, e.envelope, s.owner.value.phase.handles[e.envelope], h);
    }
  }

  // ---------------------------------------------------------------- every step keeps it

  lemma {:induction false} CountsGrow(log: Log, events: Log)
    ensures BoardOf(log).owners <= BoardOf(log + events).owners
    ensures BoardOf(log).reserved <= BoardOf(log + events).reserved
    ensures (forall e :: e in events ==> !e.OwnerOpened?) ==> BoardOf(log + events).owners == BoardOf(log).owners
  {
    if events == [] {
      assert log + events == log;
    } else {
      var front, last := events[..|events| - 1], events[|events| - 1];
      CountsGrow(log, front);
      assert log + events == (log + front) + [last] && last in events;
      AppendOne(log + front, last);
    }
  }

  lemma ReservedStays(log: Log, events: Log, env: nat, n: nat)
    requires ReservedIn(log, env, n)
    ensures ReservedIn(log + events, env, n)
  {
    var k :| 0 <= k < |log| && IsRecord(log[k], Reserved) && log[k].envelope == env && log[k].epoch == n;
    assert (log + events)[k] == log[k];
  }

  lemma ToldStays(s: State, step: Step, h: History, h': History, e: Event)
    requires Inv(s) && Possible(s, step) && Tracks(s, h) && Follows(s, step, h, h') && EventTold(e, h)
    ensures EventTold(e, h')
  {
    if IsReport(e) && Said(s, step, h.cancelled(e.envelope), e.envelope).Some? {
      SaidNew(s, step, h, e.envelope);
    }
  }

  /** The history after a step still fits the longer log. */
  lemma LogTracks(s: State, step: Step, h: History, h': History, events: Log)
    requires Inv(s) && Possible(s, step) && Tracks(s, h) && Follows(s, step, h, h')
    requires forall e :: e in events ==> e in Events(s, step.move)
    ensures EventsTold(s.log + events, h') && Sourced(s.log + events, h')
    ensures NothingAhead(BoardOf(s.log + events).owners, BoardOf(s.log + events).reserved, h')
  {
    var log := s.log + events;
    forall k | 0 <= k < |log| ensures EventTold(log[k], h') {
      if k < |s.log| {
        assert EventTold(s.log[k], h);
      } else {
        assert log[k] in events;
        WritesTold(s, step.move, h, log[k]);
      }
      ToldStays(s, step, h, h', log[k]);
    }
    SourcedStays(s, step, h, h', events);
    AheadStays(s, step, h, h', events);
  }

  lemma SourcedStays(s: State, step: Step, h: History, h': History, events: Log)
    requires Inv(s) && Possible(s, step) && Tracks(s, h) && Follows(s, step, h, h')
    ensures Sourced(s.log + events, h')
  {
    var log := s.log + events;
    forall n, env | h'.reports(n, env).Some? && !ReservedIn(log, env, n)
      ensures h'.reports(n, env).value.outcome == Reconciled
    {
      if ReservedIn(s.log, env, n) {
        ReservedStays(s.log, events, env, n);
      }
      if n == BoardOf(s.log).owners && Said(s, step, h.cancelled(env), env).Some? {
        SaidNew(s, step, h, env);
      }
    }
  }

  lemma AheadStays(s: State, step: Step, h: History, h': History, events: Log)
    requires Inv(s) && Possible(s, step) && Tracks(s, h) && Follows(s, step, h, h')
    ensures NothingAhead(BoardOf(s.log + events).owners, BoardOf(s.log + events).reserved, h')
  {
    CountsGrow(s.log, events);
    var b := BoardOf(s.log);
    forall n, env | n > b.owners ensures h'.reports(n, env) == None {
      assert h.reports(n, env) == None;
    }
    forall n, env | env > b.reserved ensures h'.reports(n, env) == None {
      assert h.reports(n, env) == None;
      if Said(s, step, h.cancelled(env), env).Some? {
        SaidNew(s, step, h, env);
      }
    }
    forall env | env > b.reserved ensures !h'.cancelled(env) {
      if step == Do(Thread(env, Cancel)) {
        HandleKnown(s, env);
      }
    }
  }

  // ---------------------------------------------------------------- and the process

  lemma SameOwners(s: State, m: Move)
    requires Enabled(s, m) && !m.OpenOwner?
    ensures BoardOf(s.log + Events(s, m)).owners == BoardOf(s.log).owners
  {
    MoveWrites(s, m);
    forall e | e in Events(s, m) ensures !e.OwnerOpened? {
      assert Written(s, m, e);
    }
    CountsGrow(s.log, Events(s, m));
  }

  /** The step says and cancels nothing about this envelope. */
  predicate Silent(s: State, step: Step, env: nat) {
    step != Do(Thread(env, Cancel)) && Said(s, step, false, env).None? && Said(s, step, true, env).None?
  }

  lemma HandlesStay(s: State, step: Step, h: History, h': History, handles: map<nat, Handle>, events: Log)
    requires Follows(s, step, h, h')
    requires forall env :: env in handles ==>
               HandleTold(s.log, BoardOf(s.log).owners, env, handles[env], h) && Silent(s, step, env)
    ensures forall env :: env in handles ==>
              HandleTold(s.log + events, BoardOf(s.log).owners, env, handles[env], h')
  {
    forall env | env in handles ensures HandleTold(s.log + events, BoardOf(s.log).owners, env, handles[env], h') {
      assert Silent(s, step, env);
      ReservedStays(s.log, events, env, BoardOf(s.log).owners);
    }
  }

  lemma StartsStay(s: State, step: Step, h: History, h': History, starting: map<nat, Request>, events: Log)
    requires Follows(s, step, h, h')
    requires forall env :: env in starting ==>
               StartTold(s.log, BoardOf(s.log).owners, env, h) && Silent(s, step, env)
    ensures forall env :: env in starting ==> StartTold(s.log + events, BoardOf(s.log).owners, env, h')
  {
    forall env | env in starting ensures StartTold(s.log + events, BoardOf(s.log).owners, env, h') {
      assert Silent(s, step, env);
      ReservedStays(s.log, events, env, BoardOf(s.log).owners);
    }
  }

  /** A move that is about no one envelope leaves all of them alone. */
  lemma QuietSilent(s: State, m: Move, env: nat)
    requires m.Around? || m.CloseCall? || m.Start? || (m.Thread? && m.envelope != env)
    ensures Silent(s, Do(m), env)
  {}

  lemma PhaseStays(s: State, m: Move, h: History, h': History, phase: Phase, events: Log)
    requires m.Around? || m.CloseCall? || m.Start?
    requires Follows(s, Do(m), h, h') && PhaseTold(s.log, BoardOf(s.log).owners, phase, h)
    ensures PhaseTold(s.log + events, BoardOf(s.log).owners, phase, h')
  {
    forall env ensures Silent(s, Do(m), env) {
      QuietSilent(s, m, env);
    }
    if phase.Serving? {
      HandlesStay(s, Do(m), h, h', phase.handles, events);
      StartsStay(s, Do(m), h, h', phase.starting, events);
    }
  }

  /** Surroundings and closes leave the phase's handles and worklist alone. */
  lemma QuietTold(s: State, m: Move, h: History, h': History)
    requires Enabled(s, m) && (m.Around? || m.CloseCall?) && s.owner.Some? && Tracks(s, h) && Follows(s, Do(m), h, h')
    ensures PhaseTold(s.log + Events(s, m), BoardOf(s.log).owners, Volatile(s, m).value.phase, h')
  {
    PhaseStays(s, m, h, h', s.owner.value.phase, Events(s, m));
  }

  lemma StartToldNew(s: State, m: Move, h: History, h': History)
    requires Enabled(s, m) && m.Start? && Tracks(s, h) && Follows(s, Do(m), h, h')
    ensures PhaseTold(s.log + Events(s, m), BoardOf(s.log).owners, Volatile(s, m).value.phase, h')
  {
    var b, log := BoardOf(s.log), s.log + Events(s, m);
    PhaseStays(s, m, h, h', s.owner.value.phase, Events(s, m));
    assert log[|log| - 1] == ReservedEvent(b, s.owner.value.binding, m.request);
    assert ReservedIn(log, b.reserved + 1, b.owners);
    QuietSilent(s, m, b.reserved + 1);
    assert StartTold(log, b.owners, b.reserved + 1, h');
  }

  /** A handle's own move takes it where its report says. */
  lemma HandleMoves(s: State, env: nat, m: Threading, handle: Handle, h: History, h': History, events: Log)
    requires Follows(s, Do(Thread(env, m)), h, h') && HandleTold(s.log, BoardOf(s.log).owners, env, handle, h)
    requires HandleEnabled(BoardOf(s.log), env, handle, m) && HandleNext(handle, m).Some?
    ensures HandleTold(s.log + events, BoardOf(s.log).owners, env, HandleNext(handle, m).value, h')
  {
    ReservedStays(s.log, events, env, BoardOf(s.log).owners);
    var n, step := BoardOf(s.log).owners, Do(Thread(env, m));
    assert h'.reports(n, env)
           == if Said(s, step, h.cancelled(env), env).Some? then Said(s, step, h.cancelled(env), env)
              else h.reports(n, env);
    assert h'.cancelled(env) == (h.cancelled(env) || m == Cancel);
    if m.PrepareReturns? {
      assert h'.prepared(env, m.cgroup);
    }
  }

  lemma RegisterMoves(s: State, env: nat, h: History, h': History, request: Request, events: Log)
    requires Follows(s, Do(Thread(env, Register)), h, h') && StartTold(s.log, BoardOf(s.log).owners, env, h)
    ensures HandleTold(s.log + events, BoardOf(s.log).owners, env, Handle(request, false, Preparing), h')
  {
    ReservedStays(s.log, events, env, BoardOf(s.log).owners);
  }

  /** A thread's step leaves every other envelope alone. */
  lemma OthersTold(s: State, env: nat, m: Threading, h: History, h': History, events: Log)
    requires Tracks(s, h) && Follows(s, Do(Thread(env, m)), h, h') && s.owner.Some? && s.owner.value.phase.Serving?
    ensures var phase, n := s.owner.value.phase, BoardOf(s.log).owners;
            && (forall other :: other in phase.starting && other != env ==> StartTold(s.log + events, n, other, h'))
            && (forall other :: other in phase.handles && other != env ==>
                  HandleTold(s.log + events, n, other, phase.handles[other], h'))
  {
    var step, phase := Do(Thread(env, m)), s.owner.value.phase;
    forall other | other != env ensures Silent(s, step, other) {
      QuietSilent(s, Thread(env, m), other);
    }
    HandlesStay(s, step, h, h', phase.handles - {env}, events);
    StartsStay(s, step, h, h', phase.starting - {env}, events);
    forall other | other in phase.starting && other != env
      ensures StartTold(s.log + events, BoardOf(s.log).owners, other, h')
    {
      assert other in phase.starting - {env};
    }
    forall other | other in phase.handles && other != env
      ensures HandleTold(s.log + events, BoardOf(s.log).owners, other, phase.handles[other], h')
    {
      assert other in phase.handles - {env} && (phase.handles - {env})[other] == phase.handles[other];
    }
  }

  lemma RegisterTold(s: State, env: nat, h: History, h': History, events: Log)
    requires Inv(s) && Enabled(s, Thread(env, Register)) && Tracks(s, h)
    requires Follows(s, Do(Thread(env, Register)), h, h')
    ensures PhaseTold(s.log + events, BoardOf(s.log).owners, ThreadNext(s.owner.value, env, Register).phase, h')
  {
    OthersTold(s, env, Register, h, h', events);
    assert StartTold(s.log, BoardOf(s.log).owners, env, h);
    RegisterMoves(s, env, h, h', s.owner.value.phase.starting[env], events);
  }

  lemma HandleActs(s: State, env: nat, m: Threading, h: History, h': History, events: Log)
    requires Inv(s) && Enabled(s, Thread(env, m)) && !m.Register? && Tracks(s, h)
    requires Follows(s, Do(Thread(env, m)), h, h')
    ensures PhaseTold(s.log + events, BoardOf(s.log).owners, ThreadNext(s.owner.value, env, m).phase, h')
  {
    var phase := s.owner.value.phase;
    OthersTold(s, env, m, h, h', events);
    assert env !in phase.starting;
    assert HandleTold(s.log, BoardOf(s.log).owners, env, phase.handles[env], h);
    if HandleNext(phase.handles[env], m).Some? {
      HandleMoves(s, env, m, phase.handles[env], h, h', events);
    }
  }

  lemma ThreadTold(s: State, env: nat, m: Threading, h: History, h': History, events: Log)
    requires Inv(s) && Enabled(s, Thread(env, m)) && Tracks(s, h) && Follows(s, Do(Thread(env, m)), h, h')
    ensures PhaseTold(s.log + events, BoardOf(s.log).owners, ThreadNext(s.owner.value, env, m).phase, h')
  {
    if m.Register? {
      RegisterTold(s, env, h, h', events);
    } else {
      HandleActs(s, env, m, h, h', events);
    }
  }

  lemma SurveyPlace(s: State, i: nat)
    requires Inv(s) && i < |Worklist(BoardOf(s.log))|
    ensures Place(Worklist(BoardOf(s.log)), Worklist(BoardOf(s.log))[i]) == i
  {
    GoodBoard(s.log);
    WorklistFacts(BoardOf(s.log));
  }

  /** The worklist's items hold what the survey reported. */
  lemma SurveyTold(s: State, m: Move, h: History, h': History, i: nat)
    requires Inv(s) && Enabled(s, m) && m.TakeOver? && m.takeover.Survey? && Follows(s, Do(m), h, h')
    requires i < |Worklist(BoardOf(s.log))|
    ensures h'.reports(BoardOf(s.log).owners, Worklist(BoardOf(s.log))[i]) == Some(m.takeover.observations[i])
  {
    SurveyPlace(s, i);
  }

  lemma TakeoverTold(s: State, m: Move, h: History, h': History)
    requires Inv(s) && Enabled(s, m) && m.TakeOver? && Volatile(s, m).Some?
    requires Tracks(s, h) && Follows(s, Do(m), h, h')
    ensures PhaseTold(s.log + Events(s, m), BoardOf(s.log).owners, Volatile(s, m).value.phase, h')
  {
    if m.takeover.Survey? {
      forall i: nat | i < |Worklist(BoardOf(s.log))|
        ensures h'.reports(BoardOf(s.log).owners, Worklist(BoardOf(s.log))[i]) == Some(m.takeover.observations[i])
      {
        SurveyTold(s, m, h, h', i);
      }
    } else {
      ItemsTold(s, m, h, h');
    }
  }

  /** Recording an item changes no report. */
  lemma ItemsTold(s: State, m: Move, h: History, h': History)
    requires Enabled(s, m) && m.TakeOver? && !m.takeover.Survey? && Volatile(s, m).Some?
    requires Tracks(s, h) && Follows(s, Do(m), h, h')
    ensures PhaseTold(s.log + Events(s, m), BoardOf(s.log).owners, Volatile(s, m).value.phase, h')
  {
    var n, todo := BoardOf(s.log).owners, s.owner.value.phase.todo;
    forall i | 0 <= i < |todo| ensures h'.reports(n, todo[i].envelope) == Some(todo[i].observation) {
      assert h.reports(n, todo[i].envelope) == Some(todo[i].observation);
    }
  }

  lemma StepTracks(s: State, step: Step, h: History, h': History)
    requires Inv(s) && Possible(s, step) && Tracks(s, h) && Follows(s, step, h, h')
    ensures Tracks(After(s, step), h')
  {
    var m := step.move;
    if step.Crash? {
      LogTracks(s, step, h, h', Events(s, m)[..step.kept]);
    } else {
      LogTracks(s, step, h, h', Events(s, m));
      if Volatile(s, m).Some? {
        PhaseTracks(s, m, h, h');
      }
    }
  }

  lemma PhaseTracks(s: State, m: Move, h: History, h': History)
    requires Inv(s) && Enabled(s, m) && Tracks(s, h) && Follows(s, Do(m), h, h') && Volatile(s, m).Some?
    ensures PhaseTold(s.log + Events(s, m), BoardOf(s.log + Events(s, m)).owners, Volatile(s, m).value.phase, h')
  {
    if m.OpenOwner? {
      AppendOne(s.log, OwnerOpened(BoardOf(s.log).owners + 1));
    } else {
      SameOwners(s, m);
      match m
      case Around(_) => QuietTold(s, m, h, h');
      case CloseCall(_, _) => QuietTold(s, m, h, h');
      case TakeOver(_) => TakeoverTold(s, m, h, h');
      case Start(_, _, _) => StartToldNew(s, m, h, h');
      case Thread(env, threading) => ThreadTold(s, env, threading, h, h', Events(s, m));
      case OpenOwner(_) =>
    }
  }

  /** The reports of a run and its log fit together, in every run. */
  lemma {:induction false} RunTracks(steps: seq<Step>)
    requires Run(steps).Some?
    ensures Tracks(Run(steps).value, HistoryOf(steps))
  {
    if steps != [] {
      var front, step := steps[..|steps| - 1], steps[|steps| - 1];
      assert steps == front + [step];
      RunTracks(front);
      RunKeeps(front);
      HistoryFollows(front, step);
      StepTracks(Run(front).value, step, HistoryOf(front), HistoryOf(steps));
    }
  }

  // ---------------------------------------------------------------- what every run shows

  /** Every result, discard and process observation tells exactly what was reported under the owner that wrote it. */
  lemma RunTells(steps: seq<Step>, k: nat)
    requires Run(steps).Some? && k < |Run(steps).value.log| && IsReport(Run(steps).value.log[k])
    ensures var e := Run(steps).value.log[k];
            Reported(steps, e.epoch, e.envelope).Some? && Tells(e, Reported(steps, e.epoch, e.envelope).value)
  {
    RunTracks(steps);
    assert EventTold(Run(steps).value.log[k], HistoryOf(steps));
  }

  /** Every launch names a cgroup that was prepared for its envelope. */
  lemma RunLaunches(steps: seq<Step>, k: nat)
    requires Run(steps).Some? && k < |Run(steps).value.log| && IsRecord(Run(steps).value.log[k], Launched)
    ensures PreparedIn(steps, Run(steps).value.log[k].envelope, Run(steps).value.log[k].cgroup)
  {
    RunTracks(steps);
    assert EventTold(Run(steps).value.log[k], HistoryOf(steps));
  }

  /** A report stands for the rest of the run: nothing later reports on the same envelope under the same owner. */
  lemma {:induction false} ReportStands(steps: seq<Step>, j: nat, env: nat)
    requires Run(steps).Some? && j < |steps| && Run(steps[..j]).Some?
    requires Said(Run(steps[..j]).value, steps[j], CancelledIn(steps[..j], env), env).Some?
    ensures Reported(steps, BoardOf(Run(steps[..j]).value.log).owners, env)
            == Said(Run(steps[..j]).value, steps[j], CancelledIn(steps[..j], env), env)
  {
    var front, last := steps[..|steps| - 1], steps[|steps| - 1];
    if j == |steps| - 1 {
      assert steps[..j] == front;
    } else {
      assert front[..j] == steps[..j];
      ReportStands(front, j, env);
      RunTracks(front);
      RunKeeps(front);
      if Said(Run(front).value, last, CancelledIn(front, env), env).Some? {
        SaidNew(Run(front).value, last, HistoryOf(front), env);
      }
    }
  }

  lemma {:induction false} LogGrows(steps: seq<Step>, j: nat)
    requires Run(steps).Some? && j <= |steps|
    ensures Run(steps[..j]).Some? && Run(steps[..j]).value.log <= Run(steps).value.log
  {
    if j == |steps| {
      assert steps[..j] == steps;
    } else {
      LogGrows(steps[..|steps| - 1], j);
      assert steps[..|steps| - 1][..j] == steps[..j];
    }
  }

  lemma {:induction false} StepPossible(steps: seq<Step>, j: nat)
    requires Run(steps).Some? && j < |steps|
    ensures Run(steps[..j]).Some? && Possible(Run(steps[..j]).value, steps[j])
  {
    var front := steps[..|steps| - 1];
    if j == |steps| - 1 {
      assert steps[..j] == front;
    } else {
      StepPossible(front, j);
      assert front[..j] == steps[..j] && front[j] == steps[j];
    }
  }

  /** An envelope is reserved by one owner only. */
  lemma OneReservation(log: Log, env: nat, n: nat, m: nat)
    requires Good(log) && ReservedIn(log, env, n) && ReservedIn(log, env, m)
    ensures n == m
  {
    var i :| 0 <= i < |log| && IsRecord(log[i], Reserved) && log[i].envelope == env && log[i].epoch == n;
    var k :| 0 <= k < |log| && IsRecord(log[k], Reserved) && log[k].envelope == env && log[k].epoch == m;
    if i < k {
      IdentitiesDistinct(log, i, k);
    } else if k < i {
      IdentitiesDistinct(log, k, i);
    }
  }

  lemma ReservedThen(early: Log, log: Log, env: nat, m: nat, n: nat)
    requires early <= log && Good(log) && ReservedIn(early, env, m)
    ensures ReservedIn(log, env, n) <==> n == m
  {
    assert log == early + log[|early|..];
    ReservedStays(early, log[|early|..], env, m);
    if ReservedIn(log, env, n) {
      OneReservation(log, env, n, m);
    }
  }

  /** A thread works under the owner that reserved its envelope. */
  lemma ReservedHere(steps: seq<Step>, step: Step)
    requires Run(steps).Some? && Possible(Run(steps).value, step) && step.move.Thread?
    requires !step.move.threading.Register?
    ensures ReservedIn(Run(steps).value.log, step.move.envelope, BoardOf(Run(steps).value.log).owners)
  {
    RunTracks(steps);
    var s, env := Run(steps).value, step.move.envelope;
    assert HandleTold(s.log, BoardOf(s.log).owners, env, s.owner.value.phase.handles[env], HistoryOf(steps));
  }

  lemma ReservedOnce(steps: seq<Step>, j: nat, n: nat)
    requires Run(steps).Some? && j < |steps| && steps[j].move.Thread? && !steps[j].move.threading.Register?
    requires Run(steps[..j]).Some?
    ensures ReservedIn(Run(steps).value.log, steps[j].move.envelope, n) <==>
            n == BoardOf(Run(steps[..j]).value.log).owners
  {
    StepPossible(steps, j);
    ReservedHere(steps[..j], steps[j]);
    LogGrows(steps, j);
    RunKeeps(steps);
    ReservedThen(Run(steps[..j]).value.log, Run(steps).value.log, steps[j].move.envelope,
                 BoardOf(Run(steps[..j]).value.log).owners, n);
  }

  /** What a thread reported is in its envelope's closing record if its owner wrote it; any other owner reconciled. */
  lemma ReportTold(steps: seq<Step>, j: nat, env: nat, k: nat)
    requires Run(steps).Some? && j < |steps| && steps[j].Do? && steps[j].move.Thread? && steps[j].move.envelope == env
    requires steps[j].move.threading.PrepareFails? || steps[j].move.threading.LaunchReturns?
    requires k < |Run(steps).value.log| && IsReport(Run(steps).value.log[k])
    requires Run(steps).value.log[k].envelope == env
    ensures Run(steps[..j]).Some?
    ensures var e, s := Run(steps).value.log[k], Run(steps[..j]).value;
            && (e.epoch == BoardOf(s.log).owners ==>
                  && Said(s, steps[j], CancelledIn(steps[..j], env), env).Some?
                  && Tells(e, Said(s, steps[j], CancelledIn(steps[..j], env), env).value))
            && (e.epoch != BoardOf(s.log).owners && IsRecord(e, Result) ==> e.outcome == Some(Reconciled))
  {
    StepPossible(steps, j);
    RunTells(steps, k);
    ReportStands(steps, j, env);
    var e := Run(steps).value.log[k];
    ReservedOnce(steps, j, e.epoch);
    RunTracks(steps);
    assert HistoryOf(steps).reports(e.epoch, env) == Reported(steps, e.epoch, env);
  }

  /**
    The result of a launched envelope, in every run: its owner records the outcome the launch returned
    with, CANCELLED in place of EXITED exactly when the envelope was cancelled before that, with the
    launch's own cgroup and cleanup; a later owner records a reconciliation.
   */
  lemma ResultOfLaunch(steps: seq<Step>, j: nat, env: nat, o: Observation, k: nat)
    requires Run(steps).Some? && j < |steps| && steps[j] == Do(Thread(env, LaunchReturns(o)))
    requires k < |Run(steps).value.log| && IsRecord(Run(steps).value.log[k], Result)
    requires Run(steps).value.log[k].envelope == env
    ensures Run(steps[..j]).Some?
    ensures var e, n := Run(steps).value.log[k], BoardOf(Run(steps[..j]).value.log).owners;
            && (e.epoch == n ==>
                  && e.cgroup == o.cgroup && e.cleanupComplete == o.cleanupComplete
                  && e.outcome == Some(if o.outcome == Exited && CancelledIn(steps[..j], env) then Cancelled
                                       else o.outcome))
            && (e.epoch != n ==> e.outcome == Some(Reconciled))
  {
    ReportTold(steps, j, env, k);
  }

  /** The result of an envelope that could not be prepared says so, unless a later owner reconciled it. */
  lemma ResultOfFailure(steps: seq<Step>, j: nat, env: nat, k: nat)
    requires Run(steps).Some? && j < |steps| && steps[j] == Do(Thread(env, PrepareFails))
    requires k < |Run(steps).value.log| && IsRecord(Run(steps).value.log[k], Result)
    requires Run(steps).value.log[k].envelope == env
    ensures Run(steps[..j]).Some?
    ensures var e, n := Run(steps).value.log[k], BoardOf(Run(steps[..j]).value.log).owners;
            && (e.epoch == n ==> e.outcome == Some(LaunchFailed) && e.cgroup == "" && e.cleanupComplete)
            && (e.epoch != n ==> e.outcome == Some(Reconciled))
  {
    ReportTold(steps, j, env, k);
  }

  /** What takeover records of an envelope is what the runtime's survey reported for it. */
  lemma RecordOfSurvey(steps: seq<Step>, j: nat, i: nat, k: nat)
    requires Run(steps).Some? && j < |steps| && steps[j].Do? && steps[j].move.TakeOver?
    requires steps[j].move.takeover.Survey? && i < |steps[j].move.takeover.observations|
    requires k < |Run(steps).value.log| && IsReport(Run(steps).value.log[k])
    ensures Run(steps[..j]).Some?
    ensures var e, b := Run(steps).value.log[k], BoardOf(Run(steps[..j]).value.log);
            && i < |Worklist(b)|
            && (e.envelope == Worklist(b)[i] && e.epoch == b.owners ==>
                  Tells(e, steps[j].move.takeover.observations[i]))
  {
    StepPossible(steps, j);
    var e, s := Run(steps).value.log[k], Run(steps[..j]).value;
    var b := BoardOf(s.log);
    if e.envelope == Worklist(b)[i] && e.epoch == b.owners {
      RunKeeps(steps[..j]);
      SurveyPlace(s, i);
      RunTells(steps, k);
      ReportStands(steps, j, e.envelope);
    }
  }
}
