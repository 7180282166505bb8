/**
  The runtime that prepares, launches, watches and tears down one envelope at a time on a fixed pool
  of worker slots.  Workspaces, brokers, cgroup files and sockets appear only through their answers.
 */
module AttemptRuntime {
  import opened Prelude
  import opened Teardown
  import EL = ExecutorLog
  import EP = ExecutorProtocol
  import SP = SlotProtocol

  // ---------------------------------------------------------------- the pool

  class AttemptSlot {
    var busy: bool
    var healthy: bool
    var workerAlive: bool

    constructor ()
      ensures !busy && healthy && workerAlive
    {
      busy, healthy, workerAlive := false, true, true;
    }

    predicate IsHealthy()
      reads this
    {
      healthy && workerAlive
    }
  }

  class AttemptPool {
    const slots: seq<AttemptSlot>
    var closed: bool

    constructor (slots: seq<AttemptSlot>)
      requires forall i, j :: 0 <= i < j < |slots| ==> slots[i] != slots[j]
      ensures Valid() && this.slots == slots && !closed
    {
      this.slots, closed := slots, false;
    }

    ghost predicate Valid() {
      forall i, j :: 0 <= i < j < |slots| ==> slots[i] != slots[j]
    }

    predicate Healthy()
      reads this, slots
    {
      !closed && slots != [] && forall i :: 0 <= i < |slots| ==> slots[i].IsHealthy()
    }

    predicate Available(i: nat)
      requires i < |slots|
      reads this, slots
    {
      !closed && !slots[i].busy && slots[i].IsHealthy()
    }

    /** The first available slot becomes busy; nothing else changes. */
    method Acquire() returns (r: Option<nat>)
      requires Valid()
      modifies slots
      ensures r.None? <==> forall i :: 0 <= i < |slots| ==> !old(Available(i))
      ensures r.Some? ==>
                r.value < |slots| && old(Available(r.value)) && forall i :: 0 <= i < r.value ==> !old(Available(i))
      ensures forall i :: 0 <= i < |slots| ==>
                slots[i].busy == (old(slots[i].busy) || r == Some(i))
                && slots[i].healthy == old(slots[i].healthy) && slots[i].workerAlive == old(slots[i].workerAlive)
    {
      for i := 0 to |slots|
        invariant forall j :: 0 <= j < i ==> !old(Available(j))
        invariant forall s :: s in slots ==> unchanged(s)
      {
        if Available(i) {
          slots[i].busy := true;
          return Some(i);
        }
      }
      return None;
    }

    method Release(slot: AttemptSlot)
      modifies slot`busy
      ensures !slot.busy
    {
      slot.busy := false;
    }
  }

  // ---------------------------------------------------------------- which breach is reported

  datatype Sample = Sample(cancelled: bool, cpu: bool, memory: bool, pids: bool, filesystem: bool,
                           unsafeWorkspace: bool)

  datatype Flag = Flag(active: bool, outcome: EL.Outcome)

  function Flags(cancelled: bool, s: Sample, network: bool, late: bool): seq<Flag> {
    [Flag(cancelled, EL.Cancelled), Flag(s.cpu, EL.Cpu), Flag(s.memory, EL.Memory), Flag(s.pids, EL.Pids),
     Flag(s.filesystem, EL.Filesystem), Flag(network, EL.Network), Flag(late, EL.Deadline)]
  }

  /** The position of the first active flag, or the number of flags when none is. */
  function FirstActive(flags: seq<Flag>): (i: nat)
    ensures i <= |flags| && (i < |flags| ==> flags[i].active)
    ensures forall j :: 0 <= j < i ==> !flags[j].active
  {
    if flags == [] || flags[0].active then 0
    else
      var rest := FirstActive(flags[1..]);
      assert forall j :: 1 <= j < |flags| ==> flags[j] == flags[1..][j - 1];
      rest + 1
  }

  function FirstCause(flags: seq<Flag>): Option<EL.Outcome> {
    if FirstActive(flags) < |flags| then Some(flags[FirstActive(flags)].outcome) else None
  }

  /** Cancellation before resource breaches, those in a fixed order, and the deadline last. */
  lemma CausePriority(cancelled: bool, s: Sample, network: bool, late: bool)
    ensures FirstCause(Flags(cancelled, s, network, late))
            == if cancelled then Some(EL.Cancelled)
               else if s.cpu then Some(EL.Cpu)
               else if s.memory then Some(EL.Memory)
               else if s.pids then Some(EL.Pids)
               else if s.filesystem then Some(EL.Filesystem)
               else if network then Some(EL.Network)
               else if late then Some(EL.Deadline)
               else None
  {
    var flags := Flags(cancelled, s, network, late);
    var i := FirstActive(flags);
    assert forall j :: 0 <= j < i ==> !flags[j].active;
    assert cancelled == flags[0].active && s.cpu == flags[1].active && s.memory == flags[2].active
           && s.pids == flags[3].active && s.filesystem == flags[4].active && network == flags[5].active
           && late == flags[6].active;
  }

  // ---------------------------------------------------------------- watching one child

  datatype FrameKind = ResultFrame | ErrorFrame | OtherFrame

  datatype Response = Response(kind: FrameKind, networkBreach: bool)

  /** What the control descriptor gives at one poll. */
  datatype Heard = Silence | Frame(response: Response) | Breaks

  /** What the monitor can see: the k-th sample, the one taken again after a frame, and the k-th frame. */
  datatype Scene = Scene(sample: nat -> Sample, again: nat -> Sample, heard: nat -> Heard)

  datatype Watched = Broke | Ended(cause: Option<EL.Outcome>, response: Option<Response>, sample: Sample)

  /** Nothing to stop for at the k-th poll, the deadline apart. */
  ghost predicate Quiet(scene: Scene, k: nat) {
    var s := scene.sample(k);
    scene.heard(k) == Silence && !s.cancelled && !s.cpu && !s.memory && !s.pids && !s.filesystem
  }

  /** What the k-th poll decides, given whether the wall time has run out. */
  function Decide(scene: Scene, k: nat, late: bool): Watched {
    match scene.heard(k)
    case Breaks => Broke
    case Silence =>
      Ended(FirstCause(Flags(scene.sample(k).cancelled, scene.sample(k), false, late)), None, scene.sample(k))
    case Frame(response) =>
      Ended(FirstCause(Flags(scene.sample(k).cancelled, scene.again(k), response.networkBreach, late)), Some(response),
            scene.again(k))
  }

  /** The frame heard at the k-th poll, if there was one. */
  function FrameAt(scene: Scene, k: nat): Option<Response> {
    if scene.heard(k).Frame? then Some(scene.heard(k).response) else None
  }

  /** The sample a decision rests on: the one taken again once a frame has come. */
  function SampleAt(scene: Scene, k: nat): Sample {
    if scene.heard(k).Frame? then scene.again(k) else scene.sample(k)
  }

  /** The outcome is the first cause there was at the k-th poll. */
  predicate Caused(scene: Scene, k: nat, late: bool, cause: Option<EL.Outcome>) {
    var s := SampleAt(scene, k);
    && (cause == Some(EL.Cancelled) <==> scene.sample(k).cancelled)
    && (cause == Some(EL.Cpu) <==> !scene.sample(k).cancelled && s.cpu)
    && (cause == Some(EL.Memory) <==> !scene.sample(k).cancelled && !s.cpu && s.memory)
    && (cause == Some(EL.Pids) <==> !scene.sample(k).cancelled && !s.cpu && !s.memory && s.pids)
    && (cause == Some(EL.Filesystem) <==>
          !scene.sample(k).cancelled && !s.cpu && !s.memory && !s.pids && s.filesystem)
    && (cause == Some(EL.Network) <==>
          && !scene.sample(k).cancelled && !s.cpu && !s.memory && !s.pids && !s.filesystem
          && FrameAt(scene, k).Some? && FrameAt(scene, k).value.networkBreach)
    && (cause == Some(EL.Deadline) <==>
          && !scene.sample(k).cancelled && !s.cpu && !s.memory && !s.pids && !s.filesystem
          && !(FrameAt(scene, k).Some? && FrameAt(scene, k).value.networkBreach) && late)
    && (cause.Some? ==>
          cause.value in {EL.Cancelled, EL.Cpu, EL.Memory, EL.Pids, EL.Filesystem, EL.Network, EL.Deadline})
  }

  lemma DecideExact(scene: Scene, k: nat, late: bool)
    ensures var r := Decide(scene, k, late);
            && (r.Broke? <==> scene.heard(k) == Breaks)
            && (r.Ended? ==>
                  r.response == FrameAt(scene, k) && r.sample == SampleAt(scene, k) && Caused(scene, k, late, r.cause))
  {
    match scene.heard(k)
    case Breaks =>
    case Silence => CausePriority(scene.sample(k).cancelled, scene.sample(k), false, late);
    case Frame(response) =>
      CausePriority(scene.sample(k).cancelled, scene.again(k), response.networkBreach, late);
  }

  lemma NoCauseIsQuiet(scene: Scene, k: nat)
    requires Decide(scene, k, false) == Ended(None, None, scene.sample(k)) && scene.heard(k) == Silence
    ensures Quiet(scene, k)
  {
    DecideExact(scene, k, false);
  }

  lemma LateIsCause(scene: Scene, k: nat)
    requires scene.heard(k) == Silence
    ensures Decide(scene, k, true).cause.Some?
  {
    CausePriority(scene.sample(k).cancelled, scene.sample(k), false, true);
  }

  /**
    Poll until there is a cause or a frame.  It always halts, at the first poll that gives one; the
    wall time counts as run out exactly when the clock read before that poll says so.
   */
  method Monitor(host: Host, wall: real, scene: Scene)
    returns (r: Watched, polls: nat, ghost late: bool, ghost started: real, ghost read: real)
    requires host.Valid()
    modifies host`now, host`looks
    ensures forall k :: 0 <= k < polls ==> Quiet(scene, k)
    ensures r.Broke? <==> scene.heard(polls) == Breaks
    ensures r.Ended? ==>
              && r.response == FrameAt(scene, polls) && r.sample == SampleAt(scene, polls)
              && Caused(scene, polls, late, r.cause) && (r.cause.Some? || r.response.Some?)
    ensures (late <==> read - started >= wall) && old(host.now) <= started <= read <= host.now
  {
    var begun := host.Clock();
    started := begun;
    polls := 0;
    var t := host.Clock();
    while true
      invariant begun <= t <= host.now && old(host.now) <= begun
      invariant forall k :: 0 <= k < polls ==> Quiet(scene, k)
      decreases Host.PollsLeft(begun + wall, t)
    {
      late, read := t - begun >= wall, t;
      r := Decide(scene, polls, t - begun >= wall);
      DecideExact(scene, polls, t - begun >= wall);
      if r.Broke? || r.cause.Some? || r.response.Some? {
        return;
      }
      if late {
        LateIsCause(scene, polls);
      }
      NoCauseIsQuiet(scene, polls);
      var rest := wall - (t - begun);
      ghost var before := t;
      host.Sleep(if MAX_POLL_INTERVAL < rest then MAX_POLL_INTERVAL else rest);
      t := host.Clock();
      Host.PollShortens(begun + wall, before, t);
      polls := polls + 1;
    }
  }

  // ---------------------------------------------------------------- completing and reconciling

  function LifecycleOf(c: Cleanup): EL.Lifecycle {
    EL.Lifecycle(c.afterKill, c.inventoryComplete)
  }

  /** A frame that ends the envelope. */
  type Final = r: Response | r.kind != FrameKind.OtherFrame witness Response(ResultFrame, false)

  /** The worker's later answers: a terminal frame in reply to TERM, one after it, and the workspace copy. */
  datatype Closing = Closing(duringTerm: Final, later: Option<Final>, copied: bool)

  predicate Ends(response: Option<Response>) {
    response.Some? && response.value.kind in {ResultFrame, ErrorFrame}
  }

  /** The terminal frame is an error: the one that came in reply to TERM, or else the one that ended the watch. */
  predicate EndsInError(closing: Closing, terminalReply: bool, response: Option<Response>) {
    if terminalReply then closing.duringTerm.kind == ErrorFrame
    else response.Some? && response.value.kind == ErrorFrame
  }

  /**
    Tear down and report.  A cause is the outcome; without one it is LAUNCH_FAILED for an error frame,
    FILESYSTEM for a workspace that could not be copied after a complete cleanup, and else EXITED.
    The cleanup is complete, and the slot usable, exactly when the teardown was complete and a worker
    that still owed a terminal frame delivered it.
   */
  method CompleteMonitor(host: Host, seconds: real, cgroup: string, watched: Watched, closing: Closing)
    returns (o: EP.Observation, usable: bool, ghost cleanup: Cleanup)
    requires host.Valid() && seconds >= 0.0 && watched.Ended? && (watched.cause.Some? || watched.response.Some?)
    modifies host
    ensures host.Reports(cleanup, old(host.readings), host.readings)
    ensures o.lifecycle == Some(EL.Lifecycle(cleanup.afterKill, cleanup.inventoryComplete))
    ensures o.cgroup == cgroup && EP.CleanIfComplete(o)
    ensures usable <==> o.cleanupComplete
    ensures usable <==> cleanup.complete && (watched.cause.Some? && !Ends(watched.response) ==> closing.later.Some?)
    ensures watched.cause.Some? ==> o.outcome == watched.cause.value
    ensures watched.cause.None? ==>
              var failed := EndsInError(closing, cleanup.termSent && host.reply == Terminal, watched.response);
              && o.outcome in {EL.LaunchFailed, EL.Filesystem, EL.Exited}
              && (o.outcome == EL.LaunchFailed <==> failed)
              && (o.outcome == EL.Filesystem <==>
                    !failed && cleanup.complete && !watched.sample.unsafeWorkspace && !closing.copied)
  {
    var c, sendFailed, _, _ := host.Terminate(seconds);
    cleanup := c;
    usable := !sendFailed;
    var response := watched.response;
    if c.termSent && host.reply == Terminal {
      response := Some(closing.duringTerm);
    }
    var acknowledged := c.acknowledged;
    if watched.cause.Some? && !(response.Some? && response.value.kind in {ResultFrame, ErrorFrame}) {
      acknowledged := closing.later.Some?;
      usable := usable && acknowledged;
    }
    usable := usable && c.complete;
    var outcome, complete := EL.Exited, c.complete;
    if watched.cause.Some? {
      outcome, complete := watched.cause.value, c.complete && acknowledged;
    } else if response.value.kind == ErrorFrame {
      outcome := EL.LaunchFailed;
    } else if c.complete && !watched.sample.unsafeWorkspace && !closing.copied {
      outcome := EL.Filesystem;
    }
    o := EP.Observation(outcome, cgroup, complete, Some(LifecycleOf(c)));
  }

  /**
    What takeover reports for one recorded envelope: nothing to do without a cgroup path, a refusal
    for a path outside the pool, and otherwise a full teardown.
   */
  method ReconcileOne(host: Host, cgroup: string, inPool: bool, seconds: real) returns (o: EP.Observation)
    requires host.Valid() && seconds >= 0.0
    modifies host
    ensures EP.ReconcileReports(cgroup, o)
    ensures o.lifecycle.Some? <==> cgroup != "" && inPool
    ensures o.cleanupComplete <==>
            cgroup == "" || (inPool && exists c: Cleanup :: c.complete && o.lifecycle == Some(LifecycleOf(c))
                                                            && host.Reports(c, old(host.readings) + 1, host.readings))
  {
    if cgroup == "" {
      return EP.Observation(EL.Reconciled, "", true, None);
    }
    if !inPool {
      return EP.Observation(EL.Reconciled, cgroup, false, None);
    }
    var _, _ := host.Inventory();
    var _ := host.Clock();
    var c, _, _, _ := host.Terminate(seconds);
    o := EP.Observation(EL.Reconciled, cgroup, c.complete, Some(LifecycleOf(c)));
  }

  // ---------------------------------------------------------------- prepare and launch

  /** What the surroundings answer during one prepare. */
  datatype Answers = Answers(targetAvailable: bool, candidateMatches: bool, workspaceReadable: bool, configured: bool,
                             targetReady: bool, research: Option<bool>)

  datatype Unavailable =
    | WrongCandidate | PoolUnavailable | BadWorkspace | PoolBusy | PreparationFailed | TargetFailed | ResearchFailed
    | NotPrepared

  /** Everything after the slot is taken goes well. */
  predicate Settles(a: Answers) {
    a.configured && (a.targetAvailable ==> a.targetReady) && a.research != Some(false)
  }

  lemma Run2(s: SP.State, a: SP.Step, b: SP.Step)
    requires SP.Enabled(s, a) && SP.Enabled(SP.After(s, a), b)
    ensures SP.RunFrom(s, [a, b]) == Some(SP.After(SP.After(s, a), b))
  {
    var s1 := SP.After(s, a);
    assert [a, b][1..] == [b] && [b][1..] == [];
    assert SP.RunFrom(s1, [b]) == SP.RunFrom(SP.After(s1, b), []);
  }

  lemma Run3(s: SP.State, a: SP.Step, b: SP.Step, c: SP.Step)
    requires SP.Enabled(s, a) && SP.Enabled(SP.After(s, a), b) && SP.Enabled(SP.After(SP.After(s, a), b), c)
    ensures SP.RunFrom(s, [a, b, c]) == Some(SP.After(SP.After(SP.After(s, a), b), c))
  {
    assert [a, b, c][1..] == [b, c];
    Run2(SP.After(s, a), b, c);
  }

  function PrepareSteps(env: nat, i: nat, ok: bool): seq<SP.Step> {
    [SP.BeginPrepare(0, env), SP.Acquire(0, i), if ok then SP.PrepareReturns(0) else SP.PrepareFails(0)]
  }

  /** Taking an available slot and keeping or returning it, as protocol steps. */
  lemma PrepareRuns(s: SP.State, env: nat, i: nat, ok: bool)
    requires SP.Inv(s) && s.preparing == map[] && SP.PoolHealthy(s) && i < |s.slots| && !s.slots[i].busy
    ensures SP.RunFrom(s, PrepareSteps(env, i, ok))
            == Some(if ok then s.(slots := s.slots[i := s.slots[i].(busy := true)],
                                  reservations := s.reservations[env := i]) else s)
    ensures SP.Inv(SP.RunFrom(s, PrepareSteps(env, i, ok)).value)
  {
    var steps := PrepareSteps(env, i, ok);
    Run3(s, steps[0], steps[1], steps[2]);
    assert s.preparing[0 := SP.Checked(env)][0 := SP.Holding(env, i)] - {0} == s.preparing;
    assert s.slots[i := s.slots[i].(busy := true)][i := s.slots[i]] == s.slots;
    SP.RunKeepsInv(s, steps);
  }

  lemma NothingRuns(s: SP.State, env: nat)
    requires s.preparing == map[] && SP.PoolHealthy(s)
    ensures SP.RunFrom(s, [SP.BeginPrepare(0, env), SP.AcquireNothing(0)]) == Some(s)
  {
    Run2(s, SP.BeginPrepare(0, env), SP.AcquireNothing(0));
    assert s.preparing[0 := SP.Checked(env)] - {0} == s.preparing;
  }

  function LaunchSteps(env: nat, i: nat, usable: bool): seq<SP.Step> {
    if usable then [SP.BeginLaunch(0, env), SP.EndLaunch(0)]
    else [SP.BeginLaunch(0, env), SP.Condemn(i), SP.EndLaunch(0)]
  }

  lemma UsableRuns(s: SP.State, env: nat, i: nat)
    requires s.launching == map[] && env in s.reservations && s.reservations[env] == i && i < |s.slots|
    ensures SP.RunFrom(s, LaunchSteps(env, i, true))
            == Some(s.(slots := s.slots[i := SP.Slot(false, s.slots[i].healthy)],
                       reservations := s.reservations - {env}))
  {
    Run2(s, SP.BeginLaunch(0, env), SP.EndLaunch(0));
    assert s.launching[0 := (env, i)] - {0} == s.launching;
  }

  lemma CondemnedRuns(s: SP.State, env: nat, i: nat)
    requires s.launching == map[] && env in s.reservations && s.reservations[env] == i && i < |s.slots|
    ensures SP.RunFrom(s, LaunchSteps(env, i, false))
            == Some(s.(slots := s.slots[i := SP.Slot(false, false)], reservations := s.reservations - {env}))
  {
    Run3(s, SP.BeginLaunch(0, env), SP.Condemn(i), SP.EndLaunch(0));
    var condemned := s.slots[i].(healthy := false);
    assert s.slots[i := condemned][i := condemned.(busy := false)] == s.slots[i := SP.Slot(false, false)];
    assert s.launching[0 := (env, i)] - {0} == s.launching;
  }

  /** Launching on a reservation's slot and giving both up, as protocol steps. */
  lemma LaunchRuns(s: SP.State, env: nat, i: nat, usable: bool)
    requires SP.Inv(s) && s.launching == map[] && env in s.reservations && s.reservations[env] == i
    ensures i < |s.slots|
    ensures SP.RunFrom(s, LaunchSteps(env, i, usable))
            == Some(s.(slots := s.slots[i := SP.Slot(false, s.slots[i].healthy && usable)],
                       reservations := s.reservations - {env}))
    ensures SP.Inv(SP.RunFrom(s, LaunchSteps(env, i, usable)).value)
  {
    assert SP.Owns(s, SP.Reserved(env), i);
    if usable {
      UsableRuns(s, env, i);
    } else {
      CondemnedRuns(s, env, i);
    }
    SP.RunKeepsInv(s, LaunchSteps(env, i, usable));
  }

  /** How a watch went: the poll it ended at, the clock before that poll, the cause it found and the teardown. */
  datatype Course = Course(polls: nat, started: real, read: real, cause: Option<EL.Outcome>, cleanup: Cleanup)

  /**
    What a watch reports that ended at its last poll without a break: the first cause there was then,
    or what the terminal frame and the workspace copy come to.
   */
  ghost predicate Concludes(scene: Scene, wall: real, closing: Closing, reply: Reply, c: Course, o: EP.Observation) {
    var frame, cleanup := FrameAt(scene, c.polls), c.cleanup;
    var failed := EndsInError(closing, cleanup.termSent && reply == Terminal, frame);
    && Caused(scene, c.polls, c.read - c.started >= wall, c.cause)
    && (c.cause.Some? ==> o.outcome == c.cause.value)
    && (c.cause.None? ==>
          && frame.Some? && o.outcome in {EL.LaunchFailed, EL.Filesystem, EL.Exited}
          && (o.outcome == EL.LaunchFailed <==> failed)
          && (o.outcome == EL.Filesystem <==>
                !failed && cleanup.complete && !SampleAt(scene, c.polls).unsafeWorkspace && !closing.copied))
    && o.lifecycle == Some(EL.Lifecycle(cleanup.afterKill, cleanup.inventoryComplete))
    && (o.cleanupComplete <==> cleanup.complete && (c.cause.Some? && !Ends(frame) ==> closing.later.Some?))
  }

  /**
    What is reported is what happened.  Every poll but the last was quiet.  There is no process
    evidence exactly when the launch failed or the control descriptor broke: then the outcome is
    LAUNCH_FAILED, and the cleanup complete exactly when every inventory since was readable and the
    last one empty.  Otherwise it concludes the watch.
   */
  ghost predicate Accounts(host: Host, from: nat, wall: real, faults: bool, scene: Scene, closing: Closing, c: Course,
                           o: EP.Observation)
    reads host
  {
    && from < host.readings
    && (!faults ==> forall k :: 0 <= k < c.polls ==> Quiet(scene, k))
    && (o.lifecycle.None? <==> faults || scene.heard(c.polls) == Breaks)
    && (o.lifecycle.None? ==>
          && o.outcome == EL.LaunchFailed
          && (o.cleanupComplete <==> host.AllReadable(from, host.readings) && host.Seen(host.readings - 1) == []))
    && (o.lifecycle.Some? ==>
          host.Reports(c.cleanup, from, host.readings) && Concludes(scene, wall, closing, host.reply, c, o))
  }

  /**
    Watch a started child to its end, or kill what a failed launch left.  There is no process evidence
    exactly when the launch failed or the control descriptor broke; the slot stays usable exactly
    when there is and the cleanup was complete.
   */
  method Watch(host: Host, wall: real, seconds: real, cgroup: string, faults: bool, scene: Scene, closing: Closing)
    returns (o: EP.Observation, usable: bool, ghost c: Course)
    requires host.Valid() && seconds >= 0.0
    modifies host
    ensures EP.CleanIfComplete(o) && o.cgroup == cgroup && old(host.now) <= c.started <= c.read
    ensures Accounts(host, old(host.readings), wall, faults, scene, closing, c, o)
    ensures o.lifecycle.None? ==> host.kills == old(host.kills) + 1
    ensures usable <==> o.lifecycle.Some? && o.cleanupComplete
  {
    var watched := Broke;
    ghost var polls, late, started, read := 0, false, host.now, host.now;
    if !faults {
      watched, polls, late, started, read := Monitor(host, wall, scene);
    }
    ghost var cleanup;
    if watched.Broke? {
      var killed := host.KillAndWait(seconds);
      o, usable := EP.Observation(EL.LaunchFailed, cgroup, killed.complete, None), false;
      c := Course(polls, started, read, None, killed);
    } else {
      o, usable, cleanup := CompleteMonitor(host, seconds, cgroup, watched, closing);
      c := Course(polls, started, read, watched.cause, cleanup);
    }
  }

  class Runtime {
    const pool: AttemptPool
    var reservations: map<nat, nat>
    var cancelled: set<nat>

    constructor (pool: AttemptPool)
      requires pool.Valid()
      ensures this.pool == pool && reservations == map[] && cancelled == {}
    {
      this.pool, reservations, cancelled := pool, map[], {};
    }

    ghost predicate Valid()
      reads this, pool, pool.slots
    {
      pool.Valid() && SP.Inv(View())
    }

    /** The slots and reservations as the protocol sees them between calls. */
    ghost function View(): SP.State
      reads this, pool, pool.slots
    {
      SP.State(seq(|pool.slots|, i requires 0 <= i < |pool.slots| reads pool.slots =>
                 SP.Slot(pool.slots[i].busy, pool.slots[i].IsHealthy())),
               pool.closed, reservations, map[], map[])
    }

    /**
      Reserve and configure a childless envelope.  Every refusal leaves slots and reservations as
      they were; success takes one available slot and makes it the envelope's reservation.
     */
    method Prepare(env: nat, answers: Answers) returns (r: Prelude.Result<nat, Unavailable>, ghost steps: seq<SP.Step>)
      requires Valid()
      modifies this`reservations, pool.slots
      ensures Valid() && SP.RunFrom(old(View()), steps) == Some(View())
      ensures r.Ok? <==> && (answers.targetAvailable ==> answers.candidateMatches) && old(pool.Healthy())
                         && answers.workspaceReadable && answers.configured
                         && (answers.targetAvailable ==> answers.targetReady) && answers.research != Some(false)
                         && exists i :: 0 <= i < |pool.slots| && old(pool.Available(i))
      ensures r == Err(WrongCandidate) <==> answers.targetAvailable && !answers.candidateMatches
      ensures r == Err(PoolUnavailable) <==>
                (answers.targetAvailable ==> answers.candidateMatches) && !old(pool.Healthy())
      ensures r.Err? && r.error in {PreparationFailed, TargetFailed, ResearchFailed} ==> !Settles(answers)
      ensures r.Err? ==> View() == old(View())
      ensures r.Ok? ==>
                r.value < |pool.slots| && old(pool.Available(r.value))
                && reservations == old(reservations)[env := r.value]
    {
      ghost var before := View();
      steps := [];
      if answers.targetAvailable && !answers.candidateMatches {
        return Err(WrongCandidate), [];
      }
      if !pool.Healthy() {
        return Err(PoolUnavailable), [];
      }
      if !answers.workspaceReadable {
        return Err(BadWorkspace), [];
      }
      var slot := pool.Acquire();
      if slot.None? {
        assert View() == before;
        NothingRuns(before, env);
        return Err(PoolBusy), [SP.BeginPrepare(0, env), SP.AcquireNothing(0)];
      }
      var i := slot.value;
      PrepareRuns(before, env, i, Settles(answers));
      steps := PrepareSteps(env, i, Settles(answers));
      if !Settles(answers) {
        pool.Release(pool.slots[i]);
        assert View() == before;
        return Err(if !answers.configured then PreparationFailed
                   else if answers.targetAvailable && !answers.targetReady then TargetFailed
                   else ResearchFailed), steps;
      }
      reservations := reservations[env := i];
      assert View().slots == before.slots[i := before.slots[i].(busy := true)];
      return Ok(i), steps;
    }

    method Cancel(env: nat)
      modifies this`cancelled
      ensures cancelled == old(cancelled) + {env}
    {
      if env !in cancelled {
        cancelled := cancelled + {env};
      }
    }

    /**
      Launch a prepared envelope and watch it to its end.  Whatever happens the reservation is gone
      and its slot free afterwards; it is condemned unless the watch gave process evidence of a
      complete cleanup.  What is reported is what the watch came to.
     */
    method Launch(env: nat, host: Host, wall: real, seconds: real, cgroup: string, faults: bool, scene: Scene,
                  closing: Closing)
      returns (r: Prelude.Result<EP.Observation, Unavailable>, ghost steps: seq<SP.Step>, ghost c: Course)
      requires Valid() && host.Valid() && seconds >= 0.0
      modifies this`reservations, this`cancelled, pool.slots, host
      ensures Valid() && SP.RunFrom(old(View()), steps) == Some(View())
      ensures r.Ok? <==> env in old(reservations)
      ensures r.Err? ==> View() == old(View()) && cancelled == old(cancelled)
      ensures r.Ok? ==> reservations == old(reservations) - {env} && cancelled == old(cancelled) - {env}
      ensures r.Ok? ==> EP.CleanIfComplete(r.value) && r.value.cgroup == cgroup
      ensures r.Ok? ==> var i := old(reservations)[env];
                        && i < |pool.slots| && !pool.slots[i].busy
                        && (pool.slots[i].healthy <==>
                              old(pool.slots[i].healthy) && r.value.lifecycle.Some? && r.value.cleanupComplete)
      ensures r.Ok? ==> Accounts(host, old(host.readings), wall, faults, scene, closing, c, r.value)
    {
      ghost var before := View();
      if env !in reservations {
        r, steps := Err(NotPrepared), [];
        c := Course(0, 0.0, 0.0, None, Cleanup([], [], [], false, false, false, 0.0, 0.0, false, false, false));
        return;
      }
      var i := reservations[env];
      var o, usable;
      o, usable, c := Watch(host, wall, seconds, cgroup, faults, scene, closing);
      LaunchRuns(before, env, i, usable);
      Finish(env, i, usable);
      r, steps := Ok(o), LaunchSteps(env, i, usable);
    }

    /** Drop the reservation, condemn its slot unless it is still usable, and free it. */
    method Finish(env: nat, i: nat, usable: bool)
      requires pool.Valid() && i < |pool.slots|
      modifies this`reservations, this`cancelled, pool.slots
      ensures reservations == old(reservations) - {env} && cancelled == old(cancelled) - {env}
      ensures View().slots == old(View()).slots[i := SP.Slot(false, old(View()).slots[i].healthy && usable)]
      ensures !pool.slots[i].busy && (pool.slots[i].healthy <==> old(pool.slots[i].healthy) && usable)
    {
      if !usable {
        pool.slots[i].healthy := false;
      }
      reservations, cancelled := reservations - {env}, cancelled - {env};
      pool.Release(pool.slots[i]);
    }
  }
}
