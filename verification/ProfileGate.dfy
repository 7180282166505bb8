/**
  The authority gate from Board probe to ordinary operations, across boots.

  Durable are the log and the receipt file; volatile is one boot: the peer it has authorised, whether
  it opened operations, the receipt it has named, and how far its probe has got.  A boot can die
  between any two of its durable effects.  The profile lock makes each probe run alone.
 */
module ProfileGate {
  import opened Prelude
  import opened ProfilePhase

  /** A probe in progress: reading documents, or with its receipt already on disk. */
  datatype Stage = Idle | Probing(probe: nat, rules: nat, source: nat) | Sealed(receipt: Receipt)

  datatype Boot = Boot(peer: nat, operating: bool, named: Option<Receipt>, stage: Stage)

  datatype State = State(log: Log, disk: Option<Receipt>, boot: Option<Boot>)

  const INIT: State := State([], None, None)

  /** `Present` is an authorised call that goes no further than being authorised. */
  datatype Step =
    | StartBoot
    | Die
    | BeginProbe(peer: nat, rules: nat, source: nat)
    | ReadDecision(peer: nat, rules: nat, source: nat)
    | Present(peer: nat)
    | Append
    | Seal(authoritative: bool, evidence: nat)
    | Decide
    | FailProbe
    | Open(peer: nat)
    | Dispatch

  /** The peer an authorised call must come from: the boot's own, else the undecided probe's. */
  function Expected(p: Phase, boot: Boot): nat {
    if boot.peer != 0 then boot.peer else if p.verdict.None? then p.peer else 0
  }

  /** The handle apart, whether a profile call from `peer` is authorised. */
  predicate Authorised(p: Phase, boot: Boot, peer: nat) {
    peer != 0 && (Expected(p, boot) == 0 || Expected(p, boot) == peer)
  }

  predicate AllowsOperations(p: Phase, boot: Boot, required: bool) {
    boot.operating || (p.probe == 0 && !required)
  }

  predicate Enabled(s: State, step: Step, required: bool) {
    && Project(s.log).Some?
    && (step.StartBoot? <==> s.boot.None?)
    && (s.boot.Some? ==>
          var p, boot := Project(s.log).value, s.boot.value;
          match step
          case BeginProbe(peer, _, _) => boot.stage.Idle? && Authorised(p, boot, peer) && p.verdict.None?
          case ReadDecision(peer, _, _) => boot.stage.Idle? && Authorised(p, boot, peer) && p.verdict.Some?
          case Present(peer) => boot.stage.Idle? && Authorised(p, boot, peer)
          case Seal(_, _) => boot.stage.Probing? && p.probe == boot.stage.probe && p.rules == boot.stage.rules
            && p.verdict.None?
          case Decide => boot.stage.Sealed? && s.disk.Some?
          case FailProbe => !boot.stage.Idle?
          case Open(peer) => boot.stage.Idle? && Authorised(p, boot, peer) && Authoritative(p)
          case Dispatch => AllowsOperations(p, boot, required)
          case _ => true)
  }

  /** The event a step appends, if any. */
  function Writes(s: State, step: Step, required: bool): Log
    requires Enabled(s, step, required)
  {
    var p := Project(s.log).value;
    match step
    case BeginProbe(peer, rules, _) => [Started(p.starts + 1, rules, peer)]
    case Decide =>
      if p.verdict.Some? then []
      else [Decided(s.boot.value.stage.receipt.probe, s.boot.value.stage.receipt.rules,
                    s.boot.value.stage.receipt.authoritative, s.disk.value)]
    case Open(_) => if p.operating then [] else [Opened(p.probe, p.rules, p.verdict.value.receipt)]
    case Append => [Elsewhere]
    case _ => []
  }

  /** The receipt on disk is the one a decided phase names, for the caller's rules; its source is looked at later. */
  predicate Matches(s: State, p: Phase, rules: nat) {
    p.verdict.Some? && p.rules == rules && s.disk == Some(p.verdict.value.receipt)
  }

  function NextBoot(s: State, step: Step, required: bool): Option<Boot>
    requires Enabled(s, step, required)
  {
    var p := Project(s.log).value;
    if step.StartBoot? then Some(Boot(0, false, None, Idle))
    else
      var boot := s.boot.value;
      match step
      case Die => None
      case BeginProbe(peer, rules, source) => Some(boot.(peer := peer, stage := Probing(p.starts + 1, rules, source)))
      case ReadDecision(peer, rules, _) =>
        Some(boot.(peer := peer, named := if Matches(s, p, rules) then s.disk else boot.named))
      case Present(peer) => Some(boot.(peer := peer))
      case Seal(authoritative, evidence) =>
        Some(boot.(stage := Sealed(Receipt(boot.stage.probe, boot.stage.rules, boot.stage.source, authoritative,
                                           evidence))))
      case Decide => Some(boot.(named := s.disk, stage := Idle))
      case FailProbe => Some(boot.(stage := Idle))
      case Open(peer) =>
        Some(boot.(peer := peer, operating := true,
                   named := if boot.named.None? then Some(p.verdict.value.receipt) else boot.named))
      case _ => s.boot
  }

  function After(s: State, step: Step, required: bool): State
    requires Enabled(s, step, required)
  {
    State(s.log + Writes(s, step, required),
          if step.Seal? then
            Some(Receipt(s.boot.value.stage.probe, s.boot.value.stage.rules, s.boot.value.stage.source,
                         step.authoritative, step.evidence))
          else s.disk,
          NextBoot(s, step, required))
  }

  function RunFrom(s: State, steps: seq<Step>, required: bool): Option<State>
    decreases |steps|
  {
    if steps == [] then Some(s)
    else if Enabled(s, steps[0], required) then RunFrom(After(s, steps[0], required), steps[1..], required) else None
  }

  // ---------------------------------------------------------------- what every run keeps

  /** The receipt belongs to the phase's probe and rules. */
  predicate About(r: Receipt, p: Phase) {
    r.probe == p.probe && r.rules == p.rules
  }

  predicate PhaseInv(p: Phase) {
    && (p.starts > 0 <==> p.probe != 0) && (p.starts > 0 <==> p.peer != 0)
    && (p.verdict.Some? ==> p.starts > 0 && About(p.verdict.value.receipt, p)
                            && p.verdict.value.authoritative == p.verdict.value.receipt.authoritative)
    && (p.operating ==> Authoritative(p))
  }

  predicate BootInv(p: Phase, disk: Option<Receipt>, boot: Boot) {
    && (boot.peer != 0 && p.starts > 0 && p.verdict.None? ==> boot.peer == p.peer)
    && (boot.operating ==> p.operating)
    && (boot.named.Some? ==> p.verdict.Some? && boot.named == Some(p.verdict.value.receipt))
    && (match boot.stage
        case Idle => true
        case Probing(probe, rules, _) =>
          p.verdict.None? && p.probe == probe && p.rules == rules && p.starts > 0 && boot.peer == p.peer
        case Sealed(receipt) =>
          p.verdict.None? && disk == Some(receipt) && About(receipt, p) && p.starts > 0 && boot.peer == p.peer)
  }

  /** All probes were started by one peer. */
  predicate OnePeer(log: Log, p: Phase) {
    forall i :: 0 <= i < |log| && log[i].Started? ==> p.starts > 0 && log[i].peer == p.peer
  }

  /** What the projected phase, the receipt file and the boot have to do with one another. */
  predicate Fits(p: Phase, disk: Option<Receipt>, boot: Option<Boot>) {
    && PhaseInv(p)
    && (p.verdict.Some? ==> disk == Some(p.verdict.value.receipt))
    && (boot.Some? ==> BootInv(p, disk, boot.value))
  }

  predicate Inv(s: State) {
    Project(s.log).Some? && OnePeer(s.log, Project(s.log).value) && Fits(Project(s.log).value, s.disk, s.boot)
  }

  /** A step's write, if it makes one, is accepted, and the three still fit. */
  lemma FitsAfter(s: State, step: Step, required: bool)
    requires Enabled(s, step, required) && Fits(Project(s.log).value, s.disk, s.boot)
    ensures var p, s', written := Project(s.log).value, After(s, step, required), Writes(s, step, required);
            if written == [] then Fits(p, s'.disk, s'.boot)
            else |written| == 1 && Next(p, written[0]).Some? && Fits(Next(p, written[0]).value, s'.disk, s'.boot)
                 && (written[0].Started? ==> p.starts > 0 ==> written[0].peer == p.peer)
                 && (Next(p, written[0]).value.peer == if written[0].Started? then written[0].peer else p.peer)
                 && Next(p, written[0]).value.starts >= p.starts
  {}

  lemma StepKeeps(s: State, step: Step, required: bool)
    requires Inv(s) && Enabled(s, step, required)
    ensures Inv(After(s, step, required))
  {
    FitsAfter(s, step, required);
    var written := Writes(s, step, required);
    LogAfter(s.log, written);
    if written != [] {
      OnePeerAfter(s.log, written[0], Project(s.log).value, Next(Project(s.log).value, written[0]).value);
      assert s.log + written == s.log + [written[0]];
    } else {
      assert s.log + written == s.log;
    }
  }

  /** Appending nothing, or one event, moves the projection accordingly. */
  lemma LogAfter(log: Log, written: Log)
    requires Project(log).Some? && |written| <= 1
    ensures Project(log + written) == if written == [] then Project(log) else Next(Project(log).value, written[0])
  {
    if written == [] {
      assert log + written == log;
    } else {
      ProjectMore(log, written[0]);
      assert log + written == log + [written[0]];
    }
  }

  lemma OnePeerAfter(log: Log, e: Event, p: Phase, p': Phase)
    requires OnePeer(log, p) && p'.starts >= p.starts && (p'.peer == if e.Started? then e.peer else p.peer)
    requires e.Started? ==> p'.starts > 0 && (p.starts > 0 ==> e.peer == p.peer)
    ensures OnePeer(log + [e], p')
  {}

  /** What a decided log settles for good. */
  lemma StepSettled(s: State, step: Step, required: bool)
    requires Inv(s) && Enabled(s, step, required) && Project(s.log).value.verdict.Some?
    ensures Project(After(s, step, required).log).Some?
    ensures var p, p' := Project(s.log).value, Project(After(s, step, required).log).value;
            && p'.verdict == p.verdict && p'.probe == p.probe && p'.rules == p.rules && (p.operating ==> p'.operating)
    ensures After(s, step, required).disk == s.disk
  {
    var written := Writes(s, step, required);
    if written == [] {
      assert s.log + written == s.log;
    } else {
      ProjectMore(s.log, written[0]);
      assert s.log + written == s.log + [written[0]];
    }
  }

  /** In every run, with boots dying anywhere, the log is accepted and the invariant holds. */
  lemma {:induction false} RunKeeps(s: State, steps: seq<Step>, required: bool)
    requires Inv(s) && RunFrom(s, steps, required).Some?
    ensures Inv(RunFrom(s, steps, required).value)
    decreases |steps|
  {
    if steps != [] {
      StepKeeps(s, steps[0], required);
      RunKeeps(After(s, steps[0], required), steps[1..], required);
    }
  }

  /** Once decided, the decision never changes and the receipt on disk stays the one it names. */
  lemma {:induction false} DecidedForGood(s: State, steps: seq<Step>, required: bool)
    requires Inv(s) && Project(s.log).value.verdict.Some? && RunFrom(s, steps, required).Some?
    ensures var s' := RunFrom(s, steps, required).value;
            && Project(s'.log).Some? && Project(s'.log).value.verdict == Project(s.log).value.verdict
            && s'.disk == Some(Project(s.log).value.verdict.value.receipt)
    decreases |steps|
  {
    if steps != [] {
      StepKeeps(s, steps[0], required);
      StepSettled(s, steps[0], required);
      DecidedForGood(After(s, steps[0], required), steps[1..], required);
    }
  }

  // ---------------------------------------------------------------- dispatch

  /** Between the steps `from` and `to` the boot did not change. */
  predicate SameBoot(steps: seq<Step>, from: nat, to: nat) {
    forall k :: from <= k < to && k < |steps| ==> !steps[k].StartBoot? && !steps[k].Die?
  }

  /** An open by the same boot precedes step `i`. */
  predicate OpenedBefore(steps: seq<Step>, i: nat) {
    exists j :: 0 <= j < i && j < |steps| && steps[j].Open? && SameBoot(steps, j, i)
  }

  /** A boot that operates was operating already when the steps began, or opened during them. */
  lemma {:induction false} OperatingOpened(s: State, steps: seq<Step>, required: bool)
    requires RunFrom(s, steps, required).Some?
    requires RunFrom(s, steps, required).value.boot.Some? && RunFrom(s, steps, required).value.boot.value.operating
    ensures OpenedBefore(steps, |steps|) || (s.boot.Some? && s.boot.value.operating && SameBoot(steps, 0, |steps|))
    decreases |steps|
  {
    if steps != [] {
      var s1, rest := After(s, steps[0], required), steps[1..];
      OperatingOpened(s1, rest, required);
      assert forall k :: 0 <= k < |rest| ==> rest[k] == steps[k + 1];
      if OpenedBefore(rest, |rest|) {
        var j :| 0 <= j < |rest| && rest[j].Open? && SameBoot(rest, j, |rest|);
        assert steps[j + 1].Open? && SameBoot(steps, j + 1, |steps|) by {
          forall k | j + 1 <= k < |steps| ensures !steps[k].StartBoot? && !steps[k].Die? {
            assert steps[k] == rest[k - 1];
          }
        }
      } else {
        assert SameBoot(rest, 0, |rest|);
        forall k | 0 < k < |steps| ensures !steps[k].StartBoot? && !steps[k].Die? {
          assert steps[k] == rest[k - 1];
        }
        if steps[0].Open? {
          assert SameBoot(steps, 0, |steps|);
        } else {
          assert s.boot.Some? && s.boot.value.operating && !steps[0].Die? && !steps[0].StartBoot?;
        }
      }
    }
  }

  /**
    With a profile required, an operation is dispatched only after the same boot opened operations,
    and the log then holds an opened, authoritative decision whose receipt is on disk.
   */
  lemma DispatchAfterOpen(steps: seq<Step>)
    requires RunFrom(INIT, steps, true).Some? && Enabled(RunFrom(INIT, steps, true).value, Dispatch, true)
    ensures OpenedBefore(steps, |steps|)
    ensures var s := RunFrom(INIT, steps, true).value;
            var p := Project(s.log).value;
            Authoritative(p) && p.operating && s.disk == Some(p.verdict.value.receipt)
            && p.verdict.value.receipt.authoritative
  {
    RunKeeps(INIT, steps, true);
    OperatingOpened(INIT, steps, true);
  }

  /** Without the requirement, a boot that has not opened dispatches only while no probe was ever started. */
  lemma DispatchBeforeProbe(steps: seq<Step>)
    requires RunFrom(INIT, steps, false).Some? && RunFrom(INIT, steps, false).value.boot.Some?
    ensures var s := RunFrom(INIT, steps, false).value;
            Enabled(s, Dispatch, false) <==>
              s.boot.value.operating || forall i :: 0 <= i < |s.log| ==> !s.log[i].Started?
  {
    RunKeeps(INIT, steps, false);
    var s := RunFrom(INIT, steps, false).value;
    StartsCount(s.log);
  }

  lemma {:induction false} StartsCount(log: Log)
    requires Project(log).Some?
    ensures Project(log).value.starts == 0 <==> forall i :: 0 <= i < |log| ==> !log[i].Started?
  {
    if log != [] {
      var before := log[..|log| - 1];
      StartsCount(before);
      assert forall i :: 0 <= i < |before| ==> before[i] == log[i];
    }
  }

  // ---------------------------------------------------------------- peers

  predicate ProfileCall(step: Step) {
    step.BeginProbe? || step.ReadDecision? || step.Present? || step.Open?
  }

  function PeerOf(step: Step): nat {
    if ProfileCall(step) then step.peer else 0
  }

  lemma PeerAfterCall(s: State, step: Step, required: bool)
    requires Enabled(s, step, required) && ProfileCall(step)
    ensures After(s, step, required).boot.Some? && After(s, step, required).boot.value.peer == PeerOf(step) != 0
    ensures s.boot.Some? && (s.boot.value.peer != 0 ==> s.boot.value.peer == PeerOf(step))
  {}

  lemma PeerAfterOther(s: State, step: Step, required: bool)
    requires Enabled(s, step, required) && !ProfileCall(step) && s.boot.Some? && !step.Die?
    ensures After(s, step, required).boot.Some? && After(s, step, required).boot.value.peer == s.boot.value.peer
  {}

  predicate Undisturbed(steps: seq<Step>, n: nat) {
    n <= |steps| && forall k :: 0 <= k < n ==> !steps[k].StartBoot? && !steps[k].Die?
  }

  lemma OnePeerFrom(s: State, steps: seq<Step>, required: bool, n: nat)
    requires RunFrom(s, steps, required).Some?
    requires 0 < n < |steps| && ProfileCall(steps[0]) && ProfileCall(steps[n]) && Undisturbed(steps, n)
    ensures PeerOf(steps[0]) == PeerOf(steps[n])
  {
    PeerAfterCall(s, steps[0], required);
    var rest := steps[1..];
    assert rest[n - 1] == steps[n] && Undisturbed(rest, n - 1);
    PeerStays(After(s, steps[0], required), rest, required, n - 1, PeerOf(steps[0]));
  }

  lemma {:induction false} PeerStays(s: State, steps: seq<Step>, required: bool, j: nat, peer: nat)
    requires RunFrom(s, steps, required).Some? && s.boot.Some? && s.boot.value.peer == peer != 0
    requires j < |steps| && ProfileCall(steps[j]) && Undisturbed(steps, j)
    ensures PeerOf(steps[j]) == peer
    decreases |steps|
  {
    if ProfileCall(steps[0]) {
      PeerAfterCall(s, steps[0], required);
    } else {
      PeerAfterOther(s, steps[0], required);
    }
    if j > 0 {
      var rest := steps[1..];
      assert rest[j - 1] == steps[j] && Undisturbed(rest, j - 1);
      PeerStays(After(s, steps[0], required), rest, required, j - 1, peer);
    }
  }

  /** All authorised profile calls of one boot come from one peer. */
  lemma {:induction false} OnePeerPerBoot(s: State, steps: seq<Step>, required: bool, i: nat, j: nat)
    requires RunFrom(s, steps, required).Some?
    requires i < j < |steps| && ProfileCall(steps[i]) && ProfileCall(steps[j]) && SameBoot(steps, i, j)
    ensures PeerOf(steps[i]) == PeerOf(steps[j])
    decreases i
  {
    if i == 0 {
      OnePeerFrom(s, steps, required, j);
    } else {
      SameBootTail(steps, i, j);
      OnePeerPerBoot(After(s, steps[0], required), steps[1..], required, i - 1, j - 1);
    }
  }

  lemma SameBootTail(steps: seq<Step>, i: nat, j: nat)
    requires 0 < i < j < |steps| && SameBoot(steps, i, j)
    ensures SameBoot(steps[1..], i - 1, j - 1) && steps[1..][i - 1] == steps[i] && steps[1..][j - 1] == steps[j]
  {
    forall k | i - 1 <= k < j - 1 ensures !steps[1..][k].StartBoot? && !steps[1..][k].Die? {
      assert steps[1..][k] == steps[k + 1];
    }
  }

  /** Across all boots, every probe in the log was started by one and the same peer. */
  lemma OneProber(steps: seq<Step>, required: bool)
    requires RunFrom(INIT, steps, required).Some?
    ensures var log := RunFrom(INIT, steps, required).value.log;
            forall i, j :: 0 <= i < |log| && 0 <= j < |log| && log[i].Started? && log[j].Started? ==>
              log[i].peer == log[j].peer
  {
    RunKeeps(INIT, steps, required);
  }

  /** Every run leaves a log the fold accepts, of the shape starts, decision, opening. */
  lemma RunAccepted(steps: seq<Step>, required: bool)
    requires RunFrom(INIT, steps, required).Some?
    ensures Project(RunFrom(INIT, steps, required).value.log).Some?
    ensures WellFormed(Phases(RunFrom(INIT, steps, required).value.log))
  {
    RunKeeps(INIT, steps, required);
    AcceptsExactly(RunFrom(INIT, steps, required).value.log);
  }
}
