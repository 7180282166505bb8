/**
  Who holds the fixed worker slots, as prepares and launches of many threads interleave.

  A prepare checks the pool, takes a slot and later either gives it back or turns it into a
  reservation; a launch works on a reservation's slot and finally pops the reservation and frees its
  slot.  Slots can be condemned at any time and workers can die at any time.
 */
module SlotProtocol {
  import opened Prelude

  datatype Slot = Slot(busy: bool, healthy: bool)

  /** A prepare in progress: past the health check, or holding a slot. */
  datatype Preparing = Checked(env: nat) | Holding(env: nat, slot: nat)

  datatype State = State(slots: seq<Slot>, closed: bool, reservations: map<nat, nat>, preparing: map<nat, Preparing>,
                         launching: map<nat, (nat, nat)>)

  function Init(slots: nat): State {
    State(seq(slots, _ => Slot(false, true)), false, map[], map[], map[])
  }

  predicate PoolHealthy(s: State) {
    !s.closed && s.slots != [] && forall i :: 0 <= i < |s.slots| ==> s.slots[i].healthy
  }

  datatype Step =
    | BeginPrepare(thread: nat, env: nat)
    | Acquire(thread: nat, slot: nat)
    | AcquireNothing(thread: nat)
    | PrepareFails(thread: nat)
    | PrepareReturns(thread: nat)
    | BeginLaunch(thread: nat, env: nat)
    | EndLaunch(thread: nat)
    | Condemn(slot: nat)
    | ClosePool

  predicate Enabled(s: State, step: Step) {
    match step
    case BeginPrepare(t, _) => t !in s.preparing && PoolHealthy(s)
    case Acquire(t, i) =>
      t in s.preparing && s.preparing[t].Checked? && i < |s.slots| && !s.closed && !s.slots[i].busy
      && s.slots[i].healthy
    case AcquireNothing(t) => t in s.preparing && s.preparing[t].Checked?
    case PrepareFails(t) => t in s.preparing && s.preparing[t].Holding?
    case PrepareReturns(t) => t in s.preparing && s.preparing[t].Holding?
    case BeginLaunch(t, env) => t !in s.launching && env in s.reservations
    case EndLaunch(t) => t in s.launching
    case Condemn(i) => i < |s.slots|
    case ClosePool => true
  }

  function Free(s: State, i: nat): seq<Slot> {
    if i < |s.slots| then s.slots[i := s.slots[i].(busy := false)] else s.slots
  }

  function After(s: State, step: Step): State
    requires Enabled(s, step)
  {
    match step
    case BeginPrepare(t, env) => s.(preparing := s.preparing[t := Checked(env)])
    case Acquire(t, i) =>
      s.(slots := s.slots[i := s.slots[i].(busy := true)],
         preparing := s.preparing[t := Holding(s.preparing[t].env, i)])
    case AcquireNothing(t) => s.(preparing := s.preparing - {t})
    case PrepareFails(t) => s.(slots := Free(s, s.preparing[t].slot), preparing := s.preparing - {t})
    case PrepareReturns(t) =>
      s.(reservations := s.reservations[s.preparing[t].env := s.preparing[t].slot], preparing := s.preparing - {t})
    case BeginLaunch(t, env) => s.(launching := s.launching[t := (env, s.reservations[env])])
    case EndLaunch(t) =>
      var env := s.launching[t].0;
      var ended := s.(launching := s.launching - {t});
      if env in s.reservations then
        ended.(slots := Free(s, s.reservations[env]), reservations := s.reservations - {env})
      else ended
    case Condemn(i) => s.(slots := s.slots[i := s.slots[i].(healthy := false)])
    case ClosePool => s.(closed := true)
  }

  /** Where a list of steps leads from `s`, if each is enabled where it is taken. */
  function RunFrom(s: State, steps: seq<Step>): Option<State>
    decreases |steps|
  {
    if steps == [] then Some(s)
    else if Enabled(s, steps[0]) then RunFrom(After(s, steps[0]), steps[1..]) else None
  }

  // ---------------------------------------------------------------- what every run keeps

  /** Who may own a slot: a reservation, or a prepare holding it. */
  datatype Owner = Reserved(env: nat) | Held(thread: nat)

  predicate Owns(s: State, o: Owner, i: nat) {
    match o
    case Reserved(env) => env in s.reservations && s.reservations[env] == i
    case Held(t) => t in s.preparing && s.preparing[t] == Holding(s.preparing[t].env, i)
  }

  ghost predicate Owned(s: State, i: nat) {
    exists o :: Owns(s, o, i)
  }

  /** Owners own busy slots, and no slot has two owners. */
  ghost predicate Inv(s: State) {
    && (forall o, i: nat :: Owns(s, o, i) ==> i < |s.slots| && s.slots[i].busy)
    && (forall o, o', i: nat :: Owns(s, o, i) && Owns(s, o', i) ==> o == o')
  }

  /** Every busy slot has an owner: nothing leaked. */
  ghost predicate Tight(s: State) {
    forall i :: 0 <= i < |s.slots| && s.slots[i].busy ==> Owned(s, i)
  }

  /** The step overwrites a live reservation of the same envelope. */
  predicate Overwrites(s: State, step: Step) {
    step.PrepareReturns? && step.thread in s.preparing && s.preparing[step.thread].env in s.reservations
  }

  /** The owner a step's owner was before it, if the step did not create it. */
  function Before(s: State, step: Step, o: Owner): Owner
    requires Enabled(s, step)
  {
    if step.PrepareReturns? && o == Reserved(s.preparing[step.thread].env) then Held(step.thread) else o
  }

  /** Ownership after a step comes from ownership before it, except for the slot just acquired. */
  lemma OwnsBefore(s: State, step: Step, o: Owner, i: nat)
    requires Enabled(s, step) && Owns(After(s, step), o, i)
    ensures (step.Acquire? && o == Held(step.thread) && i == step.slot) || Owns(s, Before(s, step, o), i)
  {}

  lemma StepKeepsInv(s: State, step: Step)
    requires Inv(s) && Enabled(s, step)
    ensures Inv(After(s, step))
  {
    var s' := After(s, step);
    forall o, i: nat | Owns(s', o, i) ensures i < |s'.slots| && s'.slots[i].busy {
      OwnsBefore(s, step, o, i);
      StillBusy(s, step, o, i);
    }
    forall o, o', i: nat | Owns(s', o, i) && Owns(s', o', i) ensures o == o' {
      OwnsBefore(s, step, o, i);
      OwnsBefore(s, step, o', i);
      OneOwner(s, step, o, o', i);
    }
  }

  /** A slot still owned after the step was not freed by it. */
  lemma StillBusy(s: State, step: Step, o: Owner, i: nat)
    requires Inv(s) && Enabled(s, step) && Owns(After(s, step), o, i)
    requires (step.Acquire? && o == Held(step.thread) && i == step.slot) || Owns(s, Before(s, step, o), i)
    ensures i < |s.slots| && After(s, step).slots[i].busy
  {
    if step.PrepareFails? && s.preparing[step.thread].slot == i {
      assert Owns(s, Held(step.thread), i);
    } else if step.EndLaunch? {
      var env := s.launching[step.thread].0;
      if env in s.reservations && s.reservations[env] == i {
        assert Owns(s, Reserved(env), i);
      }
    }
  }

  lemma OneOwner(s: State, step: Step, o: Owner, o': Owner, i: nat)
    requires Inv(s) && Enabled(s, step) && Owns(After(s, step), o, i) && Owns(After(s, step), o', i)
    requires (step.Acquire? && o == Held(step.thread) && i == step.slot) || Owns(s, Before(s, step, o), i)
    requires (step.Acquire? && o' == Held(step.thread) && i == step.slot) || Owns(s, Before(s, step, o'), i)
    ensures o == o'
  {}

  /** Live reservations map injectively onto busy slots in every run, whatever the interleaving. */
  lemma {:induction false} RunKeepsInv(s: State, steps: seq<Step>)
    requires Inv(s) && RunFrom(s, steps).Some?
    ensures Inv(RunFrom(s, steps).value)
    decreases |steps|
  {
    if steps != [] {
      StepKeepsInv(s, steps[0]);
      RunKeepsInv(After(s, steps[0]), steps[1..]);
    }
  }

  // ---------------------------------------------------------------- nothing leaks, unless a reservation is overwritten

  /** The owner an owner becomes by the step. */
  function Afterwards(s: State, step: Step, o: Owner): Owner
    requires Enabled(s, step)
  {
    if step.PrepareReturns? && o == Held(step.thread) then Reserved(s.preparing[step.thread].env) else o
  }

  lemma StepKeepsTight(s: State, step: Step)
    requires Inv(s) && Tight(s) && Enabled(s, step)
    ensures Tight(After(s, step)) <==> !Overwrites(s, step)
  {
    var s' := After(s, step);
    if Overwrites(s, step) {
      LeaksAt(s, step);
    } else {
      forall i | 0 <= i < |s'.slots| && s'.slots[i].busy ensures Owned(s', i) {
        if step.Acquire? && step.slot == i {
          assert Owns(s', Held(step.thread), i);
        } else {
          assert Owned(s, i);
          var o :| Owns(s, o, i);
          assert Owns(s', Afterwards(s, step, o), i);
        }
      }
    }
  }

  /** Overwriting a reservation leaves its slot busy with no owner. */
  lemma LeaksAt(s: State, step: Step)
    requires Inv(s) && Enabled(s, step) && Overwrites(s, step)
    ensures var i := s.reservations[s.preparing[step.thread].env];
            i < |s.slots| && After(s, step).slots[i].busy && !Owned(After(s, step), i)
  {
    var env := s.preparing[step.thread].env;
    var i := s.reservations[env];
    assert Owns(s, Reserved(env), i);
    forall o ensures !Owns(After(s, step), o, i) {
      if Owns(After(s, step), o, i) {
        OwnsBefore(s, step, o, i);
        assert false;
      }
    }
  }

  /** A leaked slot stays busy and unowned, whatever happens next. */
  lemma {:induction false} LeakedForever(s: State, i: nat, steps: seq<Step>)
    requires Inv(s) && i < |s.slots| && s.slots[i].busy && !Owned(s, i) && RunFrom(s, steps).Some?
    ensures var s' := RunFrom(s, steps).value; i < |s'.slots| && s'.slots[i].busy && !Owned(s', i)
    decreases |steps|
  {
    if steps != [] {
      var s' := After(s, steps[0]);
      forall o ensures !Owns(s', o, i) {
        if Owns(s', o, i) {
          OwnsBefore(s, steps[0], o, i);
        }
      }
      NotFreed(s, steps[0], i);
      StepKeepsInv(s, steps[0]);
      LeakedForever(s', i, steps[1..]);
    }
  }

  /** Only an owner's step frees a slot. */
  lemma NotFreed(s: State, step: Step, i: nat)
    requires Enabled(s, step) && i < |s.slots| && s.slots[i].busy && !Owned(s, i)
    ensures i < |After(s, step).slots| && After(s, step).slots[i].busy
  {
    if step.PrepareFails? {
      assert !Owns(s, Held(step.thread), i);
    } else if step.EndLaunch? {
      assert !Owns(s, Reserved(s.launching[step.thread].0), i);
    }
  }

  /** Some step of the run overwrites a live reservation. */
  predicate EverOverwrites(s: State, steps: seq<Step>)
    requires RunFrom(s, steps).Some?
    decreases |steps|
  {
    steps != [] && (Overwrites(s, steps[0]) || EverOverwrites(After(s, steps[0]), steps[1..]))
  }

  /**
    From a state with nothing leaked, a run leaks nothing exactly when it never prepares an envelope
    whose reservation is still live.
   */
  lemma {:induction false} RunKeepsTight(s: State, steps: seq<Step>)
    requires Inv(s) && Tight(s) && RunFrom(s, steps).Some?
    ensures Tight(RunFrom(s, steps).value) <==> !EverOverwrites(s, steps)
    decreases |steps|
  {
    if steps != [] {
      var s' := After(s, steps[0]);
      StepKeepsTight(s, steps[0]);
      StepKeepsInv(s, steps[0]);
      if Overwrites(s, steps[0]) {
        LeaksAt(s, steps[0]);
        var i := s.reservations[s.preparing[steps[0].thread].env];
        LeakedForever(s', i, steps[1..]);
      } else {
        RunKeepsTight(s', steps[1..]);
      }
    }
  }

  const OVERWRITING: seq<Step> :=
    [BeginPrepare(0, 1), Acquire(0, 0), PrepareReturns(0), BeginPrepare(0, 1), Acquire(0, 1), PrepareReturns(0)]

  lemma {:induction false} RunConcat(s: State, a: seq<Step>, b: seq<Step>)
    requires RunFrom(s, a).Some?
    ensures RunFrom(s, a + b) == RunFrom(RunFrom(s, a).value, b)
    decreases |a|
  {
    if a == [] {
      assert a + b == b;
    } else {
      RunConcat(After(s, a[0]), a[1..], b);
      assert (a + b)[1..] == a[1..] + b;
    }
  }

  /** One prepare of envelope 1 that succeeds on slot `i`. */
  lemma PreparedOn(s: State, i: nat)
    requires PoolHealthy(s) && s.preparing == map[] && i < |s.slots| && !s.slots[i].busy
    ensures RunFrom(s, [BeginPrepare(0, 1), Acquire(0, i), PrepareReturns(0)])
            == Some(s.(slots := s.slots[i := s.slots[i].(busy := true)], reservations := s.reservations[1 := i]))
  {
    var steps := [BeginPrepare(0, 1), Acquire(0, i), PrepareReturns(0)];
    assert steps[1..] == [Acquire(0, i), PrepareReturns(0)] && steps[1..][1..] == [PrepareReturns(0)];
    assert [PrepareReturns(0)][1..] == [];
    assert s.slots[i].healthy;
    var s1 := After(s, BeginPrepare(0, 1));
    var s2 := After(s1, Acquire(0, i));
    var s3 := After(s2, PrepareReturns(0));
    assert RunFrom(s2, [PrepareReturns(0)]) == Some(s3);
    assert RunFrom(s1, steps[1..]) == Some(s3);
    assert s3.preparing == map[];
  }

  /** Preparing one envelope twice is possible, and leaves slot 0 busy with no owner. */
  lemma OverwriteLeaks()
    ensures RunFrom(Init(2), OVERWRITING).Some? && !Tight(RunFrom(Init(2), OVERWRITING).value)
    ensures RunFrom(Init(2), OVERWRITING).value.slots[0].busy && !Owned(RunFrom(Init(2), OVERWRITING).value, 0)
  {
    var first := [BeginPrepare(0, 1), Acquire(0, 0), PrepareReturns(0)];
    var second := [BeginPrepare(0, 1), Acquire(0, 1), PrepareReturns(0)];
    PreparedOn(Init(2), 0);
    PreparedOn(RunFrom(Init(2), first).value, 1);
    RunConcat(Init(2), first, second);
    assert first + second == OVERWRITING;
    var s := RunFrom(Init(2), OVERWRITING).value;
    assert s.reservations == map[1 := 1] && s.preparing == map[];
    assert forall o :: !Owns(s, o, 0);
    assert |s.slots| == 2 && s.slots[0].busy && !Owned(s, 0);
  }

  lemma InitTight(slots: nat)
    ensures Inv(Init(slots)) && Tight(Init(slots))
  {}

  /** With nothing overwritten, once no reservation and no prepare is live every slot is free. */
  lemma AllFree(slots: nat, steps: seq<Step>)
    requires RunFrom(Init(slots), steps).Some? && !EverOverwrites(Init(slots), steps)
    ensures var s := RunFrom(Init(slots), steps).value;
            s.reservations == map[] && s.preparing == map[] ==> forall i :: 0 <= i < |s.slots| ==> !s.slots[i].busy
  {
    InitTight(slots);
    RunKeepsTight(Init(slots), steps);
    var s := RunFrom(Init(slots), steps).value;
    if s.reservations == map[] && s.preparing == map[] {
      forall i | 0 <= i < |s.slots| ensures !s.slots[i].busy {
        assert forall o :: !Owns(s, o, i);
      }
    }
  }

  // ---------------------------------------------------------------- condemned slots

  /** After a slot is condemned no later step hands it out, and no later prepare begins. */
  lemma {:induction false} CondemnedForever(s: State, i: nat, steps: seq<Step>)
    requires i < |s.slots| && !s.slots[i].healthy && RunFrom(s, steps).Some?
    ensures forall k :: 0 <= k < |steps| ==> !steps[k].BeginPrepare? && !(steps[k].Acquire? && steps[k].slot == i)
    ensures var s' := RunFrom(s, steps).value; i < |s'.slots| && !s'.slots[i].healthy && !PoolHealthy(s')
    decreases |steps|
  {
    if steps != [] {
      CondemnedForever(After(s, steps[0]), i, steps[1..]);
      forall k | 0 <= k < |steps| ensures !steps[k].BeginPrepare? && !(steps[k].Acquire? && steps[k].slot == i) {
        if k > 0 {
          assert steps[k] == steps[1..][k - 1];
        }
      }
    }
  }
}
