/**
  The broker's profile methods, as one boot runs them.  A ghost trace of gate steps leads to the same
  log, receipt file and session flags, so what holds of every run holds after any of these calls.
 */
module ProfileBroker {
  import opened Prelude
  import opened ProfilePhase
  import opened ProfileGate

  datatype Refusal = PeerRefused | OtherRules | ReceiptDiffers | OtherSource | NotAuthoritative

  lemma {:induction false} RunSnoc(s: State, steps: seq<Step>, step: Step, required: bool)
    requires RunFrom(s, steps, required).Some? && Enabled(RunFrom(s, steps, required).value, step, required)
    ensures RunFrom(s, steps + [step], required) == Some(After(RunFrom(s, steps, required).value, step, required))
    decreases |steps|
  {
    var all := steps + [step];
    if steps == [] {
      assert all == [step] && all[1..] == [];
    } else {
      assert all[1..] == steps[1..] + [step];
      RunSnoc(After(s, steps[0], required), steps[1..], step, required);
    }
  }

  class ProfileBroker {
    const required: bool
    const handle: nat
    var log: Log
    var disk: Option<Receipt>
    var peer: nat
    var operating: bool
    var named: Option<Receipt>
    ghost var stage: Stage
    ghost var trace: seq<Step>

    ghost function Current(): State
      reads this
    {
      State(log, disk, Some(Boot(peer, operating, named, stage)))
    }

    ghost predicate Valid()
      reads this
    {
      RunFrom(INIT, trace, required) == Some(Current())
    }

    /** A new boot over whatever earlier boots left. */
    constructor (required: bool, handle: nat, store: Log, receipt: Option<Receipt>, ghost history: seq<Step>)
      requires RunFrom(INIT, history, required) == Some(State(store, receipt, None))
      ensures Valid() && stage == Idle && !operating && peer == 0 && log == store && disk == receipt
      ensures this.required == required && this.handle == handle
    {
      this.required, this.handle := required, handle;
      log, disk, peer, operating, named := store, receipt, 0, false, None;
      stage, trace := Idle, history + [StartBoot];
      new;
      RunKeeps(INIT, history, required);
      RunSnoc(INIT, history, StartBoot, required);
      assert store + [] == store;
    }

    /** Extend the trace by a step whose effect on the fields has already been worked out. */
    ghost method Took(step: Step, before: State)
      requires RunFrom(INIT, trace, required) == Some(before) && Enabled(before, step, required)
      requires Current() == After(before, step, required)
      modifies this`trace
      ensures Valid()
    {
      RunSnoc(INIT, trace, step, required);
      trace := trace + [step];
    }

    /** The handle must match, and the peer must be the one this boot, or its undecided probe, belongs to. */
    method Authorise(supplied: nat, caller: nat) returns (ok: bool)
      requires Valid() && stage == Idle
      ensures Project(log).Some?
      ensures ok <==>
                handle != 0 && supplied == handle
                && Authorised(Project(log).value, Boot(peer, operating, named, Idle), caller)
      ensures var p := Project(log).value;
              ok <==> && handle != 0 && supplied == handle && caller != 0 && (peer != 0 ==> caller == peer)
                      && (peer == 0 && p.verdict.None? && p.peer != 0 ==> caller == p.peer)
    {
      RunKeeps(INIT, trace, required);
      var phase := ProjectProfilePhase(log);
      var expected := if peer != 0 then peer else if phase.value.verdict.None? then phase.value.peer else 0;
      ok := handle != 0 && supplied == handle && caller != 0 && (expected == 0 || expected == caller);
    }

    /**
      Qualify the profile.  A decided phase is never probed again: its own decision comes back, and
      only for the same rules, an unchanged receipt file and the same source.  Otherwise one probe is
      started, observed, sealed on disk and decided.
     */
    method QualifyProfile(supplied: nat, caller: nat, rules: nat, source: nat, documents: nat, verdict: bool,
                          evidence: nat)
      returns (r: Prelude.Result<bool, Refusal>)
      requires Valid() && stage == Idle
      modifies this`log, this`disk, this`peer, this`named, this`stage, this`trace
      ensures Valid() && stage == Idle && Project(log).Some?
      ensures r == Err(PeerRefused) ==> log == old(log) && disk == old(disk) && peer == old(peer)
      ensures r != Err(PeerRefused) ==> peer == caller
      ensures Project(old(log)).Some?
      ensures var p := Project(old(log)).value;
              r != Err(PeerRefused) <==>
                && handle != 0 && supplied == handle && caller != 0 && (old(peer) != 0 ==> caller == old(peer))
                && (old(peer) == 0 && p.verdict.None? && p.peer != 0 ==> caller == p.peer)
      ensures r.Ok? ==> Project(log).value.verdict.Some? && Project(log).value.verdict.value.authoritative == r.value
                        && Project(log).value.rules == rules
                        && disk == named == Some(Project(log).value.verdict.value.receipt)
                        && named.value.source == source
      ensures var p := Project(old(log)).value;
              p.verdict.Some? ==>
                && log == old(log) && disk == old(disk)
                && (r.Ok? <==> r != Err(PeerRefused) && p.rules == rules && p.verdict.value.receipt.source == source)
      ensures r != Err(PeerRefused) && Project(old(log)).value.verdict.None? ==>
                r == Ok(verdict) && named == Some(Receipt(Project(log).value.probe, rules, source, verdict, evidence))
    {
      var ok := Authorise(supplied, caller);
      if !ok {
        return Err(PeerRefused);
      }
      var phase := ProjectProfilePhase(log);
      if phase.value.verdict.Some? {
        r := ReadBack(caller, rules, source);
        return;
      }
      Probe(caller, rules, source, documents, verdict, evidence);
      return Ok(verdict);
    }

    /** One probe from its start to its decision. */
    method Probe(caller: nat, rules: nat, source: nat, documents: nat, verdict: bool, evidence: nat)
      requires Valid() && stage == Idle && Project(log).Some? && Project(log).value.verdict.None?
      requires Authorised(Project(log).value, Boot(peer, operating, named, Idle), caller)
      modifies this`log, this`disk, this`peer, this`named, this`stage, this`trace
      ensures Valid() && stage == Idle && peer == caller && Project(log).Some?
      ensures Project(log).value.rules == rules && Project(log).value.probe == Project(old(log)).value.starts + 1
      ensures disk == named == Some(Receipt(Project(log).value.probe, rules, source, verdict, evidence))
      ensures Project(log).value.verdict == Some(Verdict(verdict, named.value))
    {
      var probe := StartProbe(caller, rules, source);
      RecordObservations(documents);
      SealAndDecide(probe, rules, source, verdict, evidence);
    }

    /** Append the start of the next probe. */
    method StartProbe(caller: nat, rules: nat, source: nat) returns (probe: nat)
      requires Valid() && stage == Idle && Project(log).Some? && Project(log).value.verdict.None?
      requires Authorised(Project(log).value, Boot(peer, operating, named, Idle), caller)
      modifies this`log, this`peer, this`stage, this`trace
      ensures Valid() && peer == caller && stage == Probing(probe, rules, source)
      ensures probe == Project(old(log)).value.starts + 1 && log == old(log) + [Started(probe, rules, caller)]
    {
      ghost var before := Current();
      var phase := ProjectProfilePhase(log);
      probe := phase.value.starts + 1;
      log := log + [Started(probe, rules, caller)];
      peer, stage := caller, Probing(probe, rules, source);
      Took(BeginProbe(caller, rules, source), before);
    }

    /** The decision already in the log, if the caller and the receipt file still agree with it. */
    method ReadBack(caller: nat, rules: nat, source: nat) returns (r: Prelude.Result<bool, Refusal>)
      requires Valid() && stage == Idle && Project(log).Some? && Project(log).value.verdict.Some?
      requires Authorised(Project(log).value, Boot(peer, operating, named, Idle), caller)
      modifies this`peer, this`named, this`trace
      ensures Valid() && peer == caller && r != Err(PeerRefused)
      ensures r.Ok? <==> Project(log).value.rules == rules && Project(log).value.verdict.value.receipt.source == source
      ensures r.Ok? ==> r.value == Project(log).value.verdict.value.authoritative
      ensures Project(log).value.rules == rules ==> disk == named == Some(Project(log).value.verdict.value.receipt)
      ensures Project(log).value.rules != rules ==> named == old(named)
    {
      RunKeeps(INIT, trace, required);
      ghost var before := Current();
      var phase := ProjectProfilePhase(log);
      var receipt := phase.value.verdict.value.receipt;
      peer := caller;
      if phase.value.rules != rules {
        r := Err(OtherRules);
      } else if disk != Some(receipt) {
        r := Err(ReceiptDiffers);
      } else {
        named := disk;
        r := if receipt.source != source then Err(OtherSource) else Ok(phase.value.verdict.value.authoritative);
      }
      assert log + [] == log;
      Took(ReadDecision(caller, rules, source), before);
    }

    /** Each document read is recorded before the next one is asked for. */
    method RecordObservations(documents: nat)
      requires Valid() && stage.Probing?
      modifies this`log, this`trace
      ensures Valid() && Project(log) == Project(old(log)) && log == old(log) + seq(documents, _ => Elsewhere)
    {
      for k := 0 to documents
        invariant Valid() && Project(log) == Project(old(log)) && log == old(log) + seq(k, _ => Elsewhere)
      {
        RunKeeps(INIT, trace, required);
        ghost var before := Current();
        ProjectMore(log, Elsewhere);
        log := log + [Elsewhere];
        Took(Append, before);
      }
    }

    /** Write the receipt, then append the decision that names it. */
    method SealAndDecide(probe: nat, rules: nat, source: nat, verdict: bool, evidence: nat)
      requires Valid() && stage == Probing(probe, rules, source)
      modifies this`log, this`disk, this`named, this`stage, this`trace
      ensures Valid() && stage == Idle && Project(log).Some?
      ensures var receipt := Receipt(probe, rules, source, verdict, evidence);
              disk == named == Some(receipt) && Project(log).value.verdict == Some(Verdict(verdict, receipt))
              && Project(log).value.rules == rules && Project(log).value.probe == probe
    {
      RunKeeps(INIT, trace, required);
      ghost var before := Current();
      var receipt := Receipt(probe, rules, source, verdict, evidence);
      disk, stage := Some(receipt), Sealed(receipt);
      assert log + [] == log;
      Took(Seal(verdict, evidence), before);
      ghost var sealed := Current();
      ProjectMore(log, Decided(probe, rules, verdict, receipt));
      log := log + [Decided(probe, rules, verdict, receipt)];
      named, stage := disk, Idle;
      Took(Decide, sealed);
    }

    /** Open operations for this boot; refused unless the log holds an authoritative decision. */
    method OpenProfiledOperations(supplied: nat, caller: nat) returns (r: Prelude.Result<(), Refusal>)
      requires Valid() && stage == Idle
      modifies this`log, this`peer, this`operating, this`named, this`trace
      ensures Valid() && Project(old(log)).Some?
      ensures var p := Project(old(log)).value;
              var authorised := && handle != 0 && supplied == handle && caller != 0
                                && (old(peer) != 0 ==> caller == old(peer))
                                && (old(peer) == 0 && p.verdict.None? && p.peer != 0 ==> caller == p.peer);
              && (r == Err(PeerRefused) <==> !authorised)
              && (r == Err(NotAuthoritative) <==> authorised && !Authoritative(p))
              && (r.Ok? <==> authorised && Authoritative(p))
      ensures r == Err(NotAuthoritative) ==> !Authoritative(Project(old(log)).value) && log == old(log)
                                             && operating == old(operating) && peer == caller
      ensures r == Err(PeerRefused) ==> log == old(log) && operating == old(operating) && peer == old(peer)
      ensures r.Ok? ==> operating && peer == caller && Project(log).Some? && Project(log).value.operating
                        && Authoritative(Project(log).value) && named == Some(Project(log).value.verdict.value.receipt)
    {
      var ok := Authorise(supplied, caller);
      if !ok {
        return Err(PeerRefused);
      }
      var phase := ProjectProfilePhase(log);
      if Authoritative(phase.value) {
        OpenForBoot(caller);
        return Ok(());
      }
      ghost var before := Current();
      peer := caller;
      assert log + [] == log;
      Took(Present(caller), before);
      return Err(NotAuthoritative);
    }

    /** Append the opening unless it is in the log already, and mark this boot as operating. */
    method OpenForBoot(caller: nat)
      requires Valid() && stage == Idle && Project(log).Some? && Authoritative(Project(log).value)
      requires Authorised(Project(log).value, Boot(peer, operating, named, Idle), caller)
      modifies this`log, this`peer, this`operating, this`named, this`trace
      ensures Valid() && operating && peer == caller && Project(log).Some? && Project(log).value.operating
      ensures Authoritative(Project(log).value) && named == Some(Project(log).value.verdict.value.receipt)
    {
      RunKeeps(INIT, trace, required);
      ghost var before := Current();
      var projected := ProjectProfilePhase(log);
      var phase := projected.value;
      var receipt := phase.verdict.value.receipt;
      var written := if phase.operating then [] else [Opened(phase.probe, phase.rules, receipt)];
      LogAfter(log, written);
      log, peer, operating := log + written, caller, true;
      if named.None? {
        named := Some(receipt);
      }
      Took(Open(caller), before);
    }

    /** Whether ordinary operations may be dispatched now. */
    method ProfileAllowsOperations() returns (allowed: bool)
      requires Valid()
      ensures allowed <==> operating || (!required && forall i :: 0 <= i < |log| ==> !log[i].Started?)
      ensures allowed && required ==> Project(log).Some? && Authoritative(Project(log).value)
    {
      RunKeeps(INIT, trace, required);
      var phase := ProjectProfilePhase(log);
      StartsCount(log);
      allowed := operating || (phase.value.probe == 0 && !required);
    }
  }
}
