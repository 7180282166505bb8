/** The progress controller: confirmation, carry and expiry over the log it appends to. */
module ProgressControl {
  import opened Prelude
  import opened AttemptProgress
  import opened ProgressDecisions

  /** The accepted records of a generation, selected in one pass. */
  method SelectAccepted(log: Log, g: string) returns (r: Log)
    ensures r == AcceptedOf(log, g)
  {
    r := [];
    for i := 0 to |log|
      invariant r == AcceptedOf(log[..i], g)
    {
      assert log[..i + 1][..i] == log[..i];
      if IsAccepted(log[i], g) {
        r := r + [log[i]];
      }
    }
    assert log[..|log|] == log;
  }

  method SelectGate(log: Log, g: string) returns (r: Gate)
    ensures r == GateOf(log, g)
  {
    r := Unknown;
    for i := 0 to |log|
      invariant r == GateOf(log[..i], g)
    {
      var e := log[i];
      assert log[..i + 1][..i] == log[..i];
      if e.Acquired? && e.generation == g {
        r := Open(e.attempt);
      } else if e.Closed? && e.generation == g {
        r := Shut;
      }
    }
    assert log[..|log|] == log;
  }

  class ProgressController {
    const name: Naming
    var log: Log
    ghost var calls: seq<Call>

    ghost predicate Valid()
      reads this
    {
      log == Run(name, calls)
    }

    constructor (name: Naming)
      ensures Valid() && log == [] && this.name == name
    {
      this.name, log, calls := name, [], [];
    }

    /** Record the call that produced the present log. */
    ghost method Called(call: Call, before: Log)
      requires before == Run(name, calls) && log == Apply(before, name, call)
      modifies this`calls
      ensures Valid() && calls == old(calls) + [call]
    {
      assert (calls + [call])[..|calls|] == calls;
      calls := calls + [call];
    }

    /**
      Confirm one request.  The log gains what the specification says it gains, and the answer is the
      specified one: in particular an acceptance returns the next epoch and the carry of everything
      accepted so far including it.
     */
    method ConfirmRequest(r: Request) returns (answer: Prelude.Result<Outcome, Failure>)
      requires Valid()
      modifies this
      ensures Valid() && calls == old(calls) + [Confirming(r)]
      ensures (log, answer) == Confirm(old(log), name, r)
      ensures Answers(answer, Accepted) <==>
                && InTurn(old(log), r) && r.evidence.classification == Confirmed && WellAttested(r.evidence)
                && !IdSpent(old(log), IdOf(name, r))
      ensures answer.Ok? && answer.value.status !in {Late, Repeated} ==>
                |log| == |old(log)| + 2 && RecordsRequest(log[|old(log)| + 1], IdOf(name, r), r, answer.value)
      ensures answer.Ok? && answer.value.status == Accepted ==>
                answer.value.carry == CarryNow(log, r.generation)
                && answer.value.epochAfter == answer.value.epochBefore + 1
    {
      ghost var before := log;
      AcceptedExactly(log, name, r);
      ConfirmLeaves(log, name, r);
      var gate := SelectGate(log, r.generation);
      if gate == Unknown {
        Called(Confirming(r), before);
        return Err(UnknownGeneration);
      }
      var accepted := SelectAccepted(log, r.generation);
      if gate == Shut {
        log := log + [LateEvent(r.generation, r)];
        Called(Confirming(r), before);
        return Ok(Outcome(Late, |accepted|, |accepted|, Carry(r.generation, [])));
      }
      var status := Decide(log, gate.attempt, r);
      var record := RecordFor(log, name, r, status);
      var taken := HasId(log, record.id);
      log := log + [Authority(r.generation)];
      if status != Repeated && taken {
        Called(Confirming(r), before);
        return Err(DuplicateEvent);
      }
      if status != Repeated {
        log := log + [record];
      }
      Called(Confirming(r), before);
      answer := Ok(Outcome(status, record.epochBefore, record.epochAfter, record.carry));
      if status == Accepted {
        RunGood(name, old(calls));
        AcceptedCarries(before, name, r);
      }
    }

    /** The carried projection: everything accepted while the generation is current, else nothing. */
    method CarryFor(g: string) returns (c: Carry)
      requires Valid()
      ensures c == CarryNow(log, g) && c.generation == g
      ensures |c.checkpoints| == if (exists holder :: HeldBy(log, g, holder)) then |AcceptedPlaces(log, g)| else 0
    {
      GateExact(log, g);
      AcceptedCount(log, g);
      var gate := SelectGate(log, g);
      var accepted := SelectAccepted(log, g);
      c := if gate.Open? then Carry(g, Carried(accepted)) else Carry(g, []);
    }

    /** A generation expires at the cliff unless something was accepted beyond the given epoch. */
    method Expired(g: string, epoch: int, steps: nat, cliff: nat) returns (expired: bool)
      requires Valid()
      ensures expired <==> epoch >= 0 && steps >= cliff
                           && !exists i :: 0 <= i < |AcceptedOf(log, g)| && AcceptedOf(log, g)[i].epochBefore >= epoch
    {
      var accepted := SelectAccepted(log, g);
      expired := steps >= cliff && |accepted| <= epoch;
      RunGood(name, calls);
      EpochsCount(log, g);
      if |accepted| > epoch >= 0 {
        assert accepted[epoch].epochBefore == epoch;
      }
    }
  }

  /** What an acceptance returns is what the log then carries. */
  lemma AcceptedCarries(log: Log, name: Naming, r: Request)
    requires Good(log) && Confirm(log, name, r).1.Ok? && Confirm(log, name, r).1.value.status == Accepted
    ensures Confirm(log, name, r).1.value.carry == CarryNow(Confirm(log, name, r).0, r.generation)
  {
    var log' := Confirm(log, name, r).0;
    ConfirmKeeps(log, name, r);
    var granted := log + [Authority(r.generation)];
    assert log'[..|log| + 1] == granted && granted[..|log|] == log;
    assert GateOf(log', r.generation) == GateOf(granted, r.generation) == GateOf(log, r.generation);
    CarryAgrees(log', |log'| - 1);
  }
}
