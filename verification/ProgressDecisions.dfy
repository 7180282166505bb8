/**
  What a confirmation comes to, stated on the positions of the log and on the request alone: which
  status it gets, what it leaves in the log, and what is carried on from it.
 */
module ProgressDecisions {
  import opened Prelude
  import opened Ordering
  import opened AttemptProgress

  // ---------------------------------------------------------------- who holds the generation

  predicate Opens(e: Event, g: string) {
    e.Acquired? && e.generation == g
  }

  predicate Shuts(e: Event, g: string) {
    e.Closed? && e.generation == g
  }

  /** The last event that opens or shuts the generation stands here. */
  predicate LastGate(log: Log, g: string, k: nat) {
    && k < |log| && (Opens(log[k], g) || Shuts(log[k], g))
    && forall j :: k < j < |log| ==> !Opens(log[j], g) && !Shuts(log[j], g)
  }

  ghost predicate HeldBy(log: Log, g: string, attempt: string) {
    exists k: nat :: LastGate(log, g, k) && log[k] == Acquired(g, attempt)
  }

  ghost predicate ShutNow(log: Log, g: string) {
    exists k: nat :: LastGate(log, g, k) && log[k] == Closed(g)
  }

  predicate NeverOpened(log: Log, g: string) {
    forall k :: 0 <= k < |log| ==> !Opens(log[k], g) && !Shuts(log[k], g)
  }

  lemma {:induction false} GateFound(log: Log, g: string) returns (k: nat)
    requires GateOf(log, g) != Unknown
    ensures LastGate(log, g, k)
    ensures GateOf(log, g) == if log[k].Acquired? then Open(log[k].attempt) else Shut
  {
    var e := log[|log| - 1];
    if Opens(e, g) || Shuts(e, g) {
      k := |log| - 1;
    } else {
      k := GateFound(log[..|log| - 1], g);
    }
  }

  lemma {:induction false} GateUnknown(log: Log, g: string)
    ensures GateOf(log, g) == Unknown <==> NeverOpened(log, g)
  {
    if log != [] {
      var front, e := log[..|log| - 1], log[|log| - 1];
      GateUnknown(front, g);
      assert log == front + [e];
      assert NeverOpened(log, g) <==> NeverOpened(front, g) && !Opens(e, g) && !Shuts(e, g) by {
        if NeverOpened(front, g) {
          assert forall k :: 0 <= k < |front| ==> log[k] == front[k];
        }
      }
    }
  }

  lemma GateExact(log: Log, g: string)
    ensures forall attempt :: GateOf(log, g) == Open(attempt) <==> HeldBy(log, g, attempt)
    ensures GateOf(log, g) == Shut <==> ShutNow(log, g)
    ensures GateOf(log, g) == Unknown <==> NeverOpened(log, g)
  {
    GateUnknown(log, g);
    if GateOf(log, g) != Unknown {
      var k := GateFound(log, g);
      assert forall j: nat :: LastGate(log, g, j) ==> j == k;
    }
  }

  // ---------------------------------------------------------------- what was accepted

  /** The positions of the generation's accepted records. */
  function AcceptedPlaces(log: Log, g: string): set<nat> {
    set k: nat | k < |log| && log[k].Progress? && log[k].generation == g && log[k].status == Accepted
  }

  lemma {:induction false} AcceptedCount(log: Log, g: string)
    ensures |AcceptedOf(log, g)| == |AcceptedPlaces(log, g)|
  {
    if log != [] {
      var front, e := log[..|log| - 1], log[|log| - 1];
      AcceptedCount(front, g);
      assert log == front + [e];
      if IsAccepted(e, g) {
        assert AcceptedPlaces(log, g) == AcceptedPlaces(front, g) + {|front|};
      } else {
        assert AcceptedPlaces(log, g) == AcceptedPlaces(front, g);
      }
    }
  }

  ghost predicate EvidenceAccepted(log: Log, g: string, evidence: string) {
    exists k: nat :: k in AcceptedPlaces(log, g) && log[k].evidence == evidence
  }

  lemma EvidenceExact(log: Log, g: string, evidence: string)
    ensures HasEvidence(AcceptedOf(log, g), evidence) <==> EvidenceAccepted(log, g, evidence)
  {
    NotBefore(log, g, evidence);
    if EvidenceAccepted(log, g, evidence) {
      var k: nat :| k in AcceptedPlaces(log, g) && log[k].evidence == evidence;
      assert AcceptedAt(log, k);
    }
    if k: nat :| AcceptedAt(log, k) && log[k].generation == g && log[k].evidence == evidence {
      assert k in AcceptedPlaces(log, g);
    }
  }

  /** Some record has this id already. */
  ghost predicate IdSpent(log: Log, id: string) {
    exists k :: 0 <= k < |log| && log[k].Progress? && log[k].id == id
  }

  predicate IsHex(c: char) {
    '0' <= c <= '9' || 'a' <= c <= 'f'
  }

  /** What makes confirmed evidence acceptable: a real judge, nothing left empty, and a digest of 64 hex digits. */
  predicate WellAttested(e: Evidence) {
    && e.judge in {Deterministic, Native, Cpa} && e.id != [] && e.moved != [] && e.replay != []
    && |e.sealed| == 64 && forall i :: 0 <= i < 64 ==> IsHex(e.sealed[i])
  }

  lemma HexDigits(c: char)
    ensures c in HEX_DIGITS <==> IsHex(c)
  {
    if IsHex(c) {
      var i := if c <= '9' then c as int - '0' as int else c as int - 'a' as int + 10;
      assert HEX_DIGITS[i] == c;
    }
  }

  lemma ArtifactExact(e: Evidence)
    ensures ConfirmedArtifact(e) <==> e.classification == Confirmed && WellAttested(e)
  {
    forall i | 0 <= i < |e.sealed| ensures e.sealed[i] in HEX_DIGITS <==> IsHex(e.sealed[i]) {
      HexDigits(e.sealed[i]);
    }
  }

  // ---------------------------------------------------------------- the answer

  /** The request comes from the holder, brings new evidence and names the present epoch. */
  ghost predicate InTurn(log: Log, r: Request) {
    && HeldBy(log, r.generation, r.attempt) && !EvidenceAccepted(log, r.generation, r.evidence.id)
    && r.epoch == |AcceptedPlaces(log, r.generation)|
  }

  function IdOf(name: Naming, r: Request): string {
    name(r.generation, r.checkpoint, r.evidence.id)
  }

  predicate Answers(answer: Prelude.Result<Outcome, Failure>, status: Status) {
    answer.Ok? && answer.value.status == status
  }

  /** Accepted, exactly: in turn, confirmed, well attested, and under an id not spent before. */
  lemma AcceptedExactly(log: Log, name: Naming, r: Request)
    ensures Answers(Confirm(log, name, r).1, Accepted) <==>
              && InTurn(log, r) && r.evidence.classification == Confirmed && WellAttested(r.evidence)
              && !IdSpent(log, IdOf(name, r))
  {
    Readings(log, r);
  }

  /** Everything the decision reads, in the terms of positions. */
  lemma Readings(log: Log, r: Request)
    ensures forall attempt :: GateOf(log, r.generation) == Open(attempt) <==> HeldBy(log, r.generation, attempt)
    ensures GateOf(log, r.generation) == Shut <==> ShutNow(log, r.generation)
    ensures GateOf(log, r.generation) == Unknown <==> NeverOpened(log, r.generation)
    ensures |AcceptedOf(log, r.generation)| == |AcceptedPlaces(log, r.generation)|
    ensures HasEvidence(AcceptedOf(log, r.generation), r.evidence.id) <==>
            EvidenceAccepted(log, r.generation, r.evidence.id)
    ensures ConfirmedArtifact(r.evidence) <==> r.evidence.classification == Confirmed && WellAttested(r.evidence)
  {
    GateExact(log, r.generation);
    AcceptedCount(log, r.generation);
    EvidenceExact(log, r.generation, r.evidence.id);
    ArtifactExact(r.evidence);
  }

  /** Each refusal has its own condition. */
  lemma RefusedExactly(log: Log, name: Naming, r: Request)
    ensures var answer, spent := Confirm(log, name, r).1, IdSpent(log, IdOf(name, r));
            && (Answers(answer, Unconfirmed) <==>
                  && InTurn(log, r) && !spent
                  && (r.evidence.classification == Activity
                      || (r.evidence.classification == Confirmed && !WellAttested(r.evidence))))
            && (Answers(answer, NoInferenceMade) <==>
                  InTurn(log, r) && !spent && r.evidence.classification == NoInference)
            && (Answers(answer, StaleEpoch) <==>
                  && HeldBy(log, r.generation, r.attempt) && !EvidenceAccepted(log, r.generation, r.evidence.id)
                  && r.epoch != |AcceptedPlaces(log, r.generation)| && !spent)
            && (Answers(answer, OwnerMismatch) <==>
                  !spent && exists other :: other != r.attempt && HeldBy(log, r.generation, other))
  {
    Readings(log, r);
  }

  /** So have the answers that record no decision. */
  lemma UnrecordedExactly(log: Log, name: Naming, r: Request)
    ensures var answer, spent := Confirm(log, name, r).1, IdSpent(log, IdOf(name, r));
            && (answer == Err(UnknownGeneration) <==> NeverOpened(log, r.generation))
            && (Answers(answer, Late) <==> ShutNow(log, r.generation))
            && (Answers(answer, Repeated) <==>
                  HeldBy(log, r.generation, r.attempt) && EvidenceAccepted(log, r.generation, r.evidence.id))
            && (answer == Err(DuplicateEvent) <==>
                  && spent && (exists holder :: HeldBy(log, r.generation, holder))
                  && !(HeldBy(log, r.generation, r.attempt) && EvidenceAccepted(log, r.generation, r.evidence.id)))
  {
    Readings(log, r);
  }

  // ---------------------------------------------------------------- what the log gains

  /** The record says what was asked and what was answered. */
  predicate RecordsRequest(e: Event, id: string, r: Request, answer: Outcome) {
    && e.Progress? && e.id == id && e.generation == r.generation && e.attempt == r.attempt
    && e.checkpoint == r.checkpoint && e.evidence == r.evidence.id && e.sealed == r.evidence.sealed
    && e.moved == r.evidence.moved && e.replay == r.evidence.replay && e.status == answer.status
    && e.epochBefore == answer.epochBefore && e.epochAfter == answer.epochAfter && e.carry == answer.carry
  }

  lemma ConfirmLeaves(log: Log, name: Naming, r: Request)
    ensures var (log', answer) := Confirm(log, name, r);
            && (answer == Err(UnknownGeneration) ==> log' == log)
            && (Answers(answer, Late) ==> log' == log + [LateEvent(r.generation, r)])
            && (answer == Err(DuplicateEvent) || Answers(answer, Repeated) ==> log' == log + [Authority(r.generation)])
            && (answer.Ok? && answer.value.status !in {Late, Repeated} ==>
                  && |log'| == |log| + 2 && log'[..|log| + 1] == log + [Authority(r.generation)]
                  && RecordsRequest(log'[|log| + 1], IdOf(name, r), r, answer.value))
  {}

  /**
    The epochs an answer names are the number accepted before it, and one more after an acceptance; it
    carries as many checkpoints, unless it came too late.
   */
  lemma AnswerEpochs(log: Log, name: Naming, r: Request)
    requires Confirm(log, name, r).1.Ok?
    ensures var answer, n := Confirm(log, name, r).1.value, |AcceptedPlaces(log, r.generation)|;
            && answer.epochBefore == n && answer.epochAfter == (if answer.status == Accepted then n + 1 else n)
            && answer.carry.generation == r.generation
            && |answer.carry.checkpoints| == if answer.status == Late then 0 else answer.epochAfter
  {
    AcceptedCount(log, r.generation);
  }

  // ---------------------------------------------------------------- what is carried on

  /** The position of the n-th accepted record of the generation. */
  lemma {:induction false} AcceptedPlace(log: Log, g: string, n: nat) returns (k: nat)
    requires n < |AcceptedOf(log, g)|
    ensures k in AcceptedPlaces(log, g) && log[k] == AcceptedOf(log, g)[n]
  {
    var front := log[..|log| - 1];
    if n < |AcceptedOf(front, g)| {
      k := AcceptedPlace(front, g, n);
    } else {
      k := |log| - 1;
    }
  }

  /**
    Every record of every run carries one checkpoint for each record its generation had accepted up
    to and including it, in the order of their epochs, each with that record's own contents.
   */
  lemma CarryLists(name: Naming, calls: seq<Call>, k: nat, n: nat)
    requires k < |Run(name, calls)| && Run(name, calls)[k].Progress?
    ensures var log := Run(name, calls);
            var e := log[k];
            && e.carry.generation == e.generation
            && |e.carry.checkpoints| == |AcceptedPlaces(log[..k + 1], e.generation)|
            && (n < |e.carry.checkpoints| ==>
                  exists i: nat :: i in AcceptedPlaces(log[..k + 1], e.generation) && log[i].epochBefore == n
                                   && e.carry.checkpoints[n]
                                      == Checkpoint(log[i].evidence, log[i].sealed, log[i].moved, log[i].replay))
  {
    RunGood(name, calls);
    var log := Run(name, calls);
    var upto, g := log[..k + 1], log[k].generation;
    CarriesPrefix(log, k);
    AcceptedCount(upto, g);
    GoodPrefix(log, k + 1);
    EpochsCount(upto, g);
    if n < |AcceptedOf(upto, g)| {
      var i := AcceptedPlace(upto, g, n);
      assert log[i] == upto[i];
    }
  }

  lemma {:induction false} GoodPrefix(log: Log, k: nat)
    requires Good(log) && k <= |log|
    ensures Good(log[..k])
  {
    if k == |log| {
      assert log[..k] == log;
    } else {
      GoodPrefix(log[..|log| - 1], k);
      assert log[..|log| - 1][..k] == log[..k];
    }
  }

  // ---------------------------------------------------------------- what the receipt lists

  /** The receipt's decisions are the log's progress records in order, and its count is of the accepted ones. */
  lemma {:induction false} DecisionsExact(log: Log) returns (places: seq<nat>)
    ensures Increasing(places) && |places| == |ReceiptOf(log).decisions|
    ensures forall k: nat :: k in places <==> k < |log| && log[k].Progress?
    ensures forall i :: 0 <= i < |places| ==> places[i] < |log| && ReceiptOf(log).decisions[i] == log[places[i]]
  {
    if log == [] {
      places := [];
    } else {
      var front, e := log[..|log| - 1], log[|log| - 1];
      places := DecisionsExact(front);
      assert log == front + [e];
      if e.Progress? {
        places := places + [|front|];
      }
    }
  }

  lemma {:induction false} AcceptedTotal(log: Log)
    ensures ReceiptOf(log).accepted == |set k: nat | k < |log| && AcceptedAt(log, k)|
  {
    if log != [] {
      var front, e := log[..|log| - 1], log[|log| - 1];
      AcceptedTotal(front);
      assert log == front + [e];
      var before, now := set k: nat | k < |front| && AcceptedAt(front, k), set k: nat | k < |log| && AcceptedAt(log, k);
      if e.Progress? && e.status == Accepted {
        assert now == before + {|front|};
      } else {
        assert now == before;
      }
    }
  }
}
