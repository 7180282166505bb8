/**
  Accept-once evidence under a generation, with the digest of everything accepted carried in each
  record, and the receipt projected from the log.

  How an event id is made from generation, checkpoint and evidence is a parameter, and nothing
  assumes that different triples get different ids.  Digests are injective, so the carried
  projection stands for its own digest.
 */
module AttemptProgress {
  import opened Prelude

  datatype Classification = Confirmed | Activity | NoInference

  /** Who judged the evidence; `Unrecognised` is a source that is not of the enumeration. */
  datatype Judge = Deterministic | Native | Cpa | NoJudge | Unrecognised

  datatype Evidence = Evidence(id: string, sealed: string, judge: Judge, classification: Classification, moved: string,
                               replay: string)

  datatype Request = Request(generation: string, attempt: string, checkpoint: string, epoch: int, evidence: Evidence)

  datatype Status = Accepted | Repeated | Unconfirmed | NoInferenceMade | StaleEpoch | OwnerMismatch | Late

  datatype Checkpoint = Checkpoint(evidence: string, sealed: string, moved: string, replay: string)

  datatype Carry = Carry(generation: string, checkpoints: seq<Checkpoint>)

  datatype Event =
    | Progress(id: string, generation: string, attempt: string, checkpoint: string, evidence: string, sealed: string,
               moved: string, replay: string, status: Status, epochBefore: nat, epochAfter: nat, carry: Carry)
    | Acquired(generation: string, attempt: string)
    | Closed(generation: string)
    | Authority(generation: string)
    | LateEvent(generation: string, request: Request)
    | Elsewhere

  type Log = seq<Event>

  /** How event ids are made. */
  type Naming = (string, string, string) -> string

  datatype Outcome = Outcome(status: Status, epochBefore: nat, epochAfter: nat, carry: Carry)

  datatype Failure = UnknownGeneration | DuplicateEvent

  // ---------------------------------------------------------------- what is read back

  datatype Gate = Unknown | Open(attempt: string) | Shut

  function GateOf(log: Log, g: string): Gate {
    if log == [] then Unknown
    else
      var e := log[|log| - 1];
      if e.Acquired? && e.generation == g then Open(e.attempt)
      else if e.Closed? && e.generation == g then Shut
      else GateOf(log[..|log| - 1], g)
  }

  predicate IsAccepted(e: Event, g: string) {
    e.Progress? && e.generation == g && e.status == Accepted
  }

  /** The accepted records of a generation, in order. */
  function AcceptedOf(log: Log, g: string): (r: Log)
    ensures forall i :: 0 <= i < |r| ==> IsAccepted(r[i], g)
  {
    if log == [] then []
    else AcceptedOf(log[..|log| - 1], g) + if IsAccepted(log[|log| - 1], g) then [log[|log| - 1]] else []
  }

  function CarriedOf(e: Event): Checkpoint
    requires e.Progress?
  {
    Checkpoint(e.evidence, e.sealed, e.moved, e.replay)
  }

  function Carried(accepted: Log): seq<Checkpoint>
    requires forall i :: 0 <= i < |accepted| ==> accepted[i].Progress?
  {
    seq(|accepted|, i requires 0 <= i < |accepted| => CarriedOf(accepted[i]))
  }

  function CarryOf(log: Log, g: string): Carry {
    Carry(g, Carried(AcceptedOf(log, g)))
  }

  predicate HasEvidence(accepted: Log, evidence: string) {
    exists i :: 0 <= i < |accepted| && accepted[i].Progress? && accepted[i].evidence == evidence
  }

  predicate HasId(log: Log, id: string) {
    exists i :: 0 <= i < |log| && log[i].Progress? && log[i].id == id
  }

  // ---------------------------------------------------------------- deciding

  const HEX_DIGITS: string := "0123456789abcdef"

  /** Confirmed by a real judge, with all its texts and a well-formed digest. */
  predicate ConfirmedArtifact(e: Evidence) {
    && e.classification == Confirmed && e.judge != Unrecognised && e.judge != NoJudge
    && e.id != "" && e.moved != "" && e.replay != ""
    && |e.sealed| == 64 && forall i :: 0 <= i < |e.sealed| ==> e.sealed[i] in HEX_DIGITS
  }

  /** The status of a request against the log, given the attempt that holds the generation. */
  function Decide(log: Log, holder: string, r: Request): Status {
    if holder != r.attempt then OwnerMismatch
    else if HasEvidence(AcceptedOf(log, r.generation), r.evidence.id) then Repeated
    else if r.epoch != |AcceptedOf(log, r.generation)| then StaleEpoch
    else if r.evidence.classification == NoInference then NoInferenceMade
    else if r.evidence.classification == Activity || !ConfirmedArtifact(r.evidence) then Unconfirmed
    else Accepted
  }

  function RecordFor(log: Log, name: Naming, r: Request, status: Status): Event {
    var n := |AcceptedOf(log, r.generation)|;
    var checkpoints := Carried(AcceptedOf(log, r.generation));
    var e := r.evidence;
    if status == Accepted then
      Progress(name(r.generation, r.checkpoint, e.id), r.generation, r.attempt, r.checkpoint, e.id, e.sealed, e.moved,
               e.replay, status, n, n + 1,
               Carry(r.generation, checkpoints + [Checkpoint(e.id, e.sealed, e.moved, e.replay)]))
    else
      Progress(name(r.generation, r.checkpoint, e.id), r.generation, r.attempt, r.checkpoint, e.id, e.sealed, e.moved,
               e.replay, status, n, n, Carry(r.generation, checkpoints))
  }

  /**
    What one confirmation does to the log.  An open generation grants authority first; a repeat is
    then answered without a record, and a record whose id is taken is refused by the store.
   */
  function Confirm(log: Log, name: Naming, r: Request): (Log, Prelude.Result<Outcome, Failure>) {
    match GateOf(log, r.generation)
    case Unknown => (log, Err(UnknownGeneration))
    case Shut =>
      var n := |AcceptedOf(log, r.generation)|;
      (log + [LateEvent(r.generation, r)], Ok(Outcome(Late, n, n, Carry(r.generation, []))))
    case Open(holder) =>
      var granted, status := log + [Authority(r.generation)], Decide(log, holder, r);
      var e := RecordFor(log, name, r, status);
      if status == Repeated then (granted, Ok(Outcome(Repeated, e.epochBefore, e.epochAfter, e.carry)))
      else if HasId(log, e.id) then (granted, Err(DuplicateEvent))
      else (granted + [e], Ok(Outcome(status, e.epochBefore, e.epochAfter, e.carry)))
  }

  /** The carried projection of a generation: empty unless it is current. */
  function CarryNow(log: Log, g: string): Carry {
    if GateOf(log, g).Open? then CarryOf(log, g) else Carry(g, [])
  }

  // ---------------------------------------------------------------- every run

  datatype Call = Confirming(request: Request) | Acquiring(generation: string, attempt: string)
    | Closing(generation: string) | Other

  function Apply(log: Log, name: Naming, call: Call): Log {
    match call
    case Confirming(r) => Confirm(log, name, r).0
    case Acquiring(g, attempt) => log + [Acquired(g, attempt)]
    case Closing(g) => log + [Closed(g)]
    case Other => log + [Elsewhere]
  }

  function Run(name: Naming, calls: seq<Call>): Log {
    if calls == [] then [] else Apply(Run(name, calls[..|calls| - 1]), name, calls[|calls| - 1])
  }

  /** A record that fits the log before it. */
  predicate Fits(log: Log, e: Event) {
    e.Progress? ==>
      && !HasId(log, e.id) && e.status !in {Repeated, Late}
      && e.epochBefore == |AcceptedOf(log, e.generation)|
      && (if e.status == Accepted
          then e.epochAfter == e.epochBefore + 1 && !HasEvidence(AcceptedOf(log, e.generation), e.evidence)
               && e.carry == Carry(e.generation, Carried(AcceptedOf(log, e.generation)) + [CarriedOf(e)])
          else e.epochAfter == e.epochBefore && e.carry == CarryOf(log, e.generation))
  }

  predicate Good(log: Log) {
    log == [] || (Good(log[..|log| - 1]) && Fits(log[..|log| - 1], log[|log| - 1]))
  }

  lemma GoodMore(log: Log, e: Event)
    requires Good(log) && Fits(log, e)
    ensures Good(log + [e])
  {
    assert (log + [e])[..|log|] == log;
  }

  /** An event that is no progress record changes nothing that deciding reads. */
  lemma QuietMore(log: Log, e: Event, g: string)
    requires !e.Progress?
    ensures AcceptedOf(log + [e], g) == AcceptedOf(log, g)
    ensures forall id :: HasId(log + [e], id) <==> HasId(log, id)
  {
    assert (log + [e])[..|log|] == log;
    forall id ensures HasId(log + [e], id) <==> HasId(log, id) {
      if HasId(log, id) {
        var i :| 0 <= i < |log| && log[i].Progress? && log[i].id == id;
        assert (log + [e])[i] == log[i];
      }
    }
  }

  lemma ConfirmKeeps(log: Log, name: Naming, r: Request)
    requires Good(log)
    ensures Good(Confirm(log, name, r).0)
  {
    match GateOf(log, r.generation)
    case Unknown =>
    case Shut => GoodMore(log, LateEvent(r.generation, r));
    case Open(holder) =>
      var authority := Authority(r.generation);
      GoodMore(log, authority);
      QuietMore(log, authority, r.generation);
      var status := Decide(log, holder, r);
      var e := RecordFor(log, name, r, status);
      if status != Repeated && !HasId(log, e.id) {
        assert Fits(log + [authority], e);
        GoodMore(log + [authority], e);
      }
  }

  /** Every run of confirmations leaves a log each of whose records fitted when it was made. */
  lemma {:induction false} RunGood(name: Naming, calls: seq<Call>)
    ensures Good(Run(name, calls))
  {
    if calls != [] {
      var before, call := Run(name, calls[..|calls| - 1]), calls[|calls| - 1];
      RunGood(name, calls[..|calls| - 1]);
      match call
      case Confirming(r) => ConfirmKeeps(before, name, r);
      case Acquiring(g, attempt) => GoodMore(before, Acquired(g, attempt));
      case Closing(g) => GoodMore(before, Closed(g));
      case Other => GoodMore(before, Elsewhere);
    }
  }

  // ---------------------------------------------------------------- what every good log shows

  predicate DistinctEvidence(accepted: Log) {
    forall i, j :: 0 <= i < j < |accepted| && accepted[i].Progress? && accepted[j].Progress? ==>
      accepted[i].evidence != accepted[j].evidence
  }

  /** A generation's accepted records carry epochs 0, 1, 2, ... and different evidence. */
  lemma {:induction false} EpochsCount(log: Log, g: string)
    requires Good(log)
    ensures var accepted := AcceptedOf(log, g);
            && (forall i :: 0 <= i < |accepted| ==> accepted[i].epochBefore == i && accepted[i].epochAfter == i + 1)
            && DistinctEvidence(accepted)
  {
    if log != [] {
      EpochsCount(log[..|log| - 1], g);
    }
  }

  /** Every record, whatever its status, carries the digest of what was accepted up to and including it. */
  lemma {:induction false} CarriesPrefix(log: Log, k: nat)
    requires Good(log) && k < |log| && log[k].Progress?
    ensures log[k].carry == CarryOf(log[..k + 1], log[k].generation)
    ensures log[k].epochAfter == |AcceptedOf(log[..k + 1], log[k].generation)|
  {
    if k == |log| - 1 {
      var before, e := log[..k], log[k];
      assert log[..k + 1] == log && log[..|log| - 1] == before;
      if e.status == Accepted {
        CarriedMore(AcceptedOf(before, e.generation), e);
      } else {
        assert AcceptedOf(log, e.generation) == AcceptedOf(before, e.generation);
      }
    } else {
      var front := log[..|log| - 1];
      assert front[k] == log[k] && front[..k + 1] == log[..k + 1];
      CarriesPrefix(front, k);
    }
  }

  lemma CarriedMore(accepted: Log, e: Event)
    requires e.Progress? && forall i :: 0 <= i < |accepted| ==> accepted[i].Progress?
    ensures Carried(accepted + [e]) == Carried(accepted) + [CarriedOf(e)]
  {}

  /** Nothing after `k` was accepted for the generation unless it was recorded. */
  lemma {:induction false} AcceptedStays(log: Log, k: nat, g: string)
    requires k <= |log| && forall i :: k <= i < |log| ==> !(log[i].Progress? && log[i].generation == g)
    ensures AcceptedOf(log, g) == AcceptedOf(log[..k], g)
  {
    if k == |log| {
      assert log[..k] == log;
    } else {
      var front := log[..|log| - 1];
      assert front[..k] == log[..k];
      AcceptedStays(front, k, g);
    }
  }

  /** On a current generation the carried projection is the one its latest record carries. */
  lemma CarryAgrees(log: Log, k: nat)
    requires Good(log) && k < |log| && log[k].Progress? && GateOf(log, log[k].generation).Open?
    requires forall i :: k < i < |log| ==> !(log[i].Progress? && log[i].generation == log[k].generation)
    ensures CarryNow(log, log[k].generation) == log[k].carry
  {
    CarriesPrefix(log, k);
    AcceptedStays(log, k + 1, log[k].generation);
  }

  // ---------------------------------------------------------------- when a confirmation raises

  /**
    The store refuses exactly when the generation is open, the id is taken, and the request is not
    a repeat by the holder.
   */
  lemma ConfirmRaises(log: Log, name: Naming, r: Request)
    ensures Confirm(log, name, r).1 == Err(DuplicateEvent) <==>
            && GateOf(log, r.generation).Open? && HasId(log, name(r.generation, r.checkpoint, r.evidence.id))
            && !(GateOf(log, r.generation).attempt == r.attempt
                 && HasEvidence(AcceptedOf(log, r.generation), r.evidence.id))
  {}

  /**
    Once a checkpoint and evidence have been recorded under any status, no request for them is
    accepted or recorded again, a corrected epoch notwithstanding: the id is spent.
   */
  lemma SpentForever(log: Log, name: Naming, r: Request)
    requires HasId(log, name(r.generation, r.checkpoint, r.evidence.id))
    ensures Confirm(log, name, r).1.Ok? ==> Confirm(log, name, r).1.value.status in {Repeated, Late}
  {}

  lemma ReadMore(log: Log, e: Event, g: string)
    ensures GateOf(log + [e], g) == if e.Acquired? && e.generation == g then Open(e.attempt)
                                    else if e.Closed? && e.generation == g then Shut else GateOf(log, g)
    ensures !IsAccepted(e, g) ==> AcceptedOf(log + [e], g) == AcceptedOf(log, g)
  {
    assert (log + [e])[..|log|] == log;
    assert AcceptedOf(log, g) + [] == AcceptedOf(log, g);
  }

  const SOME_DIGEST: string := "0000000000000000000000000000000000000000000000000000000000000000"

  const STALE: Request := Request("g", "a", "c", 5, Evidence("e", SOME_DIGEST, Native, Confirmed, "m", "r"))

  /** The log once the stale request was recorded. */
  function StaleLog(name: Naming): Log {
    [Acquired("g", "a")] + [Authority("g")] + [RecordFor([Acquired("g", "a")], name, STALE, StaleEpoch)]
  }

  lemma StaleRun(name: Naming)
    ensures Run(name, [Acquiring("g", "a"), Confirming(STALE)]) == StaleLog(name)
  {
    var calls, log := [Acquiring("g", "a"), Confirming(STALE)], [Acquired("g", "a")];
    assert calls[..1] == [Acquiring("g", "a")] && calls[..1][..0] == [];
    assert Run(name, calls[..1]) == [] + [Acquired("g", "a")] == log;
    ReadMore([], log[0], "g");
    assert [] + [log[0]] == log;
  }

  lemma StaleRead(name: Naming)
    ensures GateOf(StaleLog(name), "g") == Open("a") && AcceptedOf(StaleLog(name), "g") == []
    ensures HasId(StaleLog(name), name("g", "c", "e"))
  {
    var e := RecordFor([Acquired("g", "a")], name, STALE, StaleEpoch);
    ReadMore([], Acquired("g", "a"), "g");
    assert [] + [Acquired("g", "a")] == [Acquired("g", "a")];
    ReadMore([Acquired("g", "a")], Authority("g"), "g");
    ReadMore([Acquired("g", "a")] + [Authority("g")], e, "g");
    assert StaleLog(name)[2] == e;
  }

  /** Under every naming: acquire, confirm with a stale epoch, then confirm again with the right one. */
  lemma RetryRefused(name: Naming)
    ensures var log := Run(name, [Acquiring("g", "a"), Confirming(STALE)]);
            && AcceptedOf(log, "g") == [] && Confirm(log, name, STALE.(epoch := 0)).1 == Err(DuplicateEvent)
  {
    StaleRun(name);
    StaleRead(name);
    ConfirmRaises(StaleLog(name), name, STALE.(epoch := 0));
  }

  // ---------------------------------------------------------------- the receipt

  function Decisions(log: Log): (r: Log)
    ensures forall i :: 0 <= i < |r| ==> r[i].Progress?
  {
    if log == [] then [] else Decisions(log[..|log| - 1]) + if log[|log| - 1].Progress? then [log[|log| - 1]] else []
  }

  function LateRequests(log: Log): seq<Request> {
    if log == [] then []
    else LateRequests(log[..|log| - 1]) + if log[|log| - 1].LateEvent? then [log[|log| - 1].request] else []
  }

  /** The evidence ids of all accepted records, in order. */
  function AcceptedEvidence(log: Log): seq<string> {
    if log == [] then []
    else
      var e := log[|log| - 1];
      AcceptedEvidence(log[..|log| - 1]) + if e.Progress? && e.status == Accepted then [e.evidence] else []
  }

  function Members(s: seq<string>): set<string> {
    set i | 0 <= i < |s| :: s[i]
  }

  datatype Receipt = Receipt(decisions: Log, accepted: nat, late: seq<Request>, replayMatches: bool)

  function ReceiptOf(log: Log): Receipt {
    var evidence := AcceptedEvidence(log);
    Receipt(Decisions(log), |evidence|, LateRequests(log), |Members(evidence)| == |evidence|)
  }

  /** The receipt's selections, in one pass each as written. */
  method ReceiptDocument(log: Log) returns (r: Receipt)
    ensures r == ReceiptOf(log)
  {
    var decisions: Log, late: seq<Request>, evidence: seq<string> := [], [], [];
    for i := 0 to |log|
      invariant decisions == Decisions(log[..i]) && late == LateRequests(log[..i])
                && evidence == AcceptedEvidence(log[..i])
    {
      var e := log[i];
      assert log[..i + 1][..i] == log[..i];
      if e.Progress? {
        decisions := decisions + [e];
        if e.status == Accepted {
          evidence := evidence + [e.evidence];
        }
      }
      if e.LateEvent? {
        late := late + [e.request];
      }
    }
    assert log[..|log|] == log;
    r := Receipt(decisions, |evidence|, late, |Members(evidence)| == |evidence|);
  }

  predicate Distinct(s: seq<string>) {
    forall i, j :: 0 <= i < j < |s| ==> s[i] != s[j]
  }

  lemma {:induction false} MembersCount(s: seq<string>)
    ensures |Members(s)| <= |s| && (|Members(s)| == |s| <==> Distinct(s))
  {
    if s != [] {
      var front, x := s[..|s| - 1], s[|s| - 1];
      MembersCount(front);
      assert Members(s) == Members(front) + {x} by {
        forall y ensures y in Members(s) <==> y in Members(front) || y == x {
          if y in Members(front) {
            var i :| 0 <= i < |front| && front[i] == y;
            assert s[i] == y;
          }
          if y in Members(s) {
            var i :| 0 <= i < |s| && s[i] == y;
            assert i < |front| ==> front[i] == y;
          }
        }
      }
      assert forall i :: 0 <= i < |front| ==> front[i] == s[i];
      if x in Members(front) {
        var i :| 0 <= i < |front| && front[i] == x;
        assert s[i] == s[|s| - 1];
        assert Members(s) == Members(front);
      }
    }
  }

  /** The accepted records among the log's events. */
  predicate AcceptedAt(log: Log, i: nat) {
    i < |log| && log[i].Progress? && log[i].status == Accepted
  }

  /** No evidence id was accepted under two generations. */
  ghost predicate OneGenerationEach(log: Log) {
    forall i: nat, j: nat :: AcceptedAt(log, i) && AcceptedAt(log, j) && log[i].evidence == log[j].evidence
                             ==> log[i].generation == log[j].generation
  }

  lemma {:induction false} AcceptedMembers(log: Log, x: string)
    ensures x in AcceptedEvidence(log) <==> exists i: nat :: AcceptedAt(log, i) && log[i].evidence == x
  {
    if log != [] {
      var front, e := log[..|log| - 1], log[|log| - 1];
      AcceptedMembers(front, x);
      if x in AcceptedEvidence(front) {
        var i: nat :| AcceptedAt(front, i) && front[i].evidence == x;
        assert AcceptedAt(log, i) && log[i].evidence == x;
      }
      if e.Progress? && e.status == Accepted && e.evidence == x {
        assert AcceptedAt(log, |log| - 1);
      }
      if i: nat :| AcceptedAt(log, i) && log[i].evidence == x {
        assert i < |front| ==> AcceptedAt(front, i) && front[i] == log[i];
      }
    }
  }

  /** Within one generation an accepted evidence id was not accepted before. */
  lemma {:induction false} NotBefore(log: Log, g: string, x: string)
    ensures HasEvidence(AcceptedOf(log, g), x) <==>
              exists i: nat :: AcceptedAt(log, i) && log[i].generation == g && log[i].evidence == x
  {
    if log != [] {
      var front, e := log[..|log| - 1], log[|log| - 1];
      NotBefore(front, g, x);
      var a, b := AcceptedOf(front, g), AcceptedOf(log, g);
      if HasEvidence(a, x) {
        var i: nat :| AcceptedAt(front, i) && front[i].generation == g && front[i].evidence == x;
        assert AcceptedAt(log, i) && log[i] == front[i];
        var k :| 0 <= k < |a| && a[k].evidence == x;
        assert b[k] == a[k];
      }
      if IsAccepted(e, g) && e.evidence == x {
        assert AcceptedAt(log, |log| - 1) && b[|b| - 1] == e;
      }
      if i: nat :| AcceptedAt(log, i) && log[i].generation == g && log[i].evidence == x {
        assert i < |front| ==> AcceptedAt(front, i) && front[i] == log[i];
      }
      if HasEvidence(b, x) {
        var k :| 0 <= k < |b| && b[k].evidence == x;
        assert k < |a| ==> a[k] == b[k];
      }
    }
  }

  /** A record just accepted repeats an earlier evidence id exactly when another generation had accepted it. */
  lemma RepeatsElsewhere(log: Log, e: Event)
    requires Good(log) && Fits(log, e) && e.Progress? && e.status == Accepted
    ensures e.evidence in AcceptedEvidence(log) <==>
            exists i: nat :: AcceptedAt(log, i) && log[i].evidence == e.evidence && log[i].generation != e.generation
  {
    AcceptedMembers(log, e.evidence);
    NotBefore(log, e.generation, e.evidence);
  }

  /** Accepted evidence ids are all different exactly when no id was accepted under two generations. */
  lemma {:induction false} DistinctExact(log: Log)
    requires Good(log)
    ensures Distinct(AcceptedEvidence(log)) <==> OneGenerationEach(log)
  {
    if log != [] {
      var front, e := log[..|log| - 1], log[|log| - 1];
      DistinctExact(front);
      assert log == front + [e];
      if e.Progress? && e.status == Accepted {
        RepeatsElsewhere(front, e);
        DistinctMore(AcceptedEvidence(front), e.evidence);
        OneMore(front, e);
      } else {
        OneSame(front, e);
        assert AcceptedEvidence(log) == AcceptedEvidence(front);
      }
    }
  }

  lemma DistinctMore(s: seq<string>, x: string)
    ensures Distinct(s + [x]) <==> Distinct(s) && x !in s
  {
    var t := s + [x];
    if Distinct(t) {
      assert forall i :: 0 <= i < |s| ==> t[i] == s[i] && t[i] != t[|s|];
    }
  }

  lemma OneSame(log: Log, e: Event)
    requires !(e.Progress? && e.status == Accepted)
    ensures OneGenerationEach(log + [e]) <==> OneGenerationEach(log)
  {
    var all := log + [e];
    assert forall i: nat :: (AcceptedAt(all, i) <==> AcceptedAt(log, i)) && (AcceptedAt(log, i) ==> all[i] == log[i]);
  }

  lemma OneMore(log: Log, e: Event)
    requires e.Progress? && e.status == Accepted
    ensures OneGenerationEach(log + [e]) <==>
            OneGenerationEach(log)
            && !exists i: nat ::
                  AcceptedAt(log, i) && log[i].evidence == e.evidence && log[i].generation != e.generation
  {
    var all := log + [e];
    assert forall i: nat :: i < |log| ==> all[i] == log[i] && (AcceptedAt(all, i) <==> AcceptedAt(log, i));
    assert AcceptedAt(all, |log|) && all[|log|] == e;
  }

  /** The receipt's replay check holds in a run exactly when no evidence id was accepted under two generations. */
  lemma ReplayExact(name: Naming, calls: seq<Call>)
    ensures ReceiptOf(Run(name, calls)).replayMatches <==> OneGenerationEach(Run(name, calls))
  {
    RunGood(name, calls);
    MembersCount(AcceptedEvidence(Run(name, calls)));
    DistinctExact(Run(name, calls));
  }

  /** The requests that were answered as late, in order. */
  function LateAnswers(name: Naming, calls: seq<Call>): seq<Request> {
    if calls == [] then []
    else
      var before, call := calls[..|calls| - 1], calls[|calls| - 1];
      LateAnswers(name, before)
      + if call.Confirming? && GateOf(Run(name, before), call.request.generation) == Shut then [call.request] else []
  }

  /** The receipt recovers exactly the requests that came too late. */
  lemma {:induction false} LateRecovered(name: Naming, calls: seq<Call>)
    ensures ReceiptOf(Run(name, calls)).late == LateAnswers(name, calls)
  {
    if calls != [] {
      var front, call := calls[..|calls| - 1], calls[|calls| - 1];
      LateRecovered(name, front);
      var log := Run(name, front);
      LateMore(log, Run(name, calls), name, call);
    }
  }

  lemma LateMore(log: Log, log': Log, name: Naming, call: Call)
    requires log' == Apply(log, name, call)
    ensures LateRequests(log')
            == LateRequests(log)
              + if call.Confirming? && GateOf(log, call.request.generation) == Shut then [call.request] else []
  {
    assert forall e :: (log + [e])[..|log|] == log;
    if call.Confirming? && GateOf(log, call.request.generation).Open? && |log'| == |log| + 2 {
      assert log'[..|log| + 1] == log + [Authority(call.request.generation)];
    }
  }

  // ---------------------------------------------------------------- event ids

  function EventId(generation: string, checkpoint: string, evidence: string): string {
    generation + ":" + checkpoint + ":" + evidence
  }

  /** The separator between `a` and `b` is an ordinary character of the longer `a'`. */
  ghost predicate Shifts(a: string, b: string, a': string, b': string) {
    exists x: string :: a' == a + ":" + x && b == x + ":" + b'
  }

  /** Two ways of joining two parts that give one string. */
  ghost predicate SameJoined(a: string, b: string, a': string, b': string) {
    (a == a' && b == b') || Shifts(a, b, a', b') || Shifts(a', b', a, b)
  }

  /** Exactly those do. */
  lemma JoinedExact(a: string, b: string, a': string, b': string)
    ensures a + ":" + b == a' + ":" + b' <==> SameJoined(a, b, a', b')
  {
    if a + ":" + b == a' + ":" + b' {
      if |a| <= |a'| {
        JoinedShifts(a, b, a', b');
      } else {
        JoinedShifts(a', b', a, b);
      }
    }
    if Shifts(a, b, a', b') {
      ShiftsJoin(a, b, a', b');
    }
    if Shifts(a', b', a, b) {
      ShiftsJoin(a', b', a, b);
    }
  }

  lemma JoinedShifts(a: string, b: string, a': string, b': string)
    requires a + ":" + b == a' + ":" + b' && |a| <= |a'|
    ensures if |a| == |a'| then a == a' && b == b' else Shifts(a, b, a', b')
  {
    var s, n := a + ":" + b, |a| + 1;
    assert a == s[..|a|] && b == s[n..] && s[|a|] == ':';
    assert a' == s[..|a'|] && b' == s[|a'| + 1..] && s[|a'|] == ':';
    if |a| < |a'| {
      var x := s[n..|a'|];
      assert a' == a + ":" + x && b == x + ":" + b';
    }
  }

  lemma ShiftsJoin(a: string, b: string, a': string, b': string)
    requires Shifts(a, b, a', b')
    ensures a + ":" + b == a' + ":" + b'
  {
    var x :| a' == a + ":" + x && b == x + ":" + b';
    assert a + ":" + (x + ":" + b') == (a + ":" + x) + ":" + b';
  }

  /**
    Exactly which ids collide.  Between generations, a separator inside the longer generation must
    move; within one, a separator inside the longer checkpoint must, and equally long checkpoints
    collide only if nothing differs.
   */
  lemma EventIdsExact(g: string, c: string, e: string, g': string, c': string, e': string)
    ensures EventId(g, c, e) == EventId(g', c', e') <==> SameJoined(g, c + ":" + e, g', c' + ":" + e')
    ensures EventId(g, c, e) == EventId(g, c', e') <==> SameJoined(c, e, c', e')
    ensures |c| < |c'| ==>
              (EventId(g, c, e) == EventId(g, c', e') <==> exists x: string :: c' == c + ":" + x && e == x + ":" + e')
    ensures |c| == |c'| ==> (EventId(g, c, e) == EventId(g, c', e') <==> c == c' && e == e')
  {
    EventIdJoined(g, c, e);
    EventIdJoined(g, c', e');
    EventIdJoined(g', c', e');
    JoinedExact(g, c + ":" + e, g', c' + ":" + e');
    SameFront(g, c + ":" + e, c' + ":" + e');
    JoinedExact(c, e, c', e');
  }

  lemma EventIdJoined(g: string, c: string, e: string)
    ensures EventId(g, c, e) == g + ":" + (c + ":" + e)
  {}

  lemma SameFront(g: string, r: string, r': string)
    ensures g + ":" + r == g + ":" + r' <==> r == r'
  {
    assert r == (g + ":" + r)[|g| + 1..] && r' == (g + ":" + r')[|g| + 1..];
  }

  /** Ids that contain the separator can collide, */
  lemma EventIdsCollide()
    ensures EventId("g", "a:b", "c") == EventId("g", "a", "b:c")
  {}

  /** and generations and checkpoints without it cannot. */
  lemma EventIdsDiffer(g: string, c: string, e: string, g': string, c': string, e': string)
    requires ':' !in g && ':' !in c && ':' !in g' && ':' !in c' && EventId(g, c, e) == EventId(g', c', e')
    ensures g == g' && c == c' && e == e'
  {
    EventIdsExact(g, c, e, g', c', e');
    NoShift(g, c + ":" + e, g', c' + ":" + e');
    NoShift(c, e, c', e');
  }

  lemma NoShift(a: string, b: string, a': string, b': string)
    requires ':' !in a && ':' !in a'
    ensures !Shifts(a, b, a', b') && !Shifts(a', b', a, b)
  {
    forall x: string ensures a' != a + ":" + x && a != a' + ":" + x {
      assert (a + ":" + x)[|a|] == ':' && (a' + ":" + x)[|a'|] == ':';
    }
  }
}
