/**
  The Board-profile authority phase: a fold over the canonical log that either rejects it or yields
  the phase reached, and the writer that appends the transitions.

  Probe ids are modelled by the serial they print, and peers, rules documents, sources and evidence
  by numbers, zero standing for the absent one.  Digests are injective, so a receipt stands for its
  own digest.
 */
module ProfilePhase {
  import opened Prelude

  /** What a profile receipt holds, as far as anything later depends on it. */
  datatype Receipt = Receipt(probe: nat, rules: nat, source: nat, authoritative: bool, evidence: nat)

  datatype Event =
    | Started(probe: nat, rules: nat, peer: nat)
    | Decided(probe: nat, rules: nat, authoritative: bool, receipt: Receipt)
    | Opened(probe: nat, rules: nat, receipt: Receipt)
    | Elsewhere

  type Log = seq<Event>

  /** The decision and the receipt it names. */
  datatype Verdict = Verdict(authoritative: bool, receipt: Receipt)

  datatype Phase = Phase(probe: nat, rules: nat, peer: nat, verdict: Option<Verdict>, operating: bool, starts: nat)

  const INITIAL: Phase := Phase(0, 0, 0, None, false, 0)

  predicate Authoritative(p: Phase) {
    p.verdict.Some? && p.verdict.value.authoritative
  }

  /** The phase after one event, or nothing when the event is refused. */
  function Next(p: Phase, e: Event): Option<Phase> {
    match e
    case Elsewhere => Some(p)
    case Started(probe, rules, peer) =>
      if p.verdict.Some? || p.operating then None else Some(Phase(probe, rules, peer, None, false, p.starts + 1))
    case Decided(probe, rules, authoritative, receipt) =>
      if p.probe == 0 || probe != p.probe || rules != p.rules || p.verdict.Some? then None
      else Some(p.(verdict := Some(Verdict(authoritative, receipt)), operating := false))
    case Opened(probe, rules, receipt) =>
      if p.probe == 0 || probe != p.probe || rules != p.rules || !Authoritative(p) || p.operating
         || receipt != p.verdict.value.receipt then None
      else Some(p.(operating := true))
  }

  function Project(log: Log): Option<Phase> {
    if log == [] then Some(INITIAL)
    else
      match Project(log[..|log| - 1])
      case None => None
      case Some(p) => Next(p, log[|log| - 1])
  }

  /** The fold as written: a loop that rebinds the phase and stops at the first refusal. */
  method ProjectProfilePhase(log: Log) returns (r: Option<Phase>)
    ensures r == Project(log)
  {
    var p := INITIAL;
    for i := 0 to |log|
      invariant Project(log[..i]) == Some(p)
    {
      assert log[..i + 1][..i] == log[..i];
      var next := Next(p, log[i]);
      if next.None? {
        RefusedStays(log, i + 1);
        return None;
      }
      p := next.value;
    }
    assert log[..|log|] == log;
    return Some(p);
  }

  /** A refused prefix refuses the whole log. */
  lemma {:induction false} RefusedStays(log: Log, k: nat)
    requires k <= |log| && Project(log[..k]).None?
    ensures Project(log).None?
  {
    if k < |log| {
      assert log[..|log| - 1][..k] == log[..k];
      RefusedStays(log[..|log| - 1], k);
    } else {
      assert log[..k] == log;
    }
  }

  lemma ProjectMore(log: Log, e: Event)
    ensures Project(log + [e]) == if Project(log).None? then None else Next(Project(log).value, e)
  {
    assert (log + [e])[..|log|] == log;
  }

  // ---------------------------------------------------------------- exactly which logs are accepted

  function Phases(log: Log): Log {
    if log == [] then []
    else Phases(log[..|log| - 1]) + if log[|log| - 1].Elsewhere? then [] else [log[|log| - 1]]
  }

  /**
    The accepted shape, with `k` starts: any number of starts, then at most one decision about the
    last of them, then at most one opening of an authoritative decision, naming its receipt.
   */
  predicate Shape(ps: Log, k: nat) {
    && k <= |ps| <= k + 2
    && (forall i :: 0 <= i < k ==> ps[i].Started?)
    && (|ps| > k ==> k >= 1 && ps[k].Decided? && ps[k].probe != 0 && ps[k].probe == ps[k - 1].probe
                     && ps[k].rules == ps[k - 1].rules)
    && (|ps| > k + 1 ==> ps[k + 1].Opened? && ps[k].authoritative && ps[k + 1].probe == ps[k].probe
                         && ps[k + 1].rules == ps[k].rules && ps[k + 1].receipt == ps[k].receipt)
  }

  /** The phase a log of that shape reaches. */
  function Reached(ps: Log, k: nat): Phase
    requires Shape(ps, k)
  {
    var p := if k == 0 then INITIAL else Phase(ps[k - 1].probe, ps[k - 1].rules, ps[k - 1].peer, None, false, k);
    if |ps| == k then p
    else p.(verdict := Some(Verdict(ps[k].authoritative, ps[k].receipt)), operating := |ps| == k + 2)
  }

  /** How one more phase event extends a shape. */
  lemma ShapeMore(ps: Log, k: nat, e: Event)
    requires Shape(ps, k) && !e.Elsewhere?
    ensures Next(Reached(ps, k), e).Some? ==>
              var k' := if e.Started? then k + 1 else k;
              Shape(ps + [e], k') && Next(Reached(ps, k), e) == Some(Reached(ps + [e], k'))
    ensures Next(Reached(ps, k), e).None? ==> forall j :: !Shape(ps + [e], j)
  {
    var all := ps + [e];
    assert forall i :: 0 <= i < |ps| ==> all[i] == ps[i];
    assert all[|ps|] == e;
    if Next(Reached(ps, k), e).None? {
      forall j | Shape(all, j) ensures false {
        ShapeCount(ps, all, k, j);
      }
    }
  }

  /** Two shapes of a sequence and of its extension count the same starts, save a start just added. */
  lemma ShapeCount(ps: Log, all: Log, k: nat, j: nat)
    requires Shape(ps, k) && Shape(all, j) && |all| == |ps| + 1 && all[..|ps|] == ps
    ensures j == k || (j == k + 1 && |ps| == k)
  {
    assert forall i :: 0 <= i < |ps| ==> all[i] == ps[i];
  }

  ghost predicate WellFormed(ps: Log) {
    exists k :: Shape(ps, k)
  }

  /** The fold accepts a log exactly when its phase events have that shape, and reaches what they say. */
  lemma {:induction false} AcceptsExactly(log: Log)
    ensures Project(log).Some? <==> WellFormed(Phases(log))
    ensures forall k :: Shape(Phases(log), k) ==> Project(log) == Some(Reached(Phases(log), k))
  {
    if log == [] {
      assert Shape([], 0);
    } else {
      var before, e := log[..|log| - 1], log[|log| - 1];
      AcceptsExactly(before);
      var ps := Phases(before);
      if e.Elsewhere? {
        assert Phases(log) == ps;
      } else {
        assert Phases(log) == ps + [e];
        forall j | Shape(ps + [e], j) ensures WellFormed(ps) {
          ShapeLess(ps, e, j);
        }
        if WellFormed(ps) {
          var k :| Shape(ps, k);
          ShapeMore(ps, k, e);
          assert Project(log) == Next(Reached(ps, k), e);
          forall j | Shape(ps + [e], j) ensures j == if e.Started? then k + 1 else k {
            ShapeCount(ps, ps + [e], k, j);
          }
        }
      }
    }
  }

  lemma ShapeLess(ps: Log, e: Event, j: nat)
    requires Shape(ps + [e], j)
    ensures WellFormed(ps)
  {
    var all := ps + [e];
    assert forall i :: 0 <= i < |ps| ==> all[i] == ps[i];
    assert Shape(ps, if j <= |ps| then j else j - 1);
  }
}
