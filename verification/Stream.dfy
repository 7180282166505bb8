/**
  Putting a Run's stream back together: which Step each step-begin and step-end record belongs to.

  A record's attempt, step index and sequence number are kept; the rest of it is one value.
 */
module Stream {
  import opened Prelude

  datatype Record =
    | Begin(attempt: nat, index: int, at: int, body: nat)
    | End(attempt: nat, index: int, at: int, body: nat)
    | Claim(attempt: nat, at: int, body: nat)
    | Open(attempt: nat, body: nat)
    | Close(attempt: nat, body: nat)
    | Other

  /** One Step, as its end recorded it, or as its begin left it. */
  datatype Step = Step(at: int, index: int, body: nat, ended: bool)

  type Records = seq<Record>

  predicate Bracket(r: Record) {
    r.Begin? || r.End?
  }

  function StepOf(r: Record): Step
    requires Bracket(r)
  {
    Step(r.at, r.index, r.body, r.End?)
  }

  /** The step records of one Attempt, in order. */
  function Brackets(records: Records, attempt: nat): (rs: Records)
    ensures forall i :: 0 <= i < |rs| ==> Bracket(rs[i]) && rs[i].attempt == attempt
  {
    if records == [] then []
    else
      var r := records[|records| - 1];
      Brackets(records[..|records| - 1], attempt) + if Bracket(r) && r.attempt == attempt then [r] else []
  }

  // ---------------------------------------------------------------- which records belong together

  predicate AllBrackets(rs: Records) {
    forall i :: 0 <= i < |rs| ==> Bracket(rs[i])
  }

  /** The position of the last record of this index among the first `n`, or `n` when there is none. */
  function LastOf(rs: Records, index: int, n: nat): (k: nat)
    requires n <= |rs| && AllBrackets(rs)
    ensures k <= n && (k < n ==> rs[k].index == index) && forall i :: k < i < n ==> rs[i].index != index
    ensures k == n ==> forall i :: 0 <= i < n ==> rs[i].index != index
  {
    if n == 0 then 0
    else if rs[n - 1].index == index then n - 1
    else
      var k := LastOf(rs, index, n - 1);
      if k == n - 1 then n else k
  }

  /** A step-end closes the record of its index just before it when that is a begin. */
  predicate Closes(rs: Records, j: nat)
    requires j < |rs| && AllBrackets(rs)
  {
    rs[j].End? && LastOf(rs, rs[j].index, j) < j && rs[LastOf(rs, rs[j].index, j)].Begin?
  }

  /** The first record after `i` with its index, if any. */
  predicate NextIs(rs: Records, i: nat, j: nat) {
    i < j < |rs| && AllBrackets(rs) && rs[j].index == rs[i].index
    && forall k :: i < k < j ==> rs[k].index != rs[i].index
  }

  /** Some end closes the begin at `i`. */
  predicate Matched(rs: Records, i: nat) {
    exists j :: i < j < |rs| && NextIs(rs, i, j) && rs[j].End?
  }

  /** What the record at `i` contributes: a begin its Step, closed or not; an end its own Step if it closes nothing. */
  ghost function Slot(rs: Records, i: nat): seq<Step>
    requires i < |rs| && AllBrackets(rs)
  {
    if rs[i].Begin? then
      if Matched(rs, i) then
        var j :| i < j < |rs| && NextIs(rs, i, j) && rs[j].End?;
        [StepOf(rs[j])]
      else [StepOf(rs[i])]
    else if Closes(rs, i) then [] else [StepOf(rs[i])]
  }

  /** The first `n` of a list of lists, joined. */
  function Joined<T>(parts: seq<seq<T>>, n: nat): seq<T>
    requires n <= |parts|
  {
    if n == 0 then [] else Joined(parts, n - 1) + parts[n - 1]
  }

  ghost function Slots(rs: Records): (parts: seq<seq<Step>>)
    requires AllBrackets(rs)
    ensures |parts| == |rs| && forall i :: 0 <= i < |rs| ==> parts[i] == Slot(rs, i)
  {
    seq(|rs|, i requires 0 <= i < |rs| => Slot(rs, i))
  }

  /** The Steps of the first `n` records, given everything that follows them. */
  ghost function Steps(rs: Records, n: nat): seq<Step>
    requires n <= |rs| && AllBrackets(rs)
  {
    Joined(Slots(rs), n)
  }

  /** An Attempt's Steps: each begin in its place, ended by the next record of its index if that is an end. */
  ghost function Reference(rs: Records): seq<Step>
    requires AllBrackets(rs)
  {
    Steps(rs, |rs|)
  }

  // ---------------------------------------------------------------- one more record

  lemma LastOfMore(rs: Records, r: Record, index: int, n: nat)
    requires AllBrackets(rs) && Bracket(r) && n <= |rs|
    ensures AllBrackets(rs + [r]) && LastOf(rs + [r], index, n) == LastOf(rs, index, n)
  {
    var all := rs + [r];
    assert forall i :: 0 <= i < |rs| ==> all[i] == rs[i];
    LastUnique(all, index, n, LastOf(rs, index, n));
  }

  lemma LastUnique(rs: Records, index: int, n: nat, k: nat)
    requires n <= |rs| && AllBrackets(rs) && k <= n && (k < n ==> rs[k].index == index)
    requires forall i :: k < i < n ==> rs[i].index != index
    requires k == n ==> forall i :: 0 <= i < n ==> rs[i].index != index
    ensures LastOf(rs, index, n) == k
  {}

  lemma NextUnique(rs: Records, i: nat, j: nat, k: nat)
    requires NextIs(rs, i, j) && NextIs(rs, i, k)
    ensures j == k
  {}

  /** How a begin's Step depends on what comes next. */
  lemma SlotOfBegin(rs: Records, i: nat)
    requires i < |rs| && AllBrackets(rs) && rs[i].Begin?
    ensures forall j: nat :: NextIs(rs, i, j) && rs[j].End? ==> Slot(rs, i) == [StepOf(rs[j])]
    ensures (forall j: nat :: NextIs(rs, i, j) ==> !rs[j].End?) ==> Slot(rs, i) == [StepOf(rs[i])]
  {
    forall j: nat | NextIs(rs, i, j) && rs[j].End? ensures Slot(rs, i) == [StepOf(rs[j])] {
      assert Matched(rs, i);
      forall k: nat | NextIs(rs, i, k) ensures k == j {
        NextUnique(rs, i, j, k);
      }
    }
  }

  /** The begin that a new end `r` closes, if any. */
  predicate ClosedBy(rs: Records, r: Record, i: nat)
    requires AllBrackets(rs) && Bracket(r)
  {
    r.End? && LastOf(rs, r.index, |rs|) == i && i < |rs| && rs[i].Begin?
  }

  /** A new record changes only the Step of the begin it closes. */
  lemma SlotMore(rs: Records, r: Record, i: nat)
    requires AllBrackets(rs) && Bracket(r) && i < |rs|
    ensures AllBrackets(rs + [r])
    ensures Slot(rs + [r], i) == if ClosedBy(rs, r, i) then [StepOf(r)] else Slot(rs, i)
  {
    var all := rs + [r];
    assert forall k :: 0 <= k < |rs| ==> all[k] == rs[k];
    assert all[|rs|] == r;
    if rs[i].End? {
      LastOfMore(rs, r, rs[i].index, i);
    } else {
      SlotOfBegin(rs, i);
      SlotOfBegin(all, i);
      if ClosedBy(rs, r, i) {
        assert NextIs(all, i, |rs|);
      } else {
        forall j: nat | NextIs(rs, i, j) ensures NextIs(all, i, j) {}
        if exists j: nat :: NextIs(rs, i, j) {
          var j: nat :| NextIs(rs, i, j);
          forall k: nat | NextIs(all, i, k) ensures k == j {
            NextUnique(all, i, j, k);
          }
        } else {
          NoNextIsLast(rs, i);
          forall j: nat | NextIs(all, i, j) ensures !all[j].End? {
            assert j < |rs| ==> NextIs(rs, i, j);
          }
        }
      }
    }
  }

  /** A record without a next of its index is the last of its index. */
  lemma NoNextIsLast(rs: Records, i: nat)
    requires AllBrackets(rs) && i < |rs| && !exists j: nat :: NextIs(rs, i, j)
    ensures LastOf(rs, rs[i].index, |rs|) == i
  {
    NoneAfter(rs, i, |rs|);
    LastUnique(rs, rs[i].index, |rs|, i);
  }

  lemma {:induction false} NoneAfter(rs: Records, i: nat, n: nat)
    requires AllBrackets(rs) && i < |rs| && i < n <= |rs| && !exists j: nat :: NextIs(rs, i, j)
    ensures forall k :: i < k < n ==> rs[k].index != rs[i].index
    decreases n
  {
    if n > i + 1 {
      NoneAfter(rs, i, n - 1);
      assert !NextIs(rs, i, n - 1);
    }
  }

  lemma {:induction false} JoinedSame<T>(parts: seq<seq<T>>, parts': seq<seq<T>>, n: nat)
    requires n <= |parts| && n <= |parts'| && forall i :: 0 <= i < n ==> parts[i] == parts'[i]
    ensures Joined(parts, n) == Joined(parts', n)
  {
    if n > 0 {
      JoinedSame(parts, parts', n - 1);
    }
  }

  lemma UpdateFront<T>(a: seq<T>, b: seq<T>, i: nat, x: T)
    requires i < |a|
    ensures (a + b)[i := x] == a[i := x] + b
  {}

  lemma UpdateLast<T>(a: seq<T>, b: seq<T>, x: T)
    requires |b| == 1
    ensures (a + b)[|a| := x] == a + [x]
  {}

  /** Replacing a part that holds one element replaces that element in place. */
  lemma {:induction false} JoinedReplaced<T>(parts: seq<seq<T>>, parts': seq<seq<T>>, i: nat, x: T, n: nat)
    requires i < n <= |parts| && n <= |parts'| && |parts[i]| == 1 && parts'[i] == [x]
    requires forall k :: 0 <= k < n && k != i ==> parts[k] == parts'[k]
    ensures |Joined(parts, i)| < |Joined(parts, n)| && Joined(parts', n) == Joined(parts, n)[|Joined(parts, i)| := x]
  {
    if n == i + 1 {
      JoinedSame(parts, parts', i);
      UpdateLast(Joined(parts, i), parts[i], x);
    } else {
      JoinedReplaced(parts, parts', i, x, n - 1);
      UpdateFront(Joined(parts, n - 1), parts[n - 1], |Joined(parts, i)|, x);
    }
  }

  lemma StepsUnchanged(rs: Records, r: Record, n: nat)
    requires AllBrackets(rs) && Bracket(r) && n <= |rs| && AllBrackets(rs + [r])
    requires forall i: nat :: i < n ==> !ClosedBy(rs, r, i)
    ensures Steps(rs + [r], n) == Steps(rs, n)
  {
    forall i: nat | i < n ensures Slots(rs + [r])[i] == Slots(rs)[i] {
      SlotMore(rs, r, i);
    }
    JoinedSame(Slots(rs + [r]), Slots(rs), n);
  }

  lemma StepsClosed(rs: Records, r: Record, i: nat, n: nat)
    requires AllBrackets(rs) && Bracket(r) && i < n <= |rs| && AllBrackets(rs + [r]) && ClosedBy(rs, r, i)
    ensures |Steps(rs, i)| < |Steps(rs, n)| && Steps(rs + [r], n) == Steps(rs, n)[|Steps(rs, i)| := StepOf(r)]
  {
    forall k: nat | k < n ensures Slots(rs + [r])[k] == if k == i then [StepOf(r)] else Slots(rs)[k] {
      SlotMore(rs, r, k);
    }
    SlotEnded(rs, i);
    JoinedReplaced(Slots(rs), Slots(rs + [r]), i, StepOf(r), n);
  }

  /** The Steps after one more record: an end closes its begin in place, and anything else is appended. */
  lemma ReferenceMore(rs: Records, r: Record)
    requires AllBrackets(rs) && Bracket(r)
    ensures AllBrackets(rs + [r])
    ensures var i := LastOf(rs, r.index, |rs|);
            if ClosedBy(rs, r, i)
            then |Steps(rs, i)| < |Reference(rs)| && Reference(rs + [r]) == Reference(rs)[|Steps(rs, i)| := StepOf(r)]
            else Reference(rs + [r]) == Reference(rs) + [StepOf(r)]
  {
    var all, n := rs + [r], |rs|;
    assert forall k :: 0 <= k < n ==> all[k] == rs[k];
    assert all[n] == r && Steps(all, n + 1) == Steps(all, n) + Slot(all, n);
    LastOfMore(rs, r, r.index, n);
    var i := LastOf(rs, r.index, n);
    if ClosedBy(rs, r, i) {
      StepsClosed(rs, r, i, n);
      assert Slot(all, n) == [];
    } else {
      StepsUnchanged(rs, r, n);
      if r.Begin? {
        SlotOfBegin(all, n);
      }
      assert Slot(all, n) == [StepOf(r)];
    }
  }

  lemma LengthStays(rs: Records, r: Record, n: nat)
    requires AllBrackets(rs) && Bracket(r) && n <= |rs| && AllBrackets(rs + [r])
    ensures |Steps(rs + [r], n)| == |Steps(rs, n)|
  {
    var i := LastOf(rs, r.index, |rs|);
    if i < n && ClosedBy(rs, r, i) {
      StepsClosed(rs, r, i, n);
    } else {
      StepsUnchanged(rs, r, n);
    }
  }

  // ---------------------------------------------------------------- reading

  datatype Key = Key(attempt: nat, index: int)

  /** Where an open Step of this index sits, if the last record of the index is a begin. */
  ghost function OpenAt(rs: Records, index: int): Option<nat>
    requires AllBrackets(rs)
  {
    var k := LastOf(rs, index, |rs|);
    if k < |rs| && rs[k].Begin? then Some(|Steps(rs, k)|) else None
  }

  lemma LastMore(rs: Records, r: Record, index: int)
    requires AllBrackets(rs) && Bracket(r) && AllBrackets(rs + [r])
    ensures var k := LastOf(rs, index, |rs|);
            LastOf(rs + [r], index, |rs| + 1) == if r.index == index then |rs| else if k == |rs| then |rs| + 1 else k
  {
    var all, n := rs + [r], |rs|;
    assert forall k :: 0 <= k < n ==> all[k] == rs[k];
    assert all[n] == r;
    var k := LastOf(rs, index, n);
    LastUnique(all, index, n + 1, if r.index == index then n else if k == n then n + 1 else k);
  }

  lemma OpenMore(rs: Records, r: Record, index: int)
    requires AllBrackets(rs) && Bracket(r) && AllBrackets(rs + [r])
    ensures OpenAt(rs + [r], index)
            == if r.index != index then OpenAt(rs, index) else if r.Begin? then Some(|Reference(rs)|) else None
  {
    LastMore(rs, r, index);
    var k := LastOf(rs, index, |rs|);
    if r.index == index {
      LengthStays(rs, r, |rs|);
    } else if k < |rs| {
      assert (rs + [r])[k] == rs[k];
      LengthStays(rs, r, k);
    }
  }

  lemma BracketsMore(records: Records, r: Record, attempt: nat)
    ensures Brackets(records + [r], attempt)
            == if Bracket(r) && r.attempt == attempt then Brackets(records, attempt) + [r]
              else Brackets(records, attempt)
  {
    assert (records + [r])[..|records|] == records;
    assert Brackets(records, attempt) + [] == Brackets(records, attempt);
  }

  function StepsAt(steps: map<nat, seq<Step>>, attempt: nat): seq<Step> {
    if attempt in steps then steps[attempt] else []
  }

  function Flying(inFlight: map<Key, nat>, a: nat, index: int): Option<nat> {
    if Key(a, index) in inFlight then Some(inFlight[Key(a, index)]) else None
  }

  /** The dictionaries hold one Attempt's Steps and where its open ones sit. */
  ghost predicate ReadsOne(steps: map<nat, seq<Step>>, inFlight: map<Key, nat>, a: nat, rs: Records)
    requires AllBrackets(rs)
  {
    StepsAt(steps, a) == Reference(rs) && forall index :: Flying(inFlight, a, index) == OpenAt(rs, index)
  }

  ghost predicate Reads(steps: map<nat, seq<Step>>, inFlight: map<Key, nat>, records: Records) {
    forall a :: ReadsOne(steps, inFlight, a, Brackets(records, a))
  }

  /** What a record does to the dictionaries of its own Attempt only matters there. */
  lemma ReadsOthers(steps: map<nat, seq<Step>>, inFlight: map<Key, nat>, steps': map<nat, seq<Step>>,
                    inFlight': map<Key, nat>, records: Records, r: Record, attempt: nat)
    requires Reads(steps, inFlight, records) && (Bracket(r) ==> r.attempt == attempt)
    requires forall a :: a != attempt ==> StepsAt(steps', a) == StepsAt(steps, a)
    requires forall a, index :: a != attempt ==> Flying(inFlight', a, index) == Flying(inFlight, a, index)
    requires ReadsOne(steps', inFlight', attempt, Brackets(records + [r], attempt))
    ensures Reads(steps', inFlight', records + [r])
  {
    forall a ensures ReadsOne(steps', inFlight', a, Brackets(records + [r], a)) {
      if a != attempt {
        BracketsMore(records, r, a);
        assert ReadsOne(steps, inFlight, a, Brackets(records, a));
      }
    }
  }

  lemma ReadsQuiet(steps: map<nat, seq<Step>>, inFlight: map<Key, nat>, records: Records, r: Record)
    requires Reads(steps, inFlight, records) && !Bracket(r)
    ensures Reads(steps, inFlight, records + [r])
  {
    BracketsMore(records, r, 0);
    assert ReadsOne(steps, inFlight, 0, Brackets(records, 0));
    ReadsOthers(steps, inFlight, steps, inFlight, records, r, 0);
  }

  lemma ReferenceBegin(rs: Records, r: Record)
    requires AllBrackets(rs) && r.Begin?
    ensures AllBrackets(rs + [r]) && Reference(rs + [r]) == Reference(rs) + [StepOf(r)]
  {
    ReferenceMore(rs, r);
  }

  lemma ReadsBeginOne(steps: map<nat, seq<Step>>, inFlight: map<Key, nat>, a: nat, rs: Records, r: Record)
    requires AllBrackets(rs) && ReadsOne(steps, inFlight, a, rs) && r.Begin?
    ensures var now := StepsAt(steps, a);
            AllBrackets(rs + [r])
            && ReadsOne(steps[a := now + [StepOf(r)]], inFlight[Key(a, r.index) := |now|], a, rs + [r])
  {
    var now := StepsAt(steps, a);
    ReferenceBegin(rs, r);
    forall index ensures Flying(inFlight[Key(a, r.index) := |now|], a, index) == OpenAt(rs + [r], index) {
      OpenMore(rs, r, index);
      assert Flying(inFlight, a, index) == OpenAt(rs, index);
    }
  }

  lemma ReadsBegin(steps: map<nat, seq<Step>>, inFlight: map<Key, nat>, records: Records, r: Record)
    requires Reads(steps, inFlight, records) && r.Begin?
    ensures var now := StepsAt(steps, r.attempt);
            Reads(steps[r.attempt := now + [StepOf(r)]], inFlight[Key(r.attempt, r.index) := |now|], records + [r])
  {
    var now := StepsAt(steps, r.attempt);
    var steps', inFlight' := steps[r.attempt := now + [StepOf(r)]], inFlight[Key(r.attempt, r.index) := |now|];
    ReadsBeginOne(steps, inFlight, r.attempt, Brackets(records, r.attempt), r);
    BracketsMore(records, r, r.attempt);
    ReadsOthers(steps, inFlight, steps', inFlight', records, r, r.attempt);
  }

  /** The Steps of an Attempt after an end. */
  function AfterEnd(now: seq<Step>, open: Option<nat>, r: Record): seq<Step>
    requires Bracket(r)
  {
    if open.Some? && open.value < |now| then now[open.value := StepOf(r)] else now + [StepOf(r)]
  }

  /** Where the Step that an end closes sits. */
  lemma ReferenceEnd(rs: Records, r: Record)
    requires AllBrackets(rs) && r.End?
    ensures AllBrackets(rs + [r]) && (OpenAt(rs, r.index).Some? ==> OpenAt(rs, r.index).value < |Reference(rs)|)
    ensures Reference(rs + [r]) == AfterEnd(Reference(rs), OpenAt(rs, r.index), r)
  {
    ReferenceMore(rs, r);
  }

  lemma ReadsEndOne(steps: map<nat, seq<Step>>, inFlight: map<Key, nat>, a: nat, rs: Records, r: Record)
    requires AllBrackets(rs) && ReadsOne(steps, inFlight, a, rs) && r.End?
    ensures var now, open := StepsAt(steps, a), Flying(inFlight, a, r.index);
            && (open.Some? ==> open.value < |now|) && AllBrackets(rs + [r])
            && ReadsOne(steps[a := AfterEnd(now, open, r)], inFlight - {Key(a, r.index)}, a, rs + [r])
  {
    assert Flying(inFlight, a, r.index) == OpenAt(rs, r.index);
    ReferenceEnd(rs, r);
    forall index ensures Flying(inFlight - {Key(a, r.index)}, a, index) == OpenAt(rs + [r], index) {
      OpenMore(rs, r, index);
      assert Flying(inFlight, a, index) == OpenAt(rs, index);
    }
  }

  lemma ReadsEnd(steps: map<nat, seq<Step>>, inFlight: map<Key, nat>, records: Records, r: Record)
    requires Reads(steps, inFlight, records) && r.End?
    ensures var now, open := StepsAt(steps, r.attempt), Flying(inFlight, r.attempt, r.index);
            && (open.Some? ==> open.value < |now|)
            && Reads(steps[r.attempt := AfterEnd(now, open, r)], inFlight - {Key(r.attempt, r.index)}, records + [r])
  {
    var now, open := StepsAt(steps, r.attempt), Flying(inFlight, r.attempt, r.index);
    var steps', inFlight' := steps[r.attempt := AfterEnd(now, open, r)], inFlight - {Key(r.attempt, r.index)};
    ReadsEndOne(steps, inFlight, r.attempt, Brackets(records, r.attempt), r);
    BracketsMore(records, r, r.attempt);
    ReadsOthers(steps, inFlight, steps', inFlight', records, r, r.attempt);
  }

  /**
    Read a stream: begins are appended and remembered by Attempt and index, ends replace the begin
    they find there or are appended.
   */
  method Read(records: Records) returns (steps: map<nat, seq<Step>>)
    ensures forall a :: StepsAt(steps, a) == Reference(Brackets(records, a))
  {
    steps := map[];
    var inFlight: map<Key, nat> := map[];
    for i := 0 to |records|
      invariant Reads(steps, inFlight, records[..i])
    {
      var r := records[i];
      assert records[..i + 1] == records[..i] + [r];
      if r.Begin? {
        ReadsBegin(steps, inFlight, records[..i], r);
        var now := StepsAt(steps, r.attempt);
        inFlight := inFlight[Key(r.attempt, r.index) := |now|];
        steps := steps[r.attempt := now + [StepOf(r)]];
      } else if r.End? {
        ReadsEnd(steps, inFlight, records[..i], r);
        var key, now := Key(r.attempt, r.index), StepsAt(steps, r.attempt);
        assert Flying(inFlight, r.attempt, r.index).Some? <==> key in inFlight;
        if key in inFlight {
          steps := steps[r.attempt := now[inFlight[key] := StepOf(r)]];
        } else {
          steps := steps[r.attempt := now + [StepOf(r)]];
        }
        inFlight := inFlight - {key};
      } else {
        ReadsQuiet(steps, inFlight, records[..i], r);
      }
    }
    assert records[..|records|] == records;
    forall a ensures StepsAt(steps, a) == Reference(Brackets(records, a)) {
      assert ReadsOne(steps, inFlight, a, Brackets(records, a));
    }
  }

  // ---------------------------------------------------------------- what the Steps say

  /**
    A begin's Step sits at its own place; it is the closing end's Step if an end closed it, else
    the begin's own, un-ended.
   */
  lemma BeginInPlace(rs: Records, i: nat, n: nat)
    requires AllBrackets(rs) && i < n <= |rs| && rs[i].Begin?
    ensures |Steps(rs, i)| < |Steps(rs, n)|
    ensures Steps(rs, n)[|Steps(rs, i)|].ended <==> Matched(rs, i)
    ensures !Matched(rs, i) ==> Steps(rs, n)[|Steps(rs, i)|] == Step(rs[i].at, rs[i].index, rs[i].body, false)
    ensures forall j: nat :: NextIs(rs, i, j) && rs[j].End? ==>
              Steps(rs, n)[|Steps(rs, i)|] == Step(rs[j].at, rs[j].index, rs[j].body, true)
  {
    SlotEnded(rs, i);
    SlotOfBegin(rs, i);
    JoinedAt(Slots(rs), i, n);
  }

  /** An end that closes nothing is a Step of its own, at its own place. */
  lemma EndInPlace(rs: Records, i: nat, n: nat)
    requires AllBrackets(rs) && i < n <= |rs| && rs[i].End?
    requires forall k: nat :: k < i && NextIs(rs, k, i) ==> !rs[k].Begin?
    ensures |Steps(rs, i)| < |Steps(rs, n)|
    ensures Steps(rs, n)[|Steps(rs, i)|] == Step(rs[i].at, rs[i].index, rs[i].body, true)
  {
    var k := LastOf(rs, rs[i].index, i);
    if k < i {
      assert NextIs(rs, k, i);
    }
    JoinedAt(Slots(rs), i, n);
  }

  /** An end that closes a begin adds nothing. */
  lemma EndAddsNothing(rs: Records, k: nat, i: nat)
    requires AllBrackets(rs) && NextIs(rs, k, i) && rs[k].Begin? && rs[i].End?
    ensures Steps(rs, i + 1) == Steps(rs, i)
  {
    LastUnique(rs, rs[i].index, i, k);
  }

  /** The one element of a part sits where the parts before it end. */
  lemma {:induction false} JoinedAt<T>(parts: seq<seq<T>>, i: nat, n: nat)
    requires i < n <= |parts| && |parts[i]| == 1
    ensures |Joined(parts, i)| < |Joined(parts, n)| && Joined(parts, n)[|Joined(parts, i)|] == parts[i][0]
  {
    if n > i + 1 {
      JoinedAt(parts, i, n - 1);
    }
  }

  lemma SlotEnded(rs: Records, i: nat)
    requires AllBrackets(rs) && i < |rs| && rs[i].Begin?
    ensures |Slot(rs, i)| == 1 && (Slot(rs, i)[0].ended <==> Matched(rs, i)) && Slot(rs, i)[0].index == rs[i].index
  {}

  /** The records of one Attempt alone, of whatever kind. */
  function OfAttempt(records: Records, attempt: nat): Records {
    if records == [] then []
    else
      var r := records[|records| - 1];
      OfAttempt(records[..|records| - 1], attempt) + if !r.Other? && r.attempt == attempt then [r] else []
  }

  lemma OfAttemptMore(records: Records, r: Record, attempt: nat)
    ensures OfAttempt(records + [r], attempt)
            == if !r.Other? && r.attempt == attempt then OfAttempt(records, attempt) + [r]
              else OfAttempt(records, attempt)
  {
    assert (records + [r])[..|records|] == records;
    assert OfAttempt(records, attempt) + [] == OfAttempt(records, attempt);
  }

  lemma SelectedMore(selected: Records, records: Records, r: Record, attempt: nat)
    requires Brackets(selected, attempt) == Brackets(records, attempt)
    ensures Brackets(selected + [r], attempt) == Brackets(records + [r], attempt)
  {
    BracketsMore(selected, r, attempt);
    BracketsMore(records, r, attempt);
  }

  lemma SkippedMore(records: Records, r: Record, attempt: nat)
    requires r.Other? || r.attempt != attempt
    ensures Brackets(records + [r], attempt) == Brackets(records, attempt)
  {
    BracketsMore(records, r, attempt);
  }

  lemma {:induction false} BracketsOfAttempt(records: Records, attempt: nat)
    ensures Brackets(OfAttempt(records, attempt), attempt) == Brackets(records, attempt)
  {
    if records != [] {
      var front, r := records[..|records| - 1], records[|records| - 1];
      assert front + [r] == records;
      BracketsOfAttempt(front, attempt);
      OfAttemptMore(front, r, attempt);
      if !r.Other? && r.attempt == attempt {
        SelectedMore(OfAttempt(front, attempt), front, r, attempt);
      } else {
        SkippedMore(front, r, attempt);
      }
    }
  }

  /** Reading the whole stream and reading one Attempt's records alone give that Attempt the same Steps. */
  method ReadAlone(records: Records, attempt: nat) returns (steps: seq<Step>)
    ensures steps == Reference(Brackets(records, attempt))
  {
    BracketsOfAttempt(records, attempt);
    var all := Read(OfAttempt(records, attempt));
    steps := StepsAt(all, attempt);
  }

  // ---------------------------------------------------------------- against the rule "most recent unmatched begin"

  /** The begin at `i` is of the index of the end at `j`, comes before it, and no end in between closed it. */
  predicate Unmatched(rs: Records, i: nat, j: nat) {
    && i < j < |rs| && AllBrackets(rs) && rs[i].Begin? && rs[i].index == rs[j].index
    && !exists k :: i < k < j && NextIs(rs, i, k) && rs[k].End?
  }

  /** No Step is begun again before it ended. */
  ghost predicate OneAtATime(rs: Records) {
    forall i: nat, k: nat :: NextIs(rs, i, k) && rs[i].Begin? ==> rs[k].End?
  }

  /** What an end closes is the most recent unmatched begin of its index. */
  lemma ClosesMostRecent(rs: Records, j: nat)
    requires AllBrackets(rs) && j < |rs| && Closes(rs, j)
    ensures var i := LastOf(rs, rs[j].index, j);
            Unmatched(rs, i, j) && NextIs(rs, i, j) && forall k: nat :: i < k < j ==> !Unmatched(rs, k, j)
  {}

  /** While no Step is begun twice, an end closes a begin whenever one is unmatched. */
  lemma ClosesWhenever(rs: Records, i: nat, j: nat)
    requires AllBrackets(rs) && OneAtATime(rs) && j < |rs| && rs[j].End? && Unmatched(rs, i, j)
    ensures Closes(rs, j) && LastOf(rs, rs[j].index, j) == i
  {
    var k := FirstAfter(rs, i, j);
    assert NextIs(rs, i, k) && rs[k].End?;
    LastUnique(rs, rs[j].index, j, i);
  }

  lemma {:induction false} FirstAfter(rs: Records, i: nat, j: nat) returns (k: nat)
    requires AllBrackets(rs) && i < j < |rs| && rs[j].index == rs[i].index
    ensures NextIs(rs, i, k) && k <= j
    decreases j
  {
    if m :| i < m < j && rs[m].index == rs[i].index {
      k := FirstAfter(rs, i, m);
    } else {
      k := j;
    }
  }

  /** The index of the end at `j` was begun twice in a row before `p`, and `p` is the end just before `j`. */
  predicate DoubledBefore(rs: Records, i: nat, k: nat, p: nat, j: nat) {
    && NextIs(rs, i, k) && rs[i].Begin? && rs[k].Begin?
    && k < p && NextIs(rs, p, j) && rs[p].End? && rs[i].index == rs[j].index
  }

  /**
    An end leaves an unmatched begin of its index open exactly when that index was begun twice in a
    row earlier and the record of the index just before it is an end too.
   */
  lemma MissesExactly(rs: Records, j: nat)
    requires AllBrackets(rs) && j < |rs| && rs[j].End?
    ensures (exists i :: 0 <= i < j && Unmatched(rs, i, j)) && !Closes(rs, j) <==>
            exists i: nat, k: nat, p: nat :: i < k < p < j && DoubledBefore(rs, i, k, p, j)
  {
    if !Closes(rs, j) {
      if i :| 0 <= i < j && Unmatched(rs, i, j) {
        MissedIsDoubled(rs, i, j);
      }
    }
    if i: nat, k: nat, p: nat :| i < k < p < j && DoubledBefore(rs, i, k, p, j) {
      DoubledIsMissed(rs, i, k, p, j);
    }
  }

  lemma MissedIsDoubled(rs: Records, i: nat, j: nat)
    requires AllBrackets(rs) && j < |rs| && rs[j].End? && !Closes(rs, j) && Unmatched(rs, i, j)
    ensures exists k: nat, p: nat :: i < k < p < j && DoubledBefore(rs, i, k, p, j)
  {
    var p := LastOf(rs, rs[j].index, j);
    var k := FirstAfter(rs, i, p);
    assert DoubledBefore(rs, i, k, p, j);
  }

  lemma DoubledIsMissed(rs: Records, i: nat, k: nat, p: nat, j: nat)
    requires AllBrackets(rs) && j < |rs| && i < k < p < j && DoubledBefore(rs, i, k, p, j)
    ensures Unmatched(rs, i, j) && !Closes(rs, j)
  {
    forall m | i < m < j && NextIs(rs, i, m) ensures !rs[m].End? {
      NextUnique(rs, i, k, m);
    }
    LastUnique(rs, rs[j].index, j, p);
  }

  lemma JoinedFour<T>(x: T, y: T, z: T)
    ensures Joined([[x], [y], [], [z]], 4) == [x, y, z]
  {
    var parts := [[x], [y], [], [z]];
    assert Joined(parts, 1) == Joined(parts, 0) + [x];
    assert Joined(parts, 2) == Joined(parts, 1) + [y];
    assert Joined(parts, 3) == Joined(parts, 2) + [];
  }

  /** Begun twice and ended twice, the first begin is never closed: the second end stands by itself. */
  lemma SecondEndAppended(a: Record, b: Record, c: Record, d: Record)
    requires a.Begin? && b.Begin? && c.End? && d.End? && a.index == b.index == c.index == d.index
    ensures Reference([a, b, c, d]) == [StepOf(a), StepOf(c), StepOf(d)]
    ensures Unmatched([a, b, c, d], 0, 3) && !Closes([a, b, c, d], 3)
  {
    var rs := [a, b, c, d];
    assert NextIs(rs, 0, 1) && NextIs(rs, 1, 2) && NextIs(rs, 2, 3);
    SlotOfBegin(rs, 0);
    SlotOfBegin(rs, 1);
    forall j: nat | NextIs(rs, 0, j) ensures !rs[j].End? {
      NextUnique(rs, 0, 1, j);
    }
    LastUnique(rs, c.index, 2, 1);
    LastUnique(rs, d.index, 3, 2);
    assert Slots(rs) == [[StepOf(a)], [StepOf(c)], [], [StepOf(d)]];
    JoinedFour(StepOf(a), StepOf(c), StepOf(d));
  }
}
