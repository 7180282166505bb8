/**
  Replaying an Attempt against the stall watch: its Steps cut into turns at the spawns, and the model's
  Steps handed over turn by turn, interleaved with what the model said.

  The watch records the calls made to it; when it cuts is any function of those calls.  A spawn is
  the adapter's Step and never one of the model's.
 */
module Replay {
  import opened Prelude
  import opened Ordering

  datatype Step = Step(at: nat, model: bool, spawn: bool, body: nat)

  datatype Claim = Claim(at: nat, text: nat)

  datatype Call = Said(claim: Claim) | Observed(step: Step)

  function StepAt(s: Step): nat {
    s.at
  }

  function ClaimAt(c: Claim): nat {
    c.at
  }

  function CallAt(c: Call): nat {
    match c case Said(claim) => claim.at case Observed(step) => step.at
  }

  predicate ValidSteps(steps: seq<Step>) {
    forall i :: 0 <= i < |steps| ==> !(steps[i].spawn && steps[i].model)
  }

  // ---------------------------------------------------------------- turns

  /** The model's Steps, in order. */
  function ModelSteps(steps: seq<Step>): (r: seq<Step>)
    ensures forall s :: s in r <==> s in steps && s.model
  {
    if steps == [] then []
    else
      var before, last := ModelSteps(steps[..|steps| - 1]), steps[|steps| - 1];
      assert forall s :: s in steps <==> s in steps[..|steps| - 1] || s == last;
      if last.model then before + [last] else before
  }

  function Flatten(turns: seq<seq<Step>>): seq<Step> {
    if turns == [] then [] else Flatten(turns[..|turns| - 1]) + turns[|turns| - 1]
  }

  /** The finished turns and the Steps held since the last spawn. */
  function Cut(steps: seq<Step>): (seq<seq<Step>>, seq<Step>) {
    if steps == [] then ([], [])
    else
      var (turns, held) := Cut(steps[..|steps| - 1]);
      var s := steps[|steps| - 1];
      if s.spawn then (turns + [held], []) else if s.model then (turns, held + [s]) else (turns, held)
  }

  /** One turn per spawn, and one more for Steps no spawn followed. */
  function Turns(steps: seq<Step>): seq<seq<Step>> {
    var (turns, held) := Cut(steps);
    if held != [] then turns + [held] else turns
  }

  function Spawns(steps: seq<Step>): nat {
    if steps == [] then 0 else Spawns(steps[..|steps| - 1]) + if steps[|steps| - 1].spawn then 1 else 0
  }

  lemma FlattenMore(turns: seq<seq<Step>>, held: seq<Step>)
    ensures Flatten(turns + [held]) == Flatten(turns) + held
  {
    assert (turns + [held])[..|turns|] == turns;
  }

  /** Cutting at the spawns partitions the model's Steps, one turn per spawn plus at most a tail. */
  lemma {:induction false} CutPartitions(steps: seq<Step>)
    requires ValidSteps(steps)
    ensures Flatten(Cut(steps).0) + Cut(steps).1 == ModelSteps(steps) && |Cut(steps).0| == Spawns(steps)
  {
    if steps != [] {
      var front, s := steps[..|steps| - 1], steps[|steps| - 1];
      CutPartitions(front);
      var (turns, held) := Cut(front);
      FlattenMore(turns, held);
      if s.model && !s.spawn {
        assert Flatten(turns) + (held + [s]) == Flatten(turns) + held + [s];
      } else if s.spawn {
        assert Flatten(turns + [held]) + [] == Flatten(turns) + held;
      }
    }
  }

  lemma TurnsPartition(steps: seq<Step>)
    requires ValidSteps(steps)
    ensures Flatten(Turns(steps)) == ModelSteps(steps)
    ensures Spawns(steps) <= |Turns(steps)| <= Spawns(steps) + 1
  {
    CutPartitions(steps);
    var (turns, held) := Cut(steps);
    FlattenMore(turns, held);
    if held == [] {
      assert Flatten(turns) + held == Flatten(turns);
    }
  }

  /** The Step at `i` is the model's, and `n` spawns come before it. */
  predicate InTurn(steps: seq<Step>, i: nat, n: nat) {
    i < |steps| && steps[i].model && Spawns(steps[..i]) == n
  }

  lemma InTurnMore(steps: seq<Step>, s: Step, n: nat)
    ensures forall i: nat :: i < |steps| ==> (InTurn(steps + [s], i, n) <==> InTurn(steps, i, n))
    ensures InTurn(steps + [s], |steps|, n) <==> s.model && Spawns(steps) == n
  {
    var more := steps + [s];
    assert more[..|steps|] == steps;
    assert forall i: nat :: i < |steps| ==> more[..i] == steps[..i] && more[i] == steps[i];
  }

  lemma {:induction false} SpawnsBefore(steps: seq<Step>, i: nat)
    requires i <= |steps|
    ensures Spawns(steps[..i]) <= Spawns(steps)
  {
    if i < |steps| {
      SpawnsBefore(steps[..|steps| - 1], i);
      assert steps[..|steps| - 1][..i] == steps[..i];
    } else {
      assert steps[..i] == steps;
    }
  }

  /** The places of the Steps of one turn, in order: exactly the model's Steps between two spawns. */
  ghost predicate TurnPlaces(steps: seq<Step>, n: nat, turn: seq<Step>, places: seq<nat>) {
    && Increasing(places) && |places| == |turn|
    && (forall i: nat :: i in places <==> InTurn(steps, i, n))
    && (forall k :: 0 <= k < |places| ==> places[k] < |steps| && turn[k] == steps[places[k]])
  }

  lemma TurnStays(steps: seq<Step>, s: Step, n: nat, turn: seq<Step>, places: seq<nat>)
    requires TurnPlaces(steps, n, turn, places) && !(s.model && Spawns(steps) == n)
    ensures TurnPlaces(steps + [s], n, turn, places)
  {
    InTurnMore(steps, s, n);
    forall i: nat ensures i in places <==> InTurn(steps + [s], i, n) {
      assert i > |steps| ==> !InTurn(steps + [s], i, n);
    }
  }

  lemma TurnGrows(steps: seq<Step>, s: Step, n: nat, turn: seq<Step>, places: seq<nat>)
    requires TurnPlaces(steps, n, turn, places) && s.model && Spawns(steps) == n
    ensures TurnPlaces(steps + [s], n, turn + [s], places + [|steps|])
  {
    InTurnMore(steps, s, n);
    forall k | 0 <= k < |places| ensures places[k] < |steps| {
      assert places[k] in places;
    }
    forall i: nat ensures i in places + [|steps|] <==> InTurn(steps + [s], i, n) {
      assert i > |steps| ==> !InTurn(steps + [s], i, n);
      assert i in places + [|steps|] <==> i in places || i == |steps|;
    }
  }

  /** The n-th part of the cut: a finished turn, or what is held since the last spawn. */
  function PartOf(steps: seq<Step>, n: nat): seq<Step>
    requires n <= |Cut(steps).0|
  {
    if n < |Cut(steps).0| then Cut(steps).0[n] else Cut(steps).1
  }

  /** Every turn is the model's Steps between two spawns, in order. */
  lemma {:induction false} TurnExact(steps: seq<Step>, n: nat) returns (places: seq<nat>)
    requires ValidSteps(steps) && n <= Spawns(steps)
    ensures |Cut(steps).0| == Spawns(steps) && TurnPlaces(steps, n, PartOf(steps, n), places)
  {
    CutPartitions(steps);
    if steps == [] {
      places := [];
    } else {
      var front, s := steps[..|steps| - 1], steps[|steps| - 1];
      assert steps == front + [s];
      CutPartitions(front);
      if n <= Spawns(front) {
        places := TurnExact(front, n);
        if s.model && !s.spawn && n == Spawns(front) {
          TurnGrows(front, s, n, PartOf(front, n), places);
          places := places + [|front|];
        } else {
          TurnStays(front, s, n, PartOf(front, n), places);
        }
      } else {
        places := [];
        forall i: nat ensures !InTurn(steps, i, n) {
          if i < |front| {
            SpawnsBefore(front, i);
            assert steps[..i] == front[..i];
          }
        }
      }
    }
  }

  /** Turns as the loop builds them from the Steps in sequence order. */
  method CutTurns(steps: seq<Step>) returns (turns: seq<seq<Step>>)
    ensures turns == Turns(SortBy(StepAt, steps))
  {
    var sorted := SortBy(StepAt, steps);
    var held: seq<Step> := [];
    turns := [];
    for i := 0 to |sorted|
      invariant (turns, held) == Cut(sorted[..i])
    {
      var s := sorted[i];
      assert sorted[..i + 1][..i] == sorted[..i];
      if s.spawn {
        turns, held := turns + [held], [];
      } else if s.model {
        held := held + [s];
      }
    }
    assert sorted[..|sorted|] == sorted;
    if held != [] {
      turns := turns + [held];
    }
  }

  // ---------------------------------------------------------------- the calls

  /** How many claims come before the given sequence number. */
  function Before(claims: seq<Claim>, at: nat): (n: nat)
    ensures n <= |claims| && (forall i :: 0 <= i < n ==> claims[i].at < at) && (n < |claims| ==> claims[n].at >= at)
  {
    if claims == [] || claims[0].at >= at then 0
    else
      var n := Before(claims[1..], at);
      assert forall i :: 0 < i <= n ==> claims[i] == claims[1..][i - 1];
      n + 1
  }

  function Sayings(claims: seq<Claim>): seq<Call> {
    seq(|claims|, i requires 0 <= i < |claims| => Said(claims[i]))
  }

  /** Each Step, with the claims not yet delivered that precede it. */
  function Merge(claims: seq<Claim>, steps: seq<Step>): seq<Call>
    decreases |steps|
  {
    if steps == [] then []
    else
      var n := Before(claims, steps[0].at);
      Sayings(claims[..n]) + [Observed(steps[0])] + Merge(claims[n..], steps[1..])
  }

  /** The calls up to and including the first Step at which the watch cuts. */
  function Through(cut: seq<Call> -> bool, made: seq<Call>, rest: seq<Call>): seq<Call>
    decreases |rest|
  {
    if rest == [] then made
    else
      var now := made + [rest[0]];
      if rest[0].Observed? && cut(now) then now else Through(cut, now, rest[1..])
  }

  // ---------------------------------------------------------------- the merge is the sequence order

  lemma StrictConcat<T>(key: T -> nat, a: seq<T>, b: seq<T>)
    requires StrictlyBy(key, a) && StrictlyBy(key, b) && forall x, y :: x in a && y in b ==> key(x) < key(y)
    ensures StrictlyBy(key, a + b)
  {
    var all := a + b;
    forall i, j | 0 <= i < j < |all| ensures key(all[i]) < key(all[j]) {
      if i < |a| && j >= |a| {
        assert all[i] in a && all[j] in b;
      }
    }
  }

  /** A claim precedes some Step. */
  predicate PrecedesSome(steps: seq<Step>, c: Claim) {
    exists i :: 0 <= i < |steps| && c.at < steps[i].at
  }

  /** Exactly the Steps, and the claims that precede some Step. */
  ghost predicate Delivers(calls: seq<Call>, claims: seq<Claim>, steps: seq<Step>) {
    && (forall s :: Observed(s) in calls <==> s in steps)
    && (forall c :: Said(c) in calls <==> c in claims && PrecedesSome(steps, c))
  }

  predicate Apart(claims: seq<Claim>, steps: seq<Step>) {
    forall i, j :: 0 <= i < |claims| && 0 <= j < |steps| ==> claims[i].at != steps[j].at
  }

  lemma SayingsMember(claims: seq<Claim>, c: Claim)
    ensures Said(c) in Sayings(claims) <==> c in claims
  {
    if c in claims {
      var i :| 0 <= i < |claims| && claims[i] == c;
      assert Sayings(claims)[i] == Said(c);
    }
  }

  lemma SplitMember(claims: seq<Claim>, n: nat, c: Claim)
    requires n <= |claims|
    ensures c in claims <==> c in claims[..n] || c in claims[n..]
  {
    assert claims == claims[..n] + claims[n..];
  }

  lemma {:induction false} MergeDelivers(claims: seq<Claim>, steps: seq<Step>)
    requires StrictlyBy(ClaimAt, claims) && StrictlyBy(StepAt, steps) && Apart(claims, steps)
    ensures Delivers(Merge(claims, steps), claims, steps)
    decreases |steps|
  {
    if steps != [] {
      var n := Before(claims, steps[0].at);
      var rest := Merge(claims[n..], steps[1..]);
      ApartTail(claims, steps, n);
      MergeDelivers(claims[n..], steps[1..]);
      forall s ensures Observed(s) in Merge(claims, steps) <==> s in steps {
        assert steps == [steps[0]] + steps[1..];
      }
      forall c ensures Said(c) in Merge(claims, steps) <==> c in claims && PrecedesSome(steps, c) {
        SayingsMember(claims[..n], c);
        SplitMember(claims, n, c);
        StepsAfter(claims, steps, n, c);
      }
    }
  }

  /** A claim still undelivered precedes some Step exactly when it precedes a later one. */
  lemma StepsAfter(claims: seq<Claim>, steps: seq<Step>, n: nat, c: Claim)
    requires StrictlyBy(ClaimAt, claims) && steps != [] && n == Before(claims, steps[0].at)
    ensures c in claims[..n] ==> PrecedesSome(steps, c)
    ensures c in claims[n..] ==> (PrecedesSome(steps, c) <==> PrecedesSome(steps[1..], c))
  {
    if c in claims[..n] {
      assert c.at < steps[0].at;
    }
    if c in claims[n..] {
      var i :| 0 <= i < |claims[n..]| && claims[n..][i] == c;
      assert claims[n].at <= claims[n + i].at;
      if PrecedesSome(steps, c) {
        var k :| 0 <= k < |steps| && c.at < steps[k].at;
        assert k > 0 && steps[1..][k - 1] == steps[k];
      }
      if PrecedesSome(steps[1..], c) {
        var k :| 0 <= k < |steps[1..]| && c.at < steps[1..][k].at;
        assert steps[k + 1] == steps[1..][k];
      }
    }
  }

  lemma SayingsStrict(claims: seq<Claim>)
    requires StrictlyBy(ClaimAt, claims)
    ensures StrictlyBy(CallAt, Sayings(claims))
  {
    var calls := Sayings(claims);
    forall i, j | 0 <= i < j < |calls| ensures CallAt(calls[i]) < CallAt(calls[j]) {
      assert ClaimAt(claims[i]) < ClaimAt(claims[j]);
    }
  }

  /** Every call of a merge is at or after the first Step, or one of the claims. */
  lemma MergeAfter(claims: seq<Claim>, steps: seq<Step>, at: nat)
    requires StrictlyBy(ClaimAt, claims) && StrictlyBy(StepAt, steps) && Apart(claims, steps)
    requires (forall i :: 0 <= i < |claims| ==> at < claims[i].at) && forall i :: 0 <= i < |steps| ==> at < steps[i].at
    ensures forall x :: x in Merge(claims, steps) ==> at < CallAt(x)
  {
    MergeDelivers(claims, steps);
    forall x | x in Merge(claims, steps) ensures at < CallAt(x) {
      match x
      case Said(c) => assert c in claims;
      case Observed(s) => assert s in steps;
    }
  }

  lemma ApartTail(claims: seq<Claim>, steps: seq<Step>, n: nat)
    requires Apart(claims, steps) && n <= |claims| && steps != []
    ensures Apart(claims[n..], steps[1..])
  {
    assert forall i :: 0 <= i < |claims| - n ==> claims[n..][i] == claims[n + i];
    assert forall i :: 0 <= i < |steps| - 1 ==> steps[1..][i] == steps[1 + i];
  }

  /** What is delivered up to the first Step is in order, the Step last. */
  lemma FrontStrict(claims: seq<Claim>, n: nat, first: Step)
    requires StrictlyBy(ClaimAt, claims) && n <= |claims| && forall i :: 0 <= i < n ==> claims[i].at < first.at
    ensures StrictlyBy(CallAt, Sayings(claims[..n]) + [Observed(first)])
    ensures forall x :: x in Sayings(claims[..n]) + [Observed(first)] ==> CallAt(x) <= first.at
  {
    SayingsStrict(claims[..n]);
    var sayings := Sayings(claims[..n]);
    forall x | x in sayings ensures CallAt(x) < first.at {
      var i :| 0 <= i < |sayings| && sayings[i] == x;
      assert claims[i].at < first.at;
    }
    StrictConcat(CallAt, sayings, [Observed(first)]);
  }

  /** The calls come in strictly increasing sequence order. */
  lemma {:induction false} MergeStrict(claims: seq<Claim>, steps: seq<Step>)
    requires StrictlyBy(ClaimAt, claims) && StrictlyBy(StepAt, steps) && Apart(claims, steps)
    ensures StrictlyBy(CallAt, Merge(claims, steps))
    decreases |steps|
  {
    if steps != [] {
      var n, first := Before(claims, steps[0].at), steps[0];
      ApartTail(claims, steps, n);
      LaterOnes(claims, steps, n);
      MergeStrict(claims[n..], steps[1..]);
      MergeAfter(claims[n..], steps[1..], first.at);
      FrontStrict(claims, n, first);
      StrictConcat(CallAt, Sayings(claims[..n]) + [Observed(first)], Merge(claims[n..], steps[1..]));
    }
  }

  lemma LaterOnes(claims: seq<Claim>, steps: seq<Step>, n: nat)
    requires StrictlyBy(ClaimAt, claims) && StrictlyBy(StepAt, steps) && Apart(claims, steps) && steps != []
    requires n == Before(claims, steps[0].at)
    ensures forall i :: 0 <= i < |claims[n..]| ==> steps[0].at < claims[n..][i].at
    ensures forall i :: 0 <= i < |steps[1..]| ==> steps[0].at < steps[1..][i].at
  {
    forall i | 0 <= i < |claims[n..]| ensures steps[0].at < claims[n..][i].at {
      assert claims[n..][i] == claims[n + i];
      assert ClaimAt(claims[n]) <= ClaimAt(claims[n + i]);
    }
    forall i | 0 <= i < |steps[1..]| ensures steps[0].at < steps[1..][i].at {
      assert StepAt(steps[0]) < StepAt(steps[i + 1]);
    }
  }

  /** Everything to be delivered, in no particular order. */
  function Eligible(claims: seq<Claim>, steps: seq<Step>): (r: seq<Claim>)
    ensures forall c :: c in r <==> c in claims && PrecedesSome(steps, c)
  {
    if claims == [] then []
    else
      var front, last := claims[..|claims| - 1], claims[|claims| - 1];
      assert forall c :: c in claims <==> c in front || c == last;
      Eligible(front, steps) + if PrecedesSome(steps, last) then [last] else []
  }

  function Sightings(steps: seq<Step>): seq<Call> {
    seq(|steps|, i requires 0 <= i < |steps| => Observed(steps[i]))
  }

  lemma {:induction false} EligibleStrict(claims: seq<Claim>, steps: seq<Step>)
    requires StrictlyBy(ClaimAt, claims)
    ensures StrictlyBy(ClaimAt, Eligible(claims, steps))
  {
    if claims != [] {
      var front, last := claims[..|claims| - 1], claims[|claims| - 1];
      EligibleStrict(front, steps);
      forall x, y | x in Eligible(front, steps) && y in [last] ensures ClaimAt(x) < ClaimAt(y) {
        var i :| 0 <= i < |front| && front[i] == x;
        assert ClaimAt(claims[i]) < ClaimAt(claims[|claims| - 1]);
      }
      if PrecedesSome(steps, last) {
        StrictConcat(ClaimAt, Eligible(front, steps), [last]);
      } else {
        assert Eligible(claims, steps) == Eligible(front, steps);
      }
    }
  }

  lemma SightingsMember(steps: seq<Step>, s: Step)
    ensures Observed(s) in Sightings(steps) <==> s in steps
  {
    if s in steps {
      var i :| 0 <= i < |steps| && steps[i] == s;
      assert Sightings(steps)[i] == Observed(s);
    }
  }

  /** Sightings and sayings together have distinct sequence numbers. */
  lemma ItemsDistinct(claims: seq<Claim>, steps: seq<Step>)
    requires StrictlyBy(ClaimAt, claims) && StrictlyBy(StepAt, steps) && Apart(claims, steps)
    ensures DistinctBy(CallAt, Sightings(steps) + Sayings(Eligible(claims, steps)))
  {
    EligibleStrict(claims, steps);
    var eligible := Eligible(claims, steps);
    var items, m := Sightings(steps) + Sayings(eligible), |steps|;
    forall i, j | 0 <= i < j < |items| ensures CallAt(items[i]) != CallAt(items[j]) {
      if j < m {
        assert StepAt(steps[i]) < StepAt(steps[j]);
      } else if i >= m {
        assert ClaimAt(eligible[i - m]) < ClaimAt(eligible[j - m]);
      } else {
        assert eligible[j - m] in claims;
        var k :| 0 <= k < |claims| && claims[k] == eligible[j - m];
        assert claims[k].at != steps[i].at;
      }
    }
  }

  /**
    The calls are exactly the sequence-ordered merge: the Steps and the claims that precede some
    Step, each once, sorted by sequence number.
   */
  lemma MergeIsSorted(claims: seq<Claim>, steps: seq<Step>)
    requires StrictlyBy(ClaimAt, claims) && StrictlyBy(StepAt, steps) && Apart(claims, steps)
    ensures Merge(claims, steps) == SortBy(CallAt, Sightings(steps) + Sayings(Eligible(claims, steps)))
  {
    var items := Sightings(steps) + Sayings(Eligible(claims, steps));
    ItemsDistinct(claims, steps);
    SortByStrict(CallAt, items);
    MergeStrict(claims, steps);
    MergeDelivers(claims, steps);
    forall x ensures x in Merge(claims, steps) <==> x in SortBy(CallAt, items) {
      match x
      case Said(c) => SayingsMember(Eligible(claims, steps), c);
      case Observed(s) => SightingsMember(steps, s);
    }
    StrictUnique(CallAt, Merge(claims, steps), SortBy(CallAt, items));
  }

  // ---------------------------------------------------------------- replaying

  /** The dictionary of what was said, as claims in sequence order. */
  function Claims(spoken: map<nat, nat>): (r: seq<Claim>)
    ensures StrictlyBy(ClaimAt, r) && forall c :: c in r <==> c.at in spoken && spoken[c.at] == c.text
  {
    var order := Sorted(spoken.Keys);
    var r := seq(|order|, i requires 0 <= i < |order| => assert order[i] in order; Claim(order[i], spoken[order[i]]));
    ClaimsMembers(spoken, order, r);
    r
  }

  lemma ClaimsMembers(spoken: map<nat, nat>, order: seq<nat>, r: seq<Claim>)
    requires Increasing(order) && (forall k :: k in order <==> k in spoken) && |r| == |order|
    requires forall i :: 0 <= i < |order| ==> order[i] in spoken && r[i] == Claim(order[i], spoken[order[i]])
    ensures StrictlyBy(ClaimAt, r) && forall c :: c in r <==> c.at in spoken && spoken[c.at] == c.text
  {
    forall c ensures c in r <==> c.at in spoken && spoken[c.at] == c.text {
      if c.at in spoken && spoken[c.at] == c.text {
        var i :| 0 <= i < |order| && order[i] == c.at;
        assert r[i] == c;
      }
    }
  }

  /** The key is none of the first `n` claims'. */
  predicate NotAmong(claims: seq<Claim>, n: nat, k: nat)
    requires n <= |claims|
  {
    forall i :: 0 <= i < n ==> claims[i].at != k
  }

  /** `rest` is the dictionary without the first `n` of its claims. */
  ghost predicate Popped(all: seq<Claim>, spoken: map<nat, nat>, rest: map<nat, nat>, n: nat)
    requires n <= |all|
  {
    && (forall k :: k in rest <==> k in spoken && NotAmong(all, n, k))
    && (forall k :: k in rest ==> k in spoken && rest[k] == spoken[k])
  }

  lemma NotAmongMore(all: seq<Claim>, n: nat, k: nat)
    requires n < |all|
    ensures NotAmong(all, n + 1, k) <==> NotAmong(all, n, k) && k != all[n].at
  {
    if NotAmong(all, n + 1, k) {
      assert all[n].at != k;
    }
  }

  lemma PoppedMore(all: seq<Claim>, spoken: map<nat, nat>, rest: map<nat, nat>, n: nat)
    requires n < |all| && Popped(all, spoken, rest, n)
    ensures Popped(all, spoken, rest - {all[n].at}, n + 1)
  {
    forall k ensures k in rest - {all[n].at} <==> k in spoken && NotAmong(all, n + 1, k) {
      NotAmongMore(all, n, k);
    }
  }

  lemma TailStrict(claims: seq<Claim>, n: nat)
    requires StrictlyBy(ClaimAt, claims) && n <= |claims|
    ensures StrictlyBy(ClaimAt, claims[n..])
  {
    assert forall i :: 0 <= i < |claims| - n ==> claims[n..][i] == claims[n + i];
  }

  lemma TailNotAmong(claims: seq<Claim>, n: nat, c: Claim)
    requires StrictlyBy(ClaimAt, claims) && n <= |claims|
    ensures c in claims[n..] <==> c in claims && NotAmong(claims, n, c.at)
  {
    if c in claims[n..] {
      var j :| 0 <= j < |claims[n..]| && claims[n..][j] == c;
      assert claims[n + j] == c;
      forall i | 0 <= i < n ensures claims[i].at != c.at {
        assert ClaimAt(claims[i]) < ClaimAt(claims[n + j]);
      }
    }
    if c in claims && NotAmong(claims, n, c.at) {
      var j :| 0 <= j < |claims| && claims[j] == c;
      assert claims[n..][j - n] == c;
    }
  }

  /** Popping the first claims leaves the rest, in order. */
  lemma ClaimsRest(spoken: map<nat, nat>, rest: map<nat, nat>, n: nat)
    requires n <= |Claims(spoken)| && Popped(Claims(spoken), spoken, rest, n)
    ensures Claims(rest) == Claims(spoken)[n..]
  {
    var all := Claims(spoken);
    TailStrict(all, n);
    forall c ensures c in Claims(rest) <==> c in all[n..] {
      TailNotAmong(all, n, c);
    }
    StrictUnique(ClaimAt, Claims(rest), all[n..]);
  }

  lemma SayingsMore(claims: seq<Claim>, i: nat)
    requires i < |claims|
    ensures Sayings(claims[..i + 1]) == Sayings(claims[..i]) + [Said(claims[i])]
  {
    assert claims[..i + 1] == claims[..i] + [claims[i]];
  }

  /** Hand over the claims before a Step, in order, popping each from the dictionary. */
  method SayPrefix(all: seq<Claim>, spoken: map<nat, nat>, at: nat, calls: seq<Call>)
    returns (rest: map<nat, nat>, calls': seq<Call>)
    ensures calls' == calls + Sayings(all[..Before(all, at)]) && Popped(all, spoken, rest, Before(all, at))
  {
    rest, calls' := spoken, calls;
    var i := 0;
    assert calls + Sayings(all[..0]) == calls;
    while i < |all| && all[i].at < at
      invariant i <= Before(all, at)
      invariant calls' == calls + Sayings(all[..i])
      invariant Popped(all, spoken, rest, i)
    {
      SayingsMore(all, i);
      PoppedMore(all, spoken, rest, i);
      calls' := calls' + [Said(all[i])];
      rest := rest - {all[i].at};
      i := i + 1;
    }
  }

  method SayBefore(spoken: map<nat, nat>, at: nat, calls: seq<Call>) returns (rest: map<nat, nat>, calls': seq<Call>)
    ensures var all := Claims(spoken);
            calls' == calls + Sayings(all[..Before(all, at)]) && Claims(rest) == all[Before(all, at)..]
  {
    rest, calls' := SayPrefix(Claims(spoken), spoken, at, calls);
    ClaimsRest(spoken, rest, Before(Claims(spoken), at));
  }

  lemma {:induction false} FlattenCons(turns: seq<seq<Step>>)
    requires turns != []
    ensures Flatten(turns) == turns[0] + Flatten(turns[1..])
  {
    var rest := turns[1..];
    if rest == [] {
      assert turns[..0] == [] && Flatten(turns[..0]) == [];
    } else {
      var front := turns[..|turns| - 1];
      FlattenCons(front);
      assert front[1..] == rest[..|rest| - 1];
    }
  }

  lemma {:induction false} ThroughConcat(cut: seq<Call> -> bool, made: seq<Call>, claims: seq<Claim>, rest: seq<Call>)
    ensures Through(cut, made, Sayings(claims) + rest) == Through(cut, made + Sayings(claims), rest)
    decreases |claims|
  {
    if claims == [] {
      assert Sayings(claims) + rest == rest && made + Sayings(claims) == made;
    } else {
      var first := Said(claims[0]);
      assert Sayings(claims) == [first] + Sayings(claims[1..]);
      assert (Sayings(claims) + rest)[1..] == Sayings(claims[1..]) + rest && (Sayings(claims) + rest)[0] == first;
      ThroughConcat(cut, made + [first], claims[1..], rest);
      assert made + [first] + Sayings(claims[1..]) == made + Sayings(claims);
    }
  }

  /** One Step: what was said before it, then the Step, then the cut or the rest. */
  lemma ThroughStep(cut: seq<Call> -> bool, made: seq<Call>, claims: seq<Claim>, steps: seq<Step>)
    requires steps != []
    ensures var n := Before(claims, steps[0].at);
            var now := made + Sayings(claims[..n]) + [Observed(steps[0])];
            Through(cut, made, Merge(claims, steps))
            == if cut(now) then now else Through(cut, now, Merge(claims[n..], steps[1..]))
  {
    var n := Before(claims, steps[0].at);
    var rest := Merge(claims[n..], steps[1..]);
    var tail := [Observed(steps[0])] + rest;
    assert Merge(claims, steps) == Sayings(claims[..n]) + tail;
    ThroughConcat(cut, made, claims[..n], tail);
    assert tail[0] == Observed(steps[0]) && tail[1..] == rest;
  }

  /** One turn, with the Steps of later turns still to come. */
  method ReplayTurn(turn: seq<Step>, said: map<nat, nat>, cut: seq<Call> -> bool, before: seq<Call>,
                    ghost later: seq<Step>)
    returns (calls: seq<Call>, spoken: map<nat, nat>, stopped: bool)
    ensures Through(cut, before, Merge(Claims(said), turn + later))
            == if stopped then calls else Through(cut, calls, Merge(Claims(spoken), later))
  {
    spoken, calls, stopped := said, before, false;
    ghost var whole := Through(cut, before, Merge(Claims(said), turn + later));
    assert turn[0..] == turn;
    for k := 0 to |turn|
      invariant !stopped && whole == Through(cut, calls, Merge(Claims(spoken), turn[k..] + later))
    {
      ghost var steps := turn[k..] + later;
      assert steps[0] == turn[k] && steps[1..] == turn[k + 1..] + later;
      ThroughStep(cut, calls, Claims(spoken), steps);
      spoken, calls := SayBefore(spoken, turn[k].at, calls);
      calls := calls + [Observed(turn[k])];
      if cut(calls) {
        stopped := true;
        return;
      }
    }
    assert turn[|turn|..] + later == later;
  }

  /**
    Drive the watch over the turns.  The calls made are the merge of all turns' Steps with what was
    said, up to and including the first Step at which the watch cuts.
   */
  method ReplayTurns(turns: seq<seq<Step>>, said: map<nat, nat>, cut: seq<Call> -> bool)
    returns (calls: seq<Call>, stopped: bool)
    ensures calls == Through(cut, [], Merge(Claims(said), Flatten(turns)))
  {
    var spoken := said;
    calls, stopped := [], false;
    ghost var whole := Through(cut, [], Merge(Claims(said), Flatten(turns)));
    assert turns[0..] == turns;
    for t := 0 to |turns|
      invariant !stopped && whole == Through(cut, calls, Merge(Claims(spoken), Flatten(turns[t..])))
    {
      FlattenCons(turns[t..]);
      assert turns[t..][1..] == turns[t + 1..] && turns[t..][0] == turns[t];
      calls, spoken, stopped := ReplayTurn(turns[t], spoken, cut, calls, Flatten(turns[t + 1..]));
      if stopped {
        return;
      }
    }
    assert turns[|turns|..] == [];
  }

  /** Whether everything in an Attempt has its own sequence number. */
  predicate DistinctNumbers(steps: seq<Step>, said: map<nat, nat>) {
    DistinctBy(StepAt, steps) && forall i :: 0 <= i < |steps| ==> steps[i].at !in said
  }

  lemma {:induction false} ModelStrict(steps: seq<Step>)
    requires StrictlyBy(StepAt, steps)
    ensures StrictlyBy(StepAt, ModelSteps(steps))
  {
    if steps != [] {
      var front, last := steps[..|steps| - 1], steps[|steps| - 1];
      ModelStrict(front);
      forall x, y | x in ModelSteps(front) && y in [last] ensures StepAt(x) < StepAt(y) {
        var i :| 0 <= i < |front| && front[i] == x;
        assert StepAt(steps[i]) < StepAt(steps[|steps| - 1]);
      }
      StrictConcat(StepAt, ModelSteps(front), [last]);
    }
  }

  /**
    The whole replay of one Attempt with distinct sequence numbers: up to its cut, the calls are the
    model's Steps and the claims that precede some of them, each once, in sequence order.  Without a
    timestamp on the first model Step nothing is replayed.
   */
  method ReplayAttempt(steps: seq<Step>, timed: bool, said: map<nat, nat>, cut: seq<Call> -> bool)
    returns (calls: seq<Call>, stopped: bool)
    requires ValidSteps(steps) && DistinctNumbers(steps, said)
    ensures !timed ==> calls == []
    ensures timed ==>
              var model := ModelSteps(SortBy(StepAt, steps));
              calls == Through(cut, [], SortBy(CallAt, Sightings(model) + Sayings(Eligible(Claims(said), model))))
  {
    if !timed {
      return [], false;
    }
    ghost var sorted := SortBy(StepAt, steps);
    var turns := CutTurns(steps);
    SortByStrict(StepAt, steps);
    assert ValidSteps(sorted) by {
      forall i | 0 <= i < |sorted| ensures !(sorted[i].spawn && sorted[i].model) {
        assert sorted[i] in sorted;
      }
    }
    TurnsPartition(sorted);
    ModelStrict(sorted);
    ghost var model := ModelSteps(sorted);
    assert Apart(Claims(said), model) by {
      forall i, j | 0 <= i < |Claims(said)| && 0 <= j < |model| ensures Claims(said)[i].at != model[j].at {
        assert Claims(said)[i] in Claims(said) && model[j] in model && model[j] in steps;
      }
    }
    MergeIsSorted(Claims(said), model);
    calls, stopped := ReplayTurns(turns, said, cut);
  }
}
