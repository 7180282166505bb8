/**
  Indexing the observations of a log by pass and document name, and assembling a pass from the index.

  Documents are of any type here, and the naming of documents is a pair of functions, so that
  nothing in these proofs depends on how either looks.
 */
module ProbeIndex {
  import opened Prelude
  import opened Ordering
  import opened ProfileDocuments

  datatype Event<D> = Observation(probe: string, cycle: nat, name: string, document: D) | Elsewhere

  /** The observations of one probe, in log order. */
  function Matching<D>(log: seq<Event<D>>, probe: string): seq<Event<D>> {
    if log == [] then []
    else
      var e := log[|log| - 1];
      Matching(log[..|log| - 1], probe) + if e.Observation? && e.probe == probe then [e] else []
  }

  predicate AllObservations<D>(events: seq<Event<D>>) {
    forall i :: 0 <= i < |events| ==> events[i].Observation?
  }

  lemma {:induction false} MatchingFacts<D>(log: seq<Event<D>>, probe: string)
    ensures AllObservations(Matching(log, probe))
  {
    if log != [] {
      MatchingFacts(log[..|log| - 1], probe);
    }
  }

  lemma {:induction false} MatchingConcat<D>(a: seq<Event<D>>, b: seq<Event<D>>, probe: string)
    ensures Matching(a + b, probe) == Matching(a, probe) + Matching(b, probe)
  {
    if b == [] {
      assert a + b == a;
    } else {
      var front := b[..|b| - 1];
      assert (a + b)[..|a + b| - 1] == a + front;
      MatchingConcat(a, front, probe);
    }
  }

  lemma {:induction false} MatchingNone<D>(log: seq<Event<D>>, probe: string)
    requires forall i :: 0 <= i < |log| && log[i].Observation? ==> log[i].probe != probe
    ensures Matching(log, probe) == []
  {
    if log != [] {
      MatchingNone(log[..|log| - 1], probe);
    }
  }

  lemma {:induction false} MatchingAll<D>(log: seq<Event<D>>, probe: string)
    requires forall i :: 0 <= i < |log| ==> log[i].Observation? && log[i].probe == probe
    ensures Matching(log, probe) == log
  {
    if log != [] {
      MatchingAll(log[..|log| - 1], probe);
    }
  }

  /** No two observations are about the same document of the same pass. */
  predicate Unrepeated<D>(events: seq<Event<D>>)
    requires AllObservations(events)
  {
    forall i, j :: 0 <= i < j < |events| ==> events[i].cycle != events[j].cycle || events[i].name != events[j].name
  }

  /** The documents of one pass by name; a later observation would replace an earlier one. */
  function ByName<D>(events: seq<Event<D>>, cycle: nat): map<string, D>
    requires AllObservations(events)
  {
    if events == [] then map[]
    else
      var e := events[|events| - 1];
      var before := ByName(events[..|events| - 1], cycle);
      if e.cycle == cycle then before[e.name := e.document] else before
  }

  function DetailIds<D>(docs: map<string, D>, key: string -> Option<Key>): set<nat> {
    set name | name in docs && key(name).Some? && key(name).value.Detail? :: key(name).value.id
  }

  predicate AllNames<D>(docs: map<string, D>, name: Key -> string, keys: seq<Key>) {
    forall i :: 0 <= i < |keys| ==> name(keys[i]) in docs
  }

  /** The documents of the keys, in their order. */
  function Lookup<D>(docs: map<string, D>, name: Key -> string, keys: seq<Key>): seq<D>
    requires AllNames(docs, name, keys)
  {
    seq(|keys|, i requires 0 <= i < |keys| => docs[name(keys[i])])
  }

  function Documents<D>(doc: Key -> D, keys: seq<Key>): seq<D> {
    seq(|keys|, i requires 0 <= i < |keys| => doc(keys[i]))
  }

  // ---------------------------------------------------------------- a list of reads and its index

  /** The observations a list of reads leaves behind. */
  function Trail<D>(name: Key -> string, doc: Key -> D, probe: string, cycle: nat, keys: seq<Key>): seq<Event<D>> {
    seq(|keys|, i requires 0 <= i < |keys| => Observation(probe, cycle, name(keys[i]), doc(keys[i])))
  }

  /** The names of these keys lead back to them. */
  ghost predicate Named(name: Key -> string, key: string -> Option<Key>, keys: seq<Key>) {
    forall k :: k in keys ==> key(name(k)) == Some(k)
  }

  /** The index holds exactly the documents of the keys, each under its key's name. */
  ghost predicate Holds<D>(docs: map<string, D>, name: Key -> string, key: string -> Option<Key>, doc: Key -> D,
                                 keys: seq<Key>)
  {
    && (forall k :: k in keys ==> name(k) in docs && docs[name(k)] == doc(k))
    && (forall n :: n in docs ==> key(n).Some? && key(n).value in keys && name(key(n).value) == n)
  }

  lemma TrailFacts<D>(name: Key -> string, doc: Key -> D, probe: string, cycle: nat, keys: seq<Key>)
    ensures var t := Trail(name, doc, probe, cycle, keys);
            && AllObservations(t) && |t| == |keys|
            && forall i :: 0 <= i < |t| ==> t[i].probe == probe && t[i].cycle == cycle && t[i].name == name(keys[i])
                                            && t[i].document == doc(keys[i])
  {}

  lemma HoldsMore<D>(docs: map<string, D>, name: Key -> string, key: string -> Option<Key>, doc: Key -> D,
                     keys: seq<Key>, k: Key)
    requires Holds(docs, name, key, doc, keys) && key(name(k)) == Some(k) && Named(name, key, keys)
    ensures Holds(docs[name(k) := doc(k)], name, key, doc, keys + [k])
  {
    var docs' := docs[name(k) := doc(k)];
    forall j | j in keys + [k] ensures name(j) in docs' && docs'[name(j)] == doc(j) {
      assert j == k || j in keys;
    }
    forall n | n in docs' ensures key(n).Some? && key(n).value in keys + [k] && name(key(n).value) == n {
      assert n == name(k) || n in docs;
    }
  }

  lemma {:induction false} TrailByName<D>(name: Key -> string, key: string -> Option<Key>, doc: Key -> D, probe: string,
                                          cycle: nat, keys: seq<Key>)
    requires Named(name, key, keys)
    ensures AllObservations(Trail(name, doc, probe, cycle, keys))
    ensures Holds(ByName(Trail(name, doc, probe, cycle, keys), cycle), name, key, doc, keys)
  {
    var trail := Trail(name, doc, probe, cycle, keys);
    if keys != [] {
      var front, k := keys[..|keys| - 1], keys[|keys| - 1];
      assert trail[..|trail| - 1] == Trail(name, doc, probe, cycle, front);
      assert forall j :: j in front ==> j in keys;
      TrailByName(name, key, doc, probe, cycle, front);
      assert k in keys;
      HoldsMore(ByName(Trail(name, doc, probe, cycle, front), cycle), name, key, doc, front, k);
      assert keys == front + [k];
    }
  }

  lemma {:induction false} OtherPass<D>(a: seq<Event<D>>, b: seq<Event<D>>, cycle: nat)
    requires AllObservations(a) && AllObservations(b) && AllObservations(a + b)
    requires forall i :: 0 <= i < |b| ==> b[i].cycle != cycle
    ensures ByName(a + b, cycle) == ByName(a, cycle)
  {
    if b == [] {
      assert a + b == a;
    } else {
      var front := b[..|b| - 1];
      assert (a + b)[..|a + b| - 1] == a + front;
      OtherPass(a, front, cycle);
    }
  }

  lemma {:induction false} OtherPassFirst<D>(a: seq<Event<D>>, b: seq<Event<D>>, cycle: nat)
    requires AllObservations(a) && AllObservations(b) && AllObservations(a + b)
    requires forall i :: 0 <= i < |a| ==> a[i].cycle != cycle
    ensures ByName(a + b, cycle) == ByName(b, cycle)
  {
    if b == [] {
      assert a + b == a && [] + a == a;
      OtherPass([], a, cycle);
    } else {
      var front := b[..|b| - 1];
      assert (a + b)[..|a + b| - 1] == a + front;
      OtherPassFirst(a, front, cycle);
    }
  }

  predicate DistinctKeys(keys: seq<Key>) {
    forall i, j :: 0 <= i < j < |keys| ==> keys[i] != keys[j]
  }

  lemma TrailUnrepeated<D>(name: Key -> string, key: string -> Option<Key>, doc: Key -> D, probe: string, cycle: nat,
                           keys: seq<Key>)
    requires Named(name, key, keys) && DistinctKeys(keys)
    ensures AllObservations(Trail(name, doc, probe, cycle, keys)) && Unrepeated(Trail(name, doc, probe, cycle, keys))
  {
    forall i, j | 0 <= i < j < |keys| ensures name(keys[i]) != name(keys[j]) {
      assert keys[i] in keys && keys[j] in keys;
    }
  }

  lemma BothUnrepeated<D>(a: seq<Event<D>>, b: seq<Event<D>>, c: nat, d: nat)
    requires AllObservations(a) && AllObservations(b) && Unrepeated(a) && Unrepeated(b) && c != d
    requires (forall i :: 0 <= i < |a| ==> a[i].cycle == c) && (forall i :: 0 <= i < |b| ==> b[i].cycle == d)
    ensures AllObservations(a + b) && Unrepeated(a + b)
  {}

  /** Two passes recorded one after the other are indexed apart, with nothing repeated. */
  lemma TwoPasses<D>(name: Key -> string, key: string -> Option<Key>, first: Key -> D, second: Key -> D, probe: string,
                     keys1: seq<Key>, keys2: seq<Key>)
    requires Named(name, key, keys1) && Named(name, key, keys2) && DistinctKeys(keys1) && DistinctKeys(keys2)
    ensures var events := Trail(name, first, probe, 1, keys1) + Trail(name, second, probe, 2, keys2);
            && AllObservations(events) && Unrepeated(events)
            && Holds(ByName(events, 1), name, key, first, keys1) && Holds(ByName(events, 2), name, key, second, keys2)
  {
    var a, b := Trail(name, first, probe, 1, keys1), Trail(name, second, probe, 2, keys2);
    TrailFacts(name, first, probe, 1, keys1);
    TrailFacts(name, second, probe, 2, keys2);
    TrailUnrepeated(name, key, first, probe, 1, keys1);
    TrailUnrepeated(name, key, second, probe, 2, keys2);
    BothUnrepeated(a, b, 1, 2);
    TrailByName(name, key, first, probe, 1, keys1);
    TrailByName(name, key, second, probe, 2, keys2);
    OtherPass(a, b, 1);
    OtherPassFirst(a, b, 2);
  }

  /** The detail ids found in the index, sorted, are the ids that were read. */
  lemma HeldDetails<D>(docs: map<string, D>, name: Key -> string, key: string -> Option<Key>, doc: Key -> D,
                       keys: seq<Key>, ids: seq<nat>)
    requires Holds(docs, name, key, doc, keys) && Named(name, key, keys)
    requires Increasing(ids) && forall id :: Detail(id) in keys <==> id in ids
    ensures Sorted(DetailIds(docs, key)) == ids
  {
    forall id ensures id in ids <==> id in DetailIds(docs, key) {
      if id in ids {
        assert Detail(id) in keys;
        assert name(Detail(id)) in docs && key(name(Detail(id))) == Some(Detail(id));
      }
      if id in DetailIds(docs, key) {
        var n :| n in docs && key(n).Some? && key(n).value.Detail? && key(n).value.id == id;
        assert key(n).value == Detail(id);
      }
    }
    SortedOf(ids, DetailIds(docs, key));
  }

  lemma LookupHeld<D>(docs: map<string, D>, name: Key -> string, key: string -> Option<Key>, doc: Key -> D,
                      keys: seq<Key>, part: seq<Key>)
    requires Holds(docs, name, key, doc, keys) && forall i :: 0 <= i < |part| ==> part[i] in keys
    ensures AllNames(docs, name, part) && Lookup(docs, name, part) == Documents(doc, part)
  {
    forall i | 0 <= i < |part| ensures name(part[i]) in docs && docs[name(part[i])] == doc(part[i]) {
      assert part[i] in keys;
    }
  }

  // ---------------------------------------------------------------- the index as a dictionary

  /** The dictionary from pass and name to document that one scan of the observations builds. */
  function Indexed<D>(events: seq<Event<D>>): map<(nat, string), D>
    requires AllObservations(events)
  {
    if events == [] then map[]
    else
      var e := events[|events| - 1];
      Indexed(events[..|events| - 1])[(e.cycle, e.name) := e.document]
  }

  /** The part of the dictionary that belongs to one pass. */
  function OfPass<D>(index: map<(nat, string), D>, cycle: nat): map<string, D> {
    map name | name in (set p | p in index && p.0 == cycle :: p.1) :: index[(cycle, name)]
  }

  lemma {:induction false} OfPassByName<D>(events: seq<Event<D>>, cycle: nat)
    requires AllObservations(events)
    ensures OfPass(Indexed(events), cycle) == ByName(events, cycle)
  {
    if events != [] {
      var front, e := events[..|events| - 1], events[|events| - 1];
      OfPassByName(front, cycle);
      OfPassMore(Indexed(front), e.cycle, e.name, e.document, cycle);
    }
  }

  lemma InPass<D>(index: map<(nat, string), D>, cycle: nat, name: string)
    ensures name in OfPass(index, cycle) <==> (cycle, name) in index
    ensures name in OfPass(index, cycle) ==> OfPass(index, cycle)[name] == index[(cycle, name)]
  {
    if (cycle, name) in index {
      assert (cycle, name).0 == cycle && (cycle, name).1 == name;
      assert name in (set p | p in index && p.0 == cycle :: p.1);
    }
  }

  lemma OfPassMore<D>(index: map<(nat, string), D>, c: nat, n: string, d: D, cycle: nat)
    ensures OfPass(index[(c, n) := d], cycle) == if c == cycle then OfPass(index, cycle)[n := d]
              else OfPass(index, cycle)
  {
    var more := OfPass(index[(c, n) := d], cycle);
    var want := if c == cycle then OfPass(index, cycle)[n := d] else OfPass(index, cycle);
    forall name ensures (name in more <==> name in want) && (name in more ==> more[name] == want[name]) {
      InPass(index[(c, n) := d], cycle, name);
      InPass(index, cycle, name);
    }
  }

  /** The dictionary has fewer entries than there were observations exactly when some were repeated. */
  lemma {:induction false} CountTells<D>(events: seq<Event<D>>)
    requires AllObservations(events)
    ensures |Indexed(events)| <= |events| && (|Indexed(events)| == |events| <==> Unrepeated(events))
    ensures forall c: nat, n: string :: (c, n) in Indexed(events) <==>
              exists i :: 0 <= i < |events| && events[i].cycle == c && events[i].name == n
  {
    if events != [] {
      var front, e := events[..|events| - 1], events[|events| - 1];
      CountTells(front);
      assert forall i :: 0 <= i < |front| ==> front[i] == events[i];
      var index, all := Indexed(front), Indexed(events);
      forall c: nat, n: string
        ensures (c, n) in all <==> exists i :: 0 <= i < |events| && events[i].cycle == c && events[i].name == n
      {
        if (c, n) in index {
          var i :| 0 <= i < |front| && front[i].cycle == c && front[i].name == n;
          assert events[i].cycle == c;
        }
      }
      if (e.cycle, e.name) in index {
        assert all.Keys == index.Keys;
      } else {
        assert all.Keys == index.Keys + {(e.cycle, e.name)};
      }
    }
  }

  lemma MatchingMore<D>(log: seq<Event<D>>, i: nat, probe: string)
    requires i < |log|
    ensures Matching(log[..i + 1], probe)
            == Matching(log[..i], probe) + if log[i].Observation? && log[i].probe == probe then [log[i]] else []
  {
    assert log[..i + 1][..i] == log[..i];
  }

  lemma IndexedMore<D>(events: seq<Event<D>>, e: Event<D>)
    requires AllObservations(events) && e.Observation?
    ensures AllObservations(events + [e]) && Indexed(events + [e]) == Indexed(events)[(e.cycle, e.name) := e.document]
  {
    assert (events + [e])[..|events|] == events;
  }

  /** One scan of the log filters a probe's observations and fills the dictionary. */
  method Scan<D>(log: seq<Event<D>>, probe: string) returns (events: seq<Event<D>>, index: map<(nat, string), D>)
    ensures events == Matching(log, probe) && AllObservations(events) && index == Indexed(events)
  {
    events, index := [], map[];
    for i := 0 to |log|
      invariant events == Matching(log[..i], probe) && AllObservations(events) && index == Indexed(events)
    {
      var e := log[i];
      MatchingMore(log, i, probe);
      if e.Observation? && e.probe == probe {
        IndexedMore(events, e);
        events := events + [e];
        index := index[(e.cycle, e.name) := e.document];
      } else {
        assert events + [] == events;
      }
    }
    assert log[..|log|] == log;
  }
}
