/**
  What rebuilding a probe demands of any log, and reading one back of any document, whoever wrote it:
  exactly which are refused, and that what is accepted is what was written.
 */
module ProbeValidity {
  import opened Prelude
  import opened Ordering
  import opened Text
  import opened ProfileDocuments
  import opened ProbeIndex
  import opened ProfileReceipt
  import opened ProbeCodec

  // ---------------------------------------------------------------- one pass from its documents

  /** The name is a document's, and the document came from that document's endpoint. */
  ghost predicate InPlace(name: string, d: Document) {
    exists k :: ValidKey(k) && NameOf(k) == name && EndpointOf(k) == d.endpoint
  }

  lemma InPlaceExact(name: string, d: Document)
    ensures InPlace(name, d) <==> KeyOf(name).Some? && d.endpoint == EndpointOf(KeyOf(name).value)
  {
    if InPlace(name, d) {
      var k :| ValidKey(k) && NameOf(k) == name && EndpointOf(k) == d.endpoint;
      KeyOfName(k);
    }
    if KeyOf(name).Some? {
      NameOfKey(name);
    }
  }

  /** All eight controls are there, and every document is in its place. */
  ghost predicate WholePass(docs: map<string, Document>) {
    && (forall i :: 0 <= i < 8 ==> FIXED_NAMES[i] in docs)
    && (forall name :: name in docs ==> InPlace(name, docs[name]))
  }

  /** The pass holds each document once: the controls in declared order, and the details by increasing id. */
  ghost predicate MadeOf(c: Cycle, docs: map<string, Document>, ids: seq<nat>) {
    && |c.fixed| == 8 && (forall i :: 0 <= i < 8 ==> FIXED_NAMES[i] in docs && c.fixed[i] == docs[FIXED_NAMES[i]])
    && Increasing(ids) && |c.details| == |ids|
    && (forall i :: 0 <= i < |ids| ==>
          NameOf(Detail(ids[i])) in docs && c.details[i] == docs[NameOf(Detail(ids[i]))])
    && (forall name :: name in docs ==> name in FIXED_NAMES || exists id :: id in ids && name == NameOf(Detail(id)))
  }

  lemma ControlNames(docs: map<string, Document>)
    ensures AllNames(docs, NameOf, OPENING + ENDING) <==> forall i :: 0 <= i < 8 ==> FIXED_NAMES[i] in docs
  {
    assert forall i :: 0 <= i < 8 ==> (OPENING + ENDING)[i] == Fixed(i) && NameOf(Fixed(i)) == FIXED_NAMES[i];
    if AllNames(docs, NameOf, OPENING + ENDING) {
      forall i | 0 <= i < 8 ensures FIXED_NAMES[i] in docs {
        assert NameOf((OPENING + ENDING)[i]) in docs;
      }
    }
  }

  lemma PlacedExact(docs: map<string, Document>)
    ensures Placed(docs) <==> forall name :: name in docs ==> InPlace(name, docs[name])
  {
    forall name | name in docs
      ensures InPlace(name, docs[name]) <==> KeyOf(name).Some? && docs[name].endpoint == EndpointOf(KeyOf(name).value)
    {
      InPlaceExact(name, docs[name]);
    }
  }

  /** A pass is assembled exactly from whole ones, and then out of all its documents. */
  lemma CycleExact(docs: map<string, Document>)
    ensures CycleFrom(docs).Some? <==> WholePass(docs)
    ensures CycleFrom(docs).Some? ==> MadeOf(CycleFrom(docs).value, docs, Sorted(DetailIds(docs, KeyOf)))
  {
    ControlNames(docs);
    PlacedExact(docs);
    if CycleFrom(docs).Some? {
      DetailsNamed(docs);
      MadeOfAll(docs);
    }
  }

  lemma NamedOrFixed(docs: map<string, Document>, name: string)
    requires name in docs && KeyOf(name).Some?
    ensures name in FIXED_NAMES || exists id :: id in Sorted(DetailIds(docs, KeyOf)) && name == NameOf(Detail(id))
  {
    NameOfKey(name);
    var k := KeyOf(name).value;
    if k.Fixed? {
      assert FIXED_NAMES[k.index] == name;
    } else {
      assert k.id in DetailIds(docs, KeyOf);
      assert k.id in Sorted(DetailIds(docs, KeyOf)) && name == NameOf(Detail(k.id));
    }
  }

  lemma MadeOfAll(docs: map<string, Document>)
    requires CycleFrom(docs).Some?
    ensures MadeOf(CycleFrom(docs).value, docs, Sorted(DetailIds(docs, KeyOf)))
  {
    DetailsNamed(docs);
    ControlNames(docs);
    var c, ids := CycleFrom(docs).value, Sorted(DetailIds(docs, KeyOf));
    forall i | 0 <= i < 8 ensures c.fixed[i] == docs[FIXED_NAMES[i]] {
      assert (OPENING + ENDING)[i] == Fixed(i) && NameOf(Fixed(i)) == FIXED_NAMES[i];
    }
    forall i | 0 <= i < |ids|
      ensures NameOf(Detail(ids[i])) in docs && c.details[i] == docs[NameOf(Detail(ids[i]))]
    {
      assert DetailKeys(ids)[i] == Detail(ids[i]);
    }
    forall name | name in docs
      ensures name in FIXED_NAMES || exists id :: id in ids && name == NameOf(Detail(id))
    {
      NamedOrFixed(docs, name);
    }
  }

  // ---------------------------------------------------------------- the probe from any log

  predicate Observes(log: Log, k: nat, probe: string) {
    k < |log| && log[k].Observation? && log[k].probe == probe
  }

  /** No document of a pass was observed twice. */
  ghost predicate NoneTwice(log: Log, probe: string) {
    forall i: nat, j: nat :: i < j && Observes(log, i, probe) && Observes(log, j, probe) ==>
      log[i].cycle != log[j].cycle || log[i].name != log[j].name
  }

  predicate Maps(docs: map<string, Document>, name: string, d: Document) {
    name in docs && docs[name] == d
  }

  ghost predicate InLog(log: Log, probe: string, cycle: nat, name: string, d: Document) {
    exists k: nat :: k < |log| && log[k] == Observation(probe, cycle, name, d)
  }

  /** The documents are those observed in this pass, under the names they were observed by. */
  ghost predicate ObservedIn(docs: map<string, Document>, log: Log, probe: string, cycle: nat) {
    forall name, d :: Maps(docs, name, d) <==> InLog(log, probe, cycle, name, d)
  }

  /** These are the places of the probe's observations, in order, and these the observations. */
  ghost predicate PlacesOf(log: Log, probe: string, places: seq<nat>) {
    Increasing(places) && forall k: nat :: k in places <==> Observes(log, k, probe)
  }

  ghost predicate StandAt(events: seq<Event<Document>>, log: Log, places: seq<nat>) {
    |events| == |places| && forall i :: 0 <= i < |places| ==> places[i] < |log| && events[i] == log[places[i]]
  }

  lemma PlacesMore(log: Log, e: Event<Document>, probe: string, places: seq<nat>)
    requires PlacesOf(log, probe, places)
    ensures PlacesOf(log + [e], probe, if e.Observation? && e.probe == probe then places + [|log|] else places)
  {
    var longer, seen := log + [e], e.Observation? && e.probe == probe;
    var more := if seen then places + [|log|] else places;
    assert forall k :: 0 <= k < |log| ==> longer[k] == log[k];
    forall i | 0 <= i < |places| ensures places[i] < |log| {
      assert places[i] in places;
    }
    forall k: nat ensures k in more <==> Observes(longer, k, probe) {
      assert k in more <==> k in places || (seen && k == |log|);
    }
  }

  lemma StandMore(events: seq<Event<Document>>, log: Log, e: Event<Document>, places: seq<nat>)
    requires StandAt(events, log, places)
    ensures StandAt(events, log + [e], places) && StandAt(events + [e], log + [e], places + [|log|])
  {}

  lemma MatchingMore(log: Log, e: Event<Document>, probe: string)
    ensures Matching(log + [e], probe) == Matching(log, probe) + if e.Observation? && e.probe == probe then [e] else []
  {
    assert (log + [e])[..|log|] == log;
  }

  lemma {:induction false} MatchingPlaces(log: Log, probe: string) returns (places: seq<nat>)
    ensures PlacesOf(log, probe, places) && StandAt(Matching(log, probe), log, places)
  {
    if log == [] {
      places := [];
    } else {
      var front, e := log[..|log| - 1], log[|log| - 1];
      assert log == front + [e];
      places := MatchingPlaces(front, probe);
      PlacesMore(front, e, probe, places);
      StandMore(Matching(front, probe), front, e, places);
      MatchingMore(front, e, probe);
      if e.Observation? && e.probe == probe {
        places := places + [|front|];
      }
    }
  }

  lemma UnrepeatedExact(log: Log, probe: string)
    ensures AllObservations(Matching(log, probe))
    ensures Unrepeated(Matching(log, probe)) <==> NoneTwice(log, probe)
  {
    MatchingFacts(log, probe);
    var places := MatchingPlaces(log, probe);
    var events := Matching(log, probe);
    if NoneTwice(log, probe) {
      forall i, j | 0 <= i < j < |events|
        ensures events[i].cycle != events[j].cycle || events[i].name != events[j].name
      {
        assert places[i] in places && places[j] in places;
        assert Observes(log, places[i], probe) && Observes(log, places[j], probe);
      }
    }
    if Unrepeated(events) {
      forall i: nat, j: nat | i < j && Observes(log, i, probe) && Observes(log, j, probe)
        ensures log[i].cycle != log[j].cycle || log[i].name != log[j].name
      {
        assert i in places && j in places;
        var m :| 0 <= m < |places| && places[m] == i;
        var n :| 0 <= n < |places| && places[n] == j;
        assert m < n;
      }
    }
  }

  predicate SeenAs(e: Event<Document>, cycle: nat, name: string, d: Document) {
    e.Observation? && e.cycle == cycle && e.name == name && e.document == d
  }

  predicate SeenIn(events: seq<Event<Document>>, cycle: nat, name: string, d: Document) {
    exists i :: 0 <= i < |events| && SeenAs(events[i], cycle, name, d)
  }

  lemma SeenMore(front: seq<Event<Document>>, e: Event<Document>, cycle: nat, name: string, d: Document)
    ensures SeenIn(front + [e], cycle, name, d) <==> SeenIn(front, cycle, name, d) || SeenAs(e, cycle, name, d)
  {
    var events := front + [e];
    if i :| 0 <= i < |front| && SeenAs(front[i], cycle, name, d) {
      assert SeenAs(events[i], cycle, name, d);
    }
    if SeenAs(e, cycle, name, d) {
      assert SeenAs(events[|front|], cycle, name, d);
    }
  }

  lemma NotSeenBefore(front: seq<Event<Document>>, e: Event<Document>, d: Document)
    requires e.Observation? && AllObservations(front + [e]) && Unrepeated(front + [e])
    ensures !SeenIn(front, e.cycle, e.name, d)
  {
    var events := front + [e];
    forall i | 0 <= i < |front| ensures !SeenAs(front[i], e.cycle, e.name, d) {
      assert events[i] == front[i] && events[|front|] == e;
    }
  }

  /** By name the pass holds what was observed, nothing being observed twice. */
  lemma {:induction false} ByNameHolds(events: seq<Event<Document>>, cycle: nat, name: string, d: Document)
    requires AllObservations(events) && Unrepeated(events)
    ensures Maps(ByName(events, cycle), name, d) <==> SeenIn(events, cycle, name, d)
  {
    if events != [] {
      var front, e := events[..|events| - 1], events[|events| - 1];
      assert events == front + [e];
      ByNameHolds(front, cycle, name, d);
      SeenMore(front, e, cycle, name, d);
      if e.cycle == cycle && e.name == name {
        NotSeenBefore(front, e, d);
      }
    }
  }

  lemma SeenExact(log: Log, probe: string, cycle: nat, name: string, d: Document)
    ensures SeenIn(Matching(log, probe), cycle, name, d) <==> InLog(log, probe, cycle, name, d)
  {
    var events := Matching(log, probe);
    var places := MatchingPlaces(log, probe);
    if i :| 0 <= i < |events| && SeenAs(events[i], cycle, name, d) {
      assert places[i] in places;
      assert log[places[i]] == Observation(probe, cycle, name, d);
    }
    if k: nat :| k < |log| && log[k] == Observation(probe, cycle, name, d) {
      assert k in places;
      var i :| 0 <= i < |places| && places[i] == k;
      assert SeenAs(events[i], cycle, name, d);
    }
  }

  lemma PassObserved(log: Log, probe: string, cycle: nat)
    requires NoneTwice(log, probe)
    ensures AllObservations(Matching(log, probe)) && ObservedIn(ByName(Matching(log, probe), cycle), log, probe, cycle)
  {
    UnrepeatedExact(log, probe);
    forall name, d
      ensures Maps(ByName(Matching(log, probe), cycle), name, d) <==> InLog(log, probe, cycle, name, d)
    {
      ByNameHolds(Matching(log, probe), cycle, name, d);
      SeenExact(log, probe, cycle, name, d);
    }
  }

  ghost predicate NameObserved(log: Log, probe: string, cycle: nat, name: string) {
    exists k: nat :: Observes(log, k, probe) && log[k].cycle == cycle && log[k].name == name
  }

  /** The pass was observed whole: every control, and every document in its place. */
  ghost predicate WholeInLog(log: Log, probe: string, cycle: nat) {
    && (forall i :: 0 <= i < 8 ==> NameObserved(log, probe, cycle, FIXED_NAMES[i]))
    && (forall k: nat :: Observes(log, k, probe) && log[k].cycle == cycle ==> InPlace(log[k].name, log[k].document))
  }

  lemma ObservedMaps(docs: map<string, Document>, log: Log, probe: string, cycle: nat, k: nat)
    requires ObservedIn(docs, log, probe, cycle) && Observes(log, k, probe) && log[k].cycle == cycle
    ensures log[k].name in docs && docs[log[k].name] == log[k].document
  {
    assert log[k] == Observation(probe, cycle, log[k].name, log[k].document);
    assert InLog(log, probe, cycle, log[k].name, log[k].document);
    assert Maps(docs, log[k].name, log[k].document);
  }

  lemma MapsObserved(docs: map<string, Document>, log: Log, probe: string, cycle: nat, name: string) returns (k: nat)
    requires ObservedIn(docs, log, probe, cycle) && name in docs
    ensures Observes(log, k, probe) && log[k] == Observation(probe, cycle, name, docs[name])
  {
    var d := docs[name];
    assert Maps(docs, name, d);
    k :| k < |log| && log[k] == Observation(probe, cycle, name, d);
  }

  lemma WholeExact(docs: map<string, Document>, log: Log, probe: string, cycle: nat)
    requires ObservedIn(docs, log, probe, cycle)
    ensures WholePass(docs) <==> WholeInLog(log, probe, cycle)
  {
    if WholePass(docs) {
      forall i | 0 <= i < 8 ensures NameObserved(log, probe, cycle, FIXED_NAMES[i]) {
        var k := MapsObserved(docs, log, probe, cycle, FIXED_NAMES[i]);
      }
      forall k: nat | Observes(log, k, probe) && log[k].cycle == cycle ensures InPlace(log[k].name, log[k].document) {
        ObservedMaps(docs, log, probe, cycle, k);
      }
    }
    if WholeInLog(log, probe, cycle) {
      forall i | 0 <= i < 8 ensures FIXED_NAMES[i] in docs {
        assert NameObserved(log, probe, cycle, FIXED_NAMES[i]);
        var k: nat :| Observes(log, k, probe) && log[k].cycle == cycle && log[k].name == FIXED_NAMES[i];
        ObservedMaps(docs, log, probe, cycle, k);
      }
      forall name | name in docs ensures InPlace(name, docs[name]) {
        var k := MapsObserved(docs, log, probe, cycle, name);
      }
    }
  }

  /**
    Of any log at all, the probe is rebuilt exactly when nothing of it was observed twice and both
    passes were observed whole; each pass is then made of what was observed in it, all of it.
   */
  lemma RebuildExact(log: Log, probe: string)
    ensures CanonicalProbe(log, probe).Some? <==>
            NoneTwice(log, probe) && WholeInLog(log, probe, 1) && WholeInLog(log, probe, 2)
    ensures CanonicalProbe(log, probe).Some? ==>
              && (exists docs, ids :: ObservedIn(docs, log, probe, 1)
                                      && MadeOf(CanonicalProbe(log, probe).value.0, docs, ids))
              && (exists docs, ids :: ObservedIn(docs, log, probe, 2)
                                      && MadeOf(CanonicalProbe(log, probe).value.1, docs, ids))
  {
    UnrepeatedExact(log, probe);
    if NoneTwice(log, probe) {
      var first, second := ByName(Matching(log, probe), 1), ByName(Matching(log, probe), 2);
      PassObserved(log, probe, 1);
      PassObserved(log, probe, 2);
      WholeExact(first, log, probe, 1);
      WholeExact(second, log, probe, 2);
      CycleExact(first);
      CycleExact(second);
    }
  }

  // ---------------------------------------------------------------- the probe from any document

  /** Exactly the forms of consistent documents are read, each as the document it is the form of. */
  lemma FromWireExact(x: Wire, d: Document)
    ensures FromWire(x) == Some(d) <==> x == ToWire(d) && Consistent(d)
  {}

  /** These are the forms of consistent documents. */
  ghost predicate FormsOf(wires: map<string, Wire>, docs: map<string, Document>) {
    && wires.Keys == docs.Keys
    && forall name :: name in docs ==> wires[name] == ToWire(docs[name]) && Consistent(docs[name])
  }

  lemma FormsExact(wires: map<string, Wire>, docs: map<string, Document>)
    ensures FormsOf(wires, docs) <==> AllRead(wires) && ReadBack(wires) == docs
  {
    forall name | name in wires && name in docs
      ensures FromWire(wires[name]) == Some(docs[name]) <==> wires[name] == ToWire(docs[name]) && Consistent(docs[name])
    {
      FromWireExact(wires[name], docs[name]);
    }
    if AllRead(wires) && ReadBack(wires) == docs {
      assert wires.Keys == docs.Keys;
    }
    if FormsOf(wires, docs) {
      forall name | name in wires ensures FromWire(wires[name]) == Some(docs[name]) {
        assert name in docs;
      }
      assert ReadBack(wires) == docs;
    }
  }

  /** The documents of two passes that share no request id, and what they assemble to. */
  ghost predicate Assemble(docs: map<string, Document>, more: map<string, Document>, a: Cycle, b: Cycle) {
    IdsUnused(docs, more) && CycleFrom(docs) == Some(a) && CycleFrom(more) == Some(b)
  }

  lemma ReadAssembles(first: map<string, Wire>, second: map<string, Wire>, a: Cycle, b: Cycle)
    ensures ProbeFrom(first, second) == Some((a, b)) <==>
            AllRead(first) && AllRead(second) && Assemble(ReadBack(first), ReadBack(second), a, b)
  {}

  /**
    A probe document is read exactly when it is the form of two whole passes of consistent documents
    that share no request id; the passes are then made of those documents.
   */
  lemma ProbeFromExact(first: map<string, Wire>, second: map<string, Wire>, a: Cycle, b: Cycle)
    ensures ProbeFrom(first, second) == Some((a, b)) <==>
            exists docs, more :: FormsOf(first, docs) && FormsOf(second, more) && Assemble(docs, more, a, b)
  {
    ReadAssembles(first, second, a, b);
    if AllRead(first) && AllRead(second) {
      FormsExact(first, ReadBack(first));
      FormsExact(second, ReadBack(second));
    }
    if docs, more :| FormsOf(first, docs) && FormsOf(second, more) && Assemble(docs, more, a, b) {
      FormsExact(first, docs);
      FormsExact(second, more);
    }
  }
}
