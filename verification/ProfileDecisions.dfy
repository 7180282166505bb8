/**
  What qualifying comes to, stated on what the documents of the two passes say: when there is
  authority and what the profile then holds, and exactly which fields each refusal names.
 */
module ProfileDecisions {
  import opened Prelude
  import opened Ordering
  import opened ProfileQualify
  import CD = ChallengeDetails

  // ---------------------------------------------------------------- a pass that leaves nothing unsettled

  /** The identity document and the page's marker name one person, and in teams mode one team. */
  predicate SamePerson(person: Person, marker: Marker) {
    && person.id != 0 && marker.userId == person.id
    && (marker.teams ==> marker.teamId.Some? && marker.teamId.value != 0 && marker.teamId == person.team)
  }

  /** Every listed Challenge has a positive id of its own, and the details corroborate the listing. */
  ghost predicate SoundListing(details: seq<CD.Detail>, listing: seq<CD.Entry>) {
    && (forall i :: 0 <= i < |listing| ==> listing[i].id > 0)
    && (forall i, j :: 0 <= i < j < |listing| ==> listing[i].id != listing[j].id)
    && CD.Corroborates(details, listing)
  }

  /** The places of the details of instanced Challenges. */
  function InstancedPlaces(details: seq<CD.Detail>): set<nat> {
    set i: nat | i < |details| && details[i].body.Body? && details[i].body.kind == CD.Str("dynamic_iac")
  }

  ghost predicate SoundIdentity(c: Facts) {
    c.landingReadable && c.person.Some? && c.marker.Some? && SamePerson(c.person.value, c.marker.value)
  }

  ghost predicate SoundChallenges(c: Facts) {
    c.listing.Some? && SoundListing(c.details, c.listing.value)
  }

  predicate LedgerServes(c: Facts) {
    c.ledger.Some? && (InstancedPlaces(c.details) != {} ==> c.ledger.value == Installed)
  }

  /** A pass that leaves nothing unsettled, document by document. */
  ghost predicate SoundPass(c: Facts) {
    && c.truncated == {} && SoundIdentity(c) && SoundChallenges(c) && c.negativeControl && c.anonymous.Some?
    && LedgerServes(c) && c.mana.Some? && c.configs.Some?
  }

  // ---------------------------------------------------------------- counting instanced Challenges

  lemma {:induction false} ImageSize(s: set<nat>, f: nat -> nat)
    requires forall x, y :: x in s && y in s && f(x) == f(y) ==> x == y
    ensures |set x | x in s :: f(x)| == |s|
    decreases |s|
  {
    if s != {} {
      var x :| x in s;
      var rest := s - {x};
      ImageSize(rest, f);
      assert (set y | y in s :: f(y)) == (set y | y in rest :: f(y)) + {f(x)};
    }
  }

  function InstancedRows(rows: seq<CD.Row>): set<nat> {
    set i: nat | i < |rows| && rows[i].kind == "dynamic_iac"
  }

  lemma {:induction false} InstancedCounted(rows: seq<CD.Row>)
    ensures CountInstanced(rows) == |InstancedRows(rows)|
  {
    if rows != [] {
      var front, last := rows[..|rows| - 1], rows[|rows| - 1];
      InstancedCounted(front);
      if last.kind == "dynamic_iac" {
        assert InstancedRows(rows) == InstancedRows(front) + {|front|};
      } else {
        assert InstancedRows(rows) == InstancedRows(front);
      }
    }
  }

  function AskedAt(details: seq<CD.Detail>): nat -> nat {
    (i: nat) => if i < |details| then details[i].asked else 0
  }

  function IdAt(rows: seq<CD.Row>): nat -> nat {
    (i: nat) => if i < |rows| then rows[i].id else 0
  }

  lemma DetailPlace(details: seq<CD.Detail>, r: CD.Row) returns (i: nat)
    requires CD.SomeTells(details, r)
    ensures i < |details| && CD.Tells(details[i], r)
  {
    var d :| d in details && CD.Tells(d, r);
    i :| 0 <= i < |details| && details[i] == d;
  }

  lemma RowPlace(details: seq<CD.Detail>, rows: seq<CD.Row>, i: nat) returns (j: nat)
    requires i < |details| && CD.Sound(details[i]) && forall r :: r in rows <==> CD.SomeTells(details, r)
    ensures j < |rows| && CD.Tells(details[i], rows[j])
  {
    var r := CD.RowOf(details[i]);
    CD.TellsExact(details[i], r);
    assert details[i] in details;
    assert CD.SomeTells(details, r);
    assert r in rows;
    j :| 0 <= j < |rows| && rows[j] == r;
  }

  /** The ids of instanced details are those of instanced rows. */
  lemma InstancedIds(details: seq<CD.Detail>, rows: seq<CD.Row>, id: nat)
    requires forall i :: 0 <= i < |details| ==> CD.Sound(details[i])
    requires forall r :: r in rows <==> CD.SomeTells(details, r)
    ensures (exists i :: i in InstancedPlaces(details) && AskedAt(details)(i) == id) <==>
            exists j :: j in InstancedRows(rows) && IdAt(rows)(j) == id
  {
    if i :| i in InstancedPlaces(details) && AskedAt(details)(i) == id {
      var j := RowPlace(details, rows, i);
      assert j in InstancedRows(rows) && IdAt(rows)(j) == id;
    }
    if j :| j in InstancedRows(rows) && IdAt(rows)(j) == id {
      assert rows[j] in rows;
      var i := DetailPlace(details, rows[j]);
      assert i in InstancedPlaces(details) && AskedAt(details)(i) == id;
    }
  }

  /** As many rows as details are of instanced Challenges. */
  lemma InstancedDetails(details: seq<CD.Detail>, listing: seq<CD.Entry>)
    requires CD.DistinctIds(listing) && CD.Corroborate(details, listing).Some?
    ensures CountInstanced(CD.Corroborate(details, listing).value) == |InstancedPlaces(details)|
  {
    var rows := CD.Corroborate(details, listing).value;
    CD.CorroborateExact(details, listing);
    InstancedCounted(rows);
    forall i | 0 <= i < |details| ensures CD.Sound(details[i]) {
      var e := CD.EntryOf(details, listing, details[i]);
    }
    var asked := set i | i in InstancedPlaces(details) :: AskedAt(details)(i);
    var ids := set j | j in InstancedRows(rows) :: IdAt(rows)(j);
    forall id ensures id in asked <==> id in ids {
      InstancedIds(details, rows, id);
    }
    assert asked == ids;
    ImageSize(InstancedPlaces(details), AskedAt(details));
    ImageSize(InstancedRows(rows), IdAt(rows));
  }

  // ---------------------------------------------------------------- what a pass projects to

  /** A listing is looked at exactly as far as it is sound. */
  lemma ListingExact(details: seq<CD.Detail>, listing: seq<CD.Entry>)
    ensures SoundListing(details, listing) <==> ValidListing(listing) && CD.Corroborate(details, listing).Some?
  {
    if CD.DistinctIds(listing) {
      CD.CorroborateExact(details, listing);
    }
  }

  lemma InstancedSome(c: Facts)
    requires SoundChallenges(c)
    ensures CD.Corroborate(c.details, c.listing.value).Some?
    ensures CountInstanced(CD.Corroborate(c.details, c.listing.value).value) == |InstancedPlaces(c.details)|
  {
    ListingExact(c.details, c.listing.value);
    InstancedDetails(c.details, c.listing.value);
  }

  /** A pass settles exactly when it is sound. */
  lemma SettledExact(c: Facts)
    ensures Project(c).Settled? <==> SoundPass(c)
  {
    if c.listing.Some? {
      ListingExact(c.details, c.listing.value);
      if SoundChallenges(c) {
        InstancedSome(c);
      }
    }
  }

  /** The projection holds the pass's own facts, the rows of its details in order of id, and how many are instanced. */
  ghost predicate Holds(p: Projection, c: Facts) {
    && c.person == Some(p.person) && c.marker.Some? && c.marker.value.teams == p.teams
    && c.landingWindow == p.landingWindow && c.configWindow == p.configWindow
    && c.ledger == Some(p.ledger) && c.mana == Some(p.mana) && c.configs == Some(p.configs)
    && c.anonymous == Some(p.anonymous)
    && (forall i, j :: 0 <= i < j < |p.rows| ==> p.rows[i].id < p.rows[j].id)
    && (forall r :: r in p.rows <==> CD.SomeTells(c.details, r))
    && p.instanced == |InstancedPlaces(c.details)|
  }

  lemma SettledHolds(c: Facts)
    requires SoundPass(c)
    ensures Project(c).Settled? && Holds(Project(c).value, c)
  {
    SettledExact(c);
    InstancedSome(c);
    ListingExact(c.details, c.listing.value);
    CD.CorroborateExact(c.details, c.listing.value);
  }

  // ---------------------------------------------------------------- exactly when there is authority

  ghost predicate SameRows(a: Facts, b: Facts) {
    forall r :: CD.SomeTells(a.details, r) <==> CD.SomeTells(b.details, r)
  }

  /** The two passes say different things about this field. */
  ghost predicate FactsDiffer(a: Facts, b: Facts, f: Field)
    requires a.marker.Some? && b.marker.Some?
  {
    match f
    case AuthenticatedIdentity => a.person != b.person || a.marker.value.teams != b.marker.value.teams
    case ReadContract => false
    case InstancedChallenges => !SameRows(a, b)
    case ChallManager => a.ledger != b.ledger
    case Mana => a.mana != b.mana
    case SubmissionsPerMinute => a.configs != b.configs || a.configWindow != b.configWindow
    case ConfigsOutcome => a.configs != b.configs || a.configWindow != b.configWindow
    case BoardWindow =>
      a.landingWindow != b.landingWindow || a.configs != b.configs || a.configWindow != b.configWindow
    case UnauthenticatedRead => a.anonymous != b.anonymous
  }

  lemma RowsAgree(p: Projection, a: Facts, q: Projection, b: Facts)
    requires Holds(p, a) && Holds(q, b)
    ensures p.rows == q.rows <==> SameRows(a, b)
  {
    if SameRows(a, b) {
      forall r ensures r in p.rows <==> r in q.rows {
        assert r in p.rows <==> CD.SomeTells(a.details, r);
        assert r in q.rows <==> CD.SomeTells(b.details, r);
      }
      StrictUnique(CD.RowId, p.rows, q.rows);
    }
    if p.rows == q.rows {
      forall r ensures CD.SomeTells(a.details, r) <==> CD.SomeTells(b.details, r) {
        assert r in p.rows <==> CD.SomeTells(a.details, r);
        assert r in q.rows <==> CD.SomeTells(b.details, r);
      }
    }
  }

  /** The projection counts the instanced rows it holds. */
  ghost predicate Mirrors(p: Projection, c: Facts) {
    Holds(p, c) && p.instanced == CountInstanced(p.rows)
  }

  lemma SettledMirrors(c: Facts)
    requires SoundPass(c)
    ensures Project(c).Settled? && Mirrors(Project(c).value, c)
  {
    SettledHolds(c);
  }

  /** Two projections are the same exactly when their passes differ in no field. */
  lemma ProjectionsAgree(p: Projection, a: Facts, q: Projection, b: Facts)
    requires Mirrors(p, a) && Mirrors(q, b)
    ensures p == q <==> forall f :: !FactsDiffer(a, b, f)
  {
    RowsAgree(p, a, q, b);
    if forall f :: !FactsDiffer(a, b, f) {
      assert !FactsDiffer(a, b, AuthenticatedIdentity) && !FactsDiffer(a, b, InstancedChallenges)
             && !FactsDiffer(a, b, ChallManager) && !FactsDiffer(a, b, Mana) && !FactsDiffer(a, b, ConfigsOutcome)
             && !FactsDiffer(a, b, BoardWindow) && !FactsDiffer(a, b, UnauthenticatedRead);
    }
  }

  /** No window was seen in part, and two published ones are the same. */
  predicate WindowsAgree(landing: Window, configs: Window) {
    && landing.outcome != Partial && configs.outcome != Partial
    && (landing.outcome == Published && configs.outcome == Published ==> landing.value == configs.value)
  }

  /**
    There is authority exactly when the probe is of a supported kind with two passes, every wrapper
    compiles, both passes are sound and differ in no field, and their windows agree.  The profile
    then holds what both passes said.
   */
  lemma AuthorityExact(probe: Probe, wrappersCompile: bool)
    ensures Qualify(probe, wrappersCompile).Authoritative? <==>
              && probe.supported && |probe.cycles| == 2 && wrappersCompile
              && SoundPass(probe.cycles[0]) && SoundPass(probe.cycles[1])
              && (forall f :: !FactsDiffer(probe.cycles[0], probe.cycles[1], f))
              && WindowsAgree(probe.cycles[0].landingWindow, probe.cycles[0].configWindow)
    ensures Qualify(probe, wrappersCompile).Authoritative? ==>
              && Holds(Qualify(probe, wrappersCompile).profile, probe.cycles[0])
              && Holds(Qualify(probe, wrappersCompile).profile, probe.cycles[1])
  {
    if |probe.cycles| == 2 {
      var a, b := probe.cycles[0], probe.cycles[1];
      SettledExact(a);
      SettledExact(b);
      if SoundPass(a) && SoundPass(b) {
        SettledMirrors(a);
        SettledMirrors(b);
        ProjectionsAgree(Project(a).value, a, Project(b).value, b);
      }
    }
  }

  // ---------------------------------------------------------------- which fields a refusal names

  /** The field is among those a cut document leaves unsettled. */
  predicate CutLeaves(pages: set<Page>, f: Field) {
    || Landing in pages
    || (Identity in pages && f != UnauthenticatedRead)
    || match f
       case AuthenticatedIdentity => false
       case ReadContract => ReadControl in pages
       case InstancedChallenges => Challenges in pages || Details in pages
       case ChallManager => Ledger in pages
       case Mana => ManaPage in pages
       case SubmissionsPerMinute => Configs in pages
       case ConfigsOutcome => Configs in pages
       case BoardWindow => Configs in pages
       case UnauthenticatedRead => Anonymous in pages
  }

  lemma CutExact(pages: set<Page>, f: Field)
    ensures f in Truncated(pages) <==> CutLeaves(pages, f)
  {
    forall p ensures p in pages && f in PageFields(p) ==> CutLeaves(pages, f) {}
    if CutLeaves(pages, f) {
      var p := if Landing in pages then Landing
               else if Identity in pages && f != UnauthenticatedRead then Identity
               else match f
                    case AuthenticatedIdentity => Landing
                    case ReadContract => ReadControl
                    case InstancedChallenges => if Challenges in pages then Challenges else Details
                    case ChallManager => Ledger
                    case Mana => ManaPage
                    case SubmissionsPerMinute => Configs
                    case ConfigsOutcome => Configs
                    case BoardWindow => Configs
                    case UnauthenticatedRead => Anonymous;
      assert p in pages && f in PageFields(p);
    }
  }

  /** What the first failing check of a pass leaves unsettled. */
  ghost predicate PassLeaves(c: Facts, f: Field) {
    if c.truncated != {} then CutLeaves(c.truncated, f)
    else if !c.landingReadable then true
    else if !SoundIdentity(c) then f != UnauthenticatedRead
    else if !SoundChallenges(c) then f == InstancedChallenges
    else if !c.negativeControl then f == ReadContract
    else if c.anonymous.None? then f == UnauthenticatedRead
    else if c.ledger.None? then f == ChallManager
    else if !LedgerServes(c) then f == InstancedChallenges || f == ChallManager
    else if c.mana.None? then f == Mana
    else c.configs.None? && (f == SubmissionsPerMinute || f == ConfigsOutcome || f == BoardWindow)
  }

  lemma UnlistedLeaves(c: Facts, f: Field)
    requires c.truncated == {} && SoundIdentity(c) && !SoundChallenges(c)
    ensures Project(c).Unsettled? && (f in Project(c).fields <==> f == InstancedChallenges)
  {
    if c.listing.Some? {
      ListingExact(c.details, c.listing.value);
    }
  }

  /** The checks from the absence control on, once identity and listing are settled. */
  lemma RestLeaves(c: Facts, rows: seq<CD.Row>, f: Field)
    requires c.person.Some? && c.marker.Some? && CountInstanced(rows) == |InstancedPlaces(c.details)|
    requires ProjectListed(c, rows).Unsettled? && c.truncated == {} && SoundIdentity(c) && SoundChallenges(c)
    ensures f in ProjectListed(c, rows).fields <==> PassLeaves(c, f)
  {}

  lemma ListedLeaves(c: Facts, f: Field)
    requires c.truncated == {} && SoundIdentity(c) && SoundChallenges(c) && !SoundPass(c)
    ensures Project(c).Unsettled? && (f in Project(c).fields <==> PassLeaves(c, f))
  {
    ListingExact(c.details, c.listing.value);
    InstancedSome(c);
    var rows := CD.Corroborate(c.details, c.listing.value).value;
    assert Project(c) == ProjectListed(c, rows);
    SettledExact(c);
    RestLeaves(c, rows, f);
  }

  lemma PassLeavesExact(c: Facts, f: Field)
    requires !SoundPass(c)
    ensures Project(c).Unsettled? && (f in Project(c).fields <==> PassLeaves(c, f))
  {
    if c.truncated != {} {
      CutExact(c.truncated, f);
    } else if SoundIdentity(c) {
      if SoundChallenges(c) {
        ListedLeaves(c, f);
      } else {
        UnlistedLeaves(c, f);
      }
    }
  }

  /** What the probe leaves unsettled: everything, what the first unsound pass does, what changed, or the window. */
  ghost predicate ProbeLeaves(probe: Probe, wrappersCompile: bool, f: Field) {
    if !probe.supported || |probe.cycles| != 2 || !wrappersCompile then true
    else if !SoundPass(probe.cycles[0]) then PassLeaves(probe.cycles[0], f)
    else if !SoundPass(probe.cycles[1]) then PassLeaves(probe.cycles[1], f)
    else if exists g :: FactsDiffer(probe.cycles[0], probe.cycles[1], g) then
      FactsDiffer(probe.cycles[0], probe.cycles[1], f)
    else !WindowsAgree(probe.cycles[0].landingWindow, probe.cycles[0].configWindow) && f == BoardWindow
  }

  lemma ChangedExact(a: Projection, b: Projection, f: Field)
    ensures f in ChangedFields(Changed(a, b)) <==> exists p :: Differs(a, b, p) && f in PartFields(p)
  {
    if p :| Differs(a, b, p) && f in PartFields(p) {
      assert p in ALL_PARTS;
      assert p in Changed(a, b);
    }
  }

  /** The fields named for two projections are those their passes differ in. */
  lemma DisagreementNamesFields(p: Projection, a: Facts, q: Projection, b: Facts, f: Field)
    requires Mirrors(p, a) && Mirrors(q, b)
    ensures f in ChangedFields(Changed(p, q)) <==> FactsDiffer(a, b, f)
  {
    ChangedExact(p, q, f);
    RowsAgree(p, a, q, b);
    if FactsDiffer(a, b, f) {
      var part := match f
        case AuthenticatedIdentity => PersonPart
        case ReadContract => PersonPart
        case InstancedChallenges => RowsPart
        case ChallManager => LedgerPart
        case Mana => ManaPart
        case SubmissionsPerMinute => ConfigsPart
        case ConfigsOutcome => ConfigsPart
        case BoardWindow => if a.landingWindow != b.landingWindow then LandingWindowPart else ConfigsPart
        case UnauthenticatedRead => AnonymousPart;
      assert Differs(p, q, part) && f in PartFields(part);
    }
  }

  lemma FieldLeft(probe: Probe, wrappersCompile: bool, f: Field)
    requires Qualify(probe, wrappersCompile).Refused?
    ensures f in Qualify(probe, wrappersCompile).fields <==> ProbeLeaves(probe, wrappersCompile, f)
  {
    forall unsettled: set<Field> ensures f in Ordered(unsettled) <==> f in unsettled {
      OrderedExact(unsettled);
    }
    if probe.supported && |probe.cycles| == 2 && wrappersCompile {
      var a, b := probe.cycles[0], probe.cycles[1];
      SettledExact(a);
      SettledExact(b);
      if !SoundPass(a) {
        PassLeavesExact(a, f);
      } else if !SoundPass(b) {
        PassLeavesExact(b, f);
      } else {
        SettledMirrors(a);
        SettledMirrors(b);
        ProjectionsAgree(Project(a).value, a, Project(b).value, b);
        DisagreementNamesFields(Project(a).value, a, Project(b).value, b, f);
      }
    } else {
      assert f in EVERYTHING;
    }
  }

  lemma PassLeavesSome(c: Facts) returns (f: Field)
    requires !SoundPass(c)
    ensures PassLeaves(c, f)
  {
    if c.truncated != {} {
      var p :| p in c.truncated;
      f := match p
        case Identity => ReadContract
        case Landing => ReadContract
        case ReadControl => ReadContract
        case Challenges => InstancedChallenges
        case Ledger => ChallManager
        case ManaPage => Mana
        case Configs => ConfigsOutcome
        case Anonymous => UnauthenticatedRead
        case Details => InstancedChallenges;
    } else {
      f := if !SoundIdentity(c) then ReadContract
           else if !SoundChallenges(c) then InstancedChallenges
           else if !c.negativeControl then ReadContract
           else if c.anonymous.None? then UnauthenticatedRead
           else if !LedgerServes(c) then ChallManager
           else if c.mana.None? then Mana
           else ConfigsOutcome;
    }
  }

  lemma SomethingLeft(probe: Probe, wrappersCompile: bool) returns (f: Field)
    requires Qualify(probe, wrappersCompile).Refused?
    ensures ProbeLeaves(probe, wrappersCompile, f)
  {
    AuthorityExact(probe, wrappersCompile);
    if !probe.supported || |probe.cycles| != 2 || !wrappersCompile {
      f := ReadContract;
    } else if !SoundPass(probe.cycles[0]) {
      f := PassLeavesSome(probe.cycles[0]);
    } else if !SoundPass(probe.cycles[1]) {
      f := PassLeavesSome(probe.cycles[1]);
    } else if g :| FactsDiffer(probe.cycles[0], probe.cycles[1], g) {
      f := g;
    } else {
      f := BoardWindow;
    }
  }

  lemma InOrder(probe: Probe, wrappersCompile: bool)
    ensures var d := Qualify(probe, wrappersCompile); d.Refused? ==> Declared(d.fields)
  {
    forall unsettled: set<Field> ensures Declared(Ordered(unsettled)) {
      OrderedExact(unsettled);
    }
  }

  /**
    A refusal names exactly the fields that are left unsettled, each once and in declared order, and
    there is always one.
   */
  lemma RefusalExact(probe: Probe, wrappersCompile: bool)
    requires Qualify(probe, wrappersCompile).Refused?
    ensures var fields := Qualify(probe, wrappersCompile).fields;
            && Declared(fields) && fields != []
            && forall f :: f in fields <==> ProbeLeaves(probe, wrappersCompile, f)
  {
    var fields := Qualify(probe, wrappersCompile).fields;
    InOrder(probe, wrappersCompile);
    forall f ensures f in fields <==> ProbeLeaves(probe, wrappersCompile, f) {
      FieldLeft(probe, wrappersCompile, f);
    }
    var f := SomethingLeft(probe, wrappersCompile);
    assert f in fields;
  }
}
