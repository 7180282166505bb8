/**
  Qualifying a two-pass probe: each pass is projected to the facts that matter, the projections must
  agree, and every refusal names the profile fields it leaves unsettled.

  What one document says on its own (whether the landing page is readable, what the identity holds,
  what the ledger, Mana or configs contract amounts to) is given; which of these are looked at, in
  what order, and which fields each failure leaves unsettled is modelled.
 */
module ProfileQualify {
  import opened Prelude
  import CD = ChallengeDetails

  /** The profile fields, in declared order. */
  datatype Field =
    | AuthenticatedIdentity | ReadContract | InstancedChallenges | ChallManager | Mana | SubmissionsPerMinute
    | ConfigsOutcome | BoardWindow | UnauthenticatedRead

  const ALL_FIELDS: seq<Field> :=
    [AuthenticatedIdentity, ReadContract, InstancedChallenges, ChallManager, Mana, SubmissionsPerMinute, ConfigsOutcome,
     BoardWindow, UnauthenticatedRead]

  const EVERYTHING: set<Field> := {AuthenticatedIdentity, ReadContract, InstancedChallenges, ChallManager, Mana,
                                   SubmissionsPerMinute, ConfigsOutcome, BoardWindow, UnauthenticatedRead}

  const AUTHENTICATED: set<Field> := EVERYTHING - {UnauthenticatedRead}

  function Rank(f: Field): (i: nat)
    ensures i < |ALL_FIELDS| && ALL_FIELDS[i] == f
  {
    match f
    case AuthenticatedIdentity => 0 case ReadContract => 1 case InstancedChallenges => 2 case ChallManager => 3
    case Mana => 4 case SubmissionsPerMinute => 5 case ConfigsOutcome => 6 case BoardWindow => 7
    case UnauthenticatedRead => 8
  }

  /** The fields of the set among the first `n`, in declared order. */
  function OrderedUpTo(fields: set<Field>, n: nat): seq<Field>
    requires n <= |ALL_FIELDS|
  {
    if n == 0 then []
    else OrderedUpTo(fields, n - 1) + if ALL_FIELDS[n - 1] in fields then [ALL_FIELDS[n - 1]] else []
  }

  function Ordered(fields: set<Field>): seq<Field> {
    OrderedUpTo(fields, |ALL_FIELDS|)
  }

  /** Strictly in declared order: no field twice. */
  predicate Declared(fields: seq<Field>) {
    forall i, j :: 0 <= i < j < |fields| ==> Rank(fields[i]) < Rank(fields[j])
  }

  lemma {:induction false} OrderedFacts(fields: set<Field>, n: nat)
    requires n <= |ALL_FIELDS|
    ensures Declared(OrderedUpTo(fields, n))
    ensures forall f :: f in OrderedUpTo(fields, n) <==> f in fields && Rank(f) < n
  {
    if n > 0 {
      OrderedFacts(fields, n - 1);
      var before := OrderedUpTo(fields, n - 1);
      assert Rank(ALL_FIELDS[n - 1]) == n - 1;
      forall f ensures f in OrderedUpTo(fields, n) <==> f in fields && Rank(f) < n {
        assert Rank(f) == n - 1 ==> f == ALL_FIELDS[n - 1];
      }
      forall i | 0 <= i < |before| ensures Rank(before[i]) < n - 1 {
        assert before[i] in before;
      }
    }
  }

  /** Ordering keeps exactly the given fields, each once, in declared order. */
  lemma OrderedExact(fields: set<Field>)
    ensures Declared(Ordered(fields)) && forall f :: f in Ordered(fields) <==> f in fields
  {
    OrderedFacts(fields, |ALL_FIELDS|);
  }

  // ---------------------------------------------------------------- one pass

  /** The documents of a pass, details taken together. */
  datatype Page = Identity | Landing | ReadControl | Challenges | Ledger | ManaPage | Configs | Anonymous | Details

  function PageFields(p: Page): set<Field> {
    match p
    case Identity => AUTHENTICATED
    case Landing => EVERYTHING
    case ReadControl => {ReadContract}
    case Challenges => {InstancedChallenges}
    case Ledger => {ChallManager}
    case ManaPage => {Mana}
    case Configs => {SubmissionsPerMinute, ConfigsOutcome, BoardWindow}
    case Anonymous => {UnauthenticatedRead}
    case Details => {InstancedChallenges}
  }

  datatype Person = Person(id: nat, team: Option<nat>)

  /** The page's own marker: who it was rendered for. */
  datatype Marker = Marker(userId: nat, teams: bool, teamId: Option<nat>)

  datatype Manager = Installed | Gone | Unreadable

  datatype Window = Window(outcome: WindowOutcome, value: string)

  datatype WindowOutcome = Published | NotPublished | Partial | Elsewhere

  /** What the documents of one pass say, each on its own; nothing where a document is unreadable or malformed. */
  datatype Facts = Facts(truncated: set<Page>, landingReadable: bool, person: Option<Person>, marker: Option<Marker>,
                         listing: Option<seq<CD.Entry>>, details: seq<CD.Detail>, negativeControl: bool,
                         anonymous: Option<string>, ledger: Option<Manager>, mana: Option<string>,
                         configs: Option<string>, landingWindow: Window, configWindow: Window)

  /** The facts of one pass that both passes have to agree on. */
  datatype Projection = Projection(person: Person, teams: bool, landingWindow: Window, rows: seq<CD.Row>,
                                   instanced: nat, ledger: Manager, mana: string, configs: string,
                                   configWindow: Window, anonymous: string)

  /** A refusal and the fields it leaves unsettled. */
  datatype Outcome<T> = Settled(value: T) | Unsettled(fields: set<Field>)

  function Truncated(pages: set<Page>): set<Field> {
    set p, f | p in pages && f in PageFields(p) :: f
  }

  function CountInstanced(rows: seq<CD.Row>): nat {
    if rows == [] then 0
    else CountInstanced(rows[..|rows| - 1]) + if rows[|rows| - 1].kind == "dynamic_iac" then 1 else 0
  }

  predicate ValidListing(listing: seq<CD.Entry>) {
    CD.DistinctIds(listing) && forall i :: 0 <= i < |listing| ==> listing[i].id > 0
  }

  /** The checks after the Challenge listing has been corroborated. */
  function ProjectListed(c: Facts, rows: seq<CD.Row>): Outcome<Projection>
    requires c.person.Some? && c.marker.Some?
  {
    if !c.negativeControl then Unsettled({ReadContract})
    else if c.anonymous.None? then Unsettled({UnauthenticatedRead})
    else if c.ledger.None? then Unsettled({ChallManager})
    else if CountInstanced(rows) > 0 && c.ledger.value != Installed then
      Unsettled({InstancedChallenges, ChallManager})
    else if c.mana.None? then Unsettled({Mana})
    else if c.configs.None? then Unsettled({SubmissionsPerMinute, ConfigsOutcome, BoardWindow})
    else
      Settled(Projection(c.person.value, c.marker.value.teams, c.landingWindow, rows, CountInstanced(rows),
                         c.ledger.value, c.mana.value, c.configs.value, c.configWindow, c.anonymous.value))
  }

  /** The checks on a complete pass, in the order they are made. */
  function ProjectComplete(c: Facts): Outcome<Projection> {
    if !c.landingReadable then Unsettled(EVERYTHING)
    else if c.person.None? || c.person.value.id == 0 then Unsettled(AUTHENTICATED)
    else if c.marker.None? || c.marker.value.userId != c.person.value.id then Unsettled(AUTHENTICATED)
    else if c.marker.value.teams
      && (c.marker.value.teamId in {None, Some(0)} || c.marker.value.teamId != c.person.value.team) then
      Unsettled(AUTHENTICATED)
    else if c.listing.None? || !ValidListing(c.listing.value) then Unsettled({InstancedChallenges})
    else
      match CD.Corroborate(c.details, c.listing.value)
      case None => Unsettled({InstancedChallenges})
      case Some(rows) => ProjectListed(c, rows)
  }

  function Project(c: Facts): Outcome<Projection> {
    if c.truncated != {} then Unsettled(Truncated(c.truncated)) else ProjectComplete(c)
  }

  // ---------------------------------------------------------------- comparing the passes

  datatype Part = PersonPart | LandingWindowPart | RowsPart | InstancedPart | LedgerPart | ManaPart | ConfigsPart
    | AnonymousPart

  const ALL_PARTS: set<Part> :=
    {PersonPart, LandingWindowPart, RowsPart, InstancedPart, LedgerPart, ManaPart, ConfigsPart, AnonymousPart}

  function PartFields(p: Part): set<Field> {
    match p
    case PersonPart => {AuthenticatedIdentity}
    case LandingWindowPart => {BoardWindow}
    case RowsPart => {InstancedChallenges}
    case InstancedPart => {InstancedChallenges}
    case LedgerPart => {ChallManager}
    case ManaPart => {Mana}
    case ConfigsPart => {SubmissionsPerMinute, ConfigsOutcome, BoardWindow}
    case AnonymousPart => {UnauthenticatedRead}
  }

  predicate Differs(a: Projection, b: Projection, p: Part) {
    match p
    case PersonPart => a.person != b.person || a.teams != b.teams
    case LandingWindowPart => a.landingWindow != b.landingWindow
    case RowsPart => a.rows != b.rows
    case InstancedPart => a.instanced != b.instanced
    case LedgerPart => a.ledger != b.ledger
    case ManaPart => a.mana != b.mana
    case ConfigsPart => a.configs != b.configs || a.configWindow != b.configWindow
    case AnonymousPart => a.anonymous != b.anonymous
  }

  function Changed(a: Projection, b: Projection): set<Part> {
    set p | p in ALL_PARTS && Differs(a, b, p)
  }

  function ChangedFields(parts: set<Part>): set<Field> {
    set p, f | p in parts && f in PartFields(p) :: f
  }

  // ---------------------------------------------------------------- the decision

  datatype Decision = Authoritative(profile: Projection) | Refused(fields: seq<Field>)

  datatype Probe = Probe(supported: bool, cycles: seq<Facts>)

  function Refuse(fields: set<Field>): Decision {
    Refused(Ordered(fields))
  }

  function Qualify(probe: Probe, wrappersCompile: bool): Decision {
    if !probe.supported || |probe.cycles| != 2 || !wrappersCompile then Refuse(EVERYTHING)
    else
      match Project(probe.cycles[0])
      case Unsettled(fields) => Refuse(fields)
      case Settled(a) =>
        match Project(probe.cycles[1])
        case Unsettled(fields) => Refuse(fields)
        case Settled(b) =>
          if a != b then Refuse(ChangedFields(Changed(a, b)))
          else if a.landingWindow.outcome == Partial || a.configWindow.outcome == Partial then Refuse({BoardWindow})
          else if a.landingWindow.outcome == Published && a.configWindow.outcome == Published
                  && a.landingWindow.value != a.configWindow.value then Refuse({BoardWindow})
          else Authoritative(a)
  }
}
