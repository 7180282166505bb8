/**
  The ledger table's tag-driven state machine, for cell texts of any kind.

  A heading is decided by the tag that opened its cell, and a cell left open is closed by the next
  one.  What a cell's chunks of text amount to is a parameter.
 */
module TableMachine {
  import opened Prelude

  datatype Tag = Table | Thead | Tr | Td | Th | OtherTag

  datatype Token<X> = Start(tag: Tag) | Data(text: X) | End(tag: Tag)

  datatype State<X> = State(headings: seq<X>, rows: seq<seq<X>>, cell: Option<seq<X>>, row: Option<seq<X>>,
                            cellIsHeading: bool, insideHead: bool, tableClosed: bool)

  function Fresh<X>(): State<X> {
    State([], [], None, None, false, false, false)
  }

  // ---------------------------------------------------------------- one token

  function FinishCell<X>(trim: seq<X> -> X, s: State<X>): State<X> {
    var text := trim(if s.cell.Some? then s.cell.value else []);
    if s.cellIsHeading then s.(headings := s.headings + [text], cell := None)
    else if s.row.Some? then s.(row := Some(s.row.value + [text]), cell := None)
    else s.(cell := None)
  }

  /** A cell left open is finished. */
  function Settle<X>(trim: seq<X> -> X, s: State<X>): State<X> {
    if s.cell.Some? then FinishCell(trim, s) else s
  }

  function Step<X>(trim: seq<X> -> X, s: State<X>, t: Token<X>): State<X> {
    match t
    case Start(Thead) => s.(insideHead := true)
    case Start(Table) => s.(tableClosed := false)
    case Start(Tr) => s.(row := Some([]))
    case Start(Td) => Settle(trim, s).(cell := Some([]), cellIsHeading := s.insideHead)
    case Start(Th) => Settle(trim, s).(cell := Some([]), cellIsHeading := true)
    case Start(OtherTag) => s
    case Data(text) => if s.cell.Some? then s.(cell := Some(s.cell.value + [text])) else s
    case End(Thead) => s.(insideHead := false)
    case End(Table) => s.(tableClosed := true)
    case End(Td) => Settle(trim, s)
    case End(Th) => Settle(trim, s)
    case End(Tr) =>
      s.(rows := if s.row.Some? && s.row.value != [] then s.rows + [s.row.value] else s.rows, row := None)
    case End(OtherTag) => s
  }

  function Feed<X>(trim: seq<X> -> X, s: State<X>, tokens: seq<Token<X>>): State<X>
    decreases |tokens|
  {
    if tokens == [] then s else Feed(trim, Step(trim, s, tokens[0]), tokens[1..])
  }

  // ---------------------------------------------------------------- cells are neither made up nor counted twice

  predicate OpensCell<X>(t: Token<X>) {
    t.Start? && t.tag in {Td, Th}
  }

  /** How many cells a stream opens. */
  function Openers<X>(tokens: seq<Token<X>>): nat
    decreases |tokens|
  {
    if tokens == [] then 0 else (if OpensCell(tokens[0]) then 1 else 0) + Openers(tokens[1..])
  }

  function TotalWidth<X>(rows: seq<seq<X>>): nat {
    if rows == [] then 0 else TotalWidth(rows[..|rows| - 1]) + |rows[|rows| - 1]|
  }

  /** How many cells a state accounts for: headings, kept rows, the row in progress and the open cell. */
  function Held<X>(s: State<X>): nat {
    |s.headings| + TotalWidth(s.rows) + (if s.row.Some? then |s.row.value| else 0) + (if s.cell.Some? then 1 else 0)
  }

  lemma TotalMore<X>(rows: seq<seq<X>>, row: seq<X>)
    ensures TotalWidth(rows + [row]) == TotalWidth(rows) + |row|
  {
    assert (rows + [row])[..|rows|] == rows;
  }

  /** A finished cell leaves room for another. */
  lemma SettleHolds<X>(trim: seq<X> -> X, s: State<X>)
    ensures Settle(trim, s).cell.None? && Held(Settle(trim, s)) <= Held(s)
  {}

  lemma EndRowHolds<X>(trim: seq<X> -> X, s: State<X>)
    ensures Held(Step(trim, s, End(Tr))) <= Held(s)
  {
    if s.row.Some? {
      TotalMore(s.rows, s.row.value);
    }
  }

  lemma StepHolds<X>(trim: seq<X> -> X, s: State<X>, t: Token<X>)
    ensures Held(Step(trim, s, t)) <= Held(s) + if OpensCell(t) then 1 else 0
  {
    match t
    case Start(tag) => StartHolds(trim, s, tag);
    case Data(_) =>
    case End(tag) => EndHolds(trim, s, tag);
  }

  lemma StartHolds<X>(trim: seq<X> -> X, s: State<X>, tag: Tag)
    ensures Held(Step(trim, s, Start(tag))) <= Held(s) + if tag in {Td, Th} then 1 else 0
  {
    SettleHolds(trim, s);
  }

  lemma EndHolds<X>(trim: seq<X> -> X, s: State<X>, tag: Tag)
    ensures Held(Step(trim, s, End(tag))) <= Held(s)
  {
    if tag == Tr {
      EndRowHolds(trim, s);
    } else {
      SettleHolds(trim, s);
    }
  }

  /** Reading any stream accounts for no more cells than the stream opens. */
  lemma {:induction false} FeedHolds<X>(trim: seq<X> -> X, s: State<X>, tokens: seq<Token<X>>)
    ensures Held(Feed(trim, s, tokens)) <= Held(s) + Openers(tokens)
    decreases |tokens|
  {
    if tokens != [] {
      StepHolds(trim, s, tokens[0]);
      FeedHolds(trim, Step(trim, s, tokens[0]), tokens[1..]);
    }
  }

  lemma {:induction false} EvenWidth<X>(rows: seq<seq<X>>, width: nat)
    requires forall i :: 0 <= i < |rows| ==> |rows[i]| == width
    ensures TotalWidth(rows) == |rows| * width
  {
    if rows != [] {
      EvenWidth(rows[..|rows| - 1], width);
      assert |rows| * width == (|rows| - 1) * width + width;
    }
  }

  // ---------------------------------------------------------------- printed tables

  /** Something inside a cell or between rows: text, or markup the reader ignores. */
  datatype Inner<X> = Text(text: X) | Markup(opens: bool)

  /** A cell as printed: its content and the tag that closes it, if one does. */
  datatype Cell<X> = Cell(inner: seq<Inner<X>>, close: Option<Tag>)

  datatype Row<X> = Row(gap: seq<Inner<X>>, cells: seq<Cell<X>>)

  /**
    A table as printed: whether its headings sit in a head section, the headings, and the rows, each
    preceded by something that belongs to no cell.
   */
  datatype Print<X> = Print(head: bool, headings: seq<Cell<X>>, rows: seq<Row<X>>)

  function InnerToken<X>(x: Inner<X>): Token<X> {
    match x case Text(text) => Data(text) case Markup(opens) => if opens then Start(OtherTag) else End(OtherTag)
  }

  function InnerTokens<X>(inner: seq<Inner<X>>): seq<Token<X>> {
    if inner == [] then [] else [InnerToken(inner[0])] + InnerTokens(inner[1..])
  }

  function Texts<X>(inner: seq<Inner<X>>): seq<X> {
    if inner == [] then [] else (if inner[0].Text? then [inner[0].text] else []) + Texts(inner[1..])
  }

  /** What the reader should find in the cells. */
  function CellTexts<X>(trim: seq<X> -> X, cells: seq<Cell<X>>): (r: seq<X>)
    ensures |r| == |cells| && forall i :: 0 <= i < |r| ==> r[i] == trim(Texts(cells[i].inner))
  {
    seq(|cells|, i requires 0 <= i < |cells| => trim(Texts(cells[i].inner)))
  }

  function PrintCell<X>(opener: Tag, c: Cell<X>): seq<Token<X>> {
    [Start(opener)] + InnerTokens(c.inner) + if c.close.Some? then [End(c.close.value)] else []
  }

  function PrintCells<X>(opener: Tag, cells: seq<Cell<X>>): seq<Token<X>> {
    if cells == [] then [] else PrintCell(opener, cells[0]) + PrintCells(opener, cells[1..])
  }

  function PrintRow<X>(r: Row<X>): seq<Token<X>> {
    InnerTokens(r.gap) + [Start(Tr)] + PrintCells(Td, r.cells) + [End(Tr)]
  }

  function PrintRows<X>(rows: seq<Row<X>>): seq<Token<X>> {
    if rows == [] then [] else PrintRow(rows[0]) + PrintRows(rows[1..])
  }

  function PrintOpening<X>(p: Print<X>): seq<Token<X>> {
    if p.head then [Start(Table), Start(Thead)] else [Start(Table)]
  }

  function PrintHeadings<X>(headings: seq<Cell<X>>): seq<Token<X>> {
    [Start(Tr)] + PrintCells(Th, headings) + [End(Tr)]
  }

  function PrintTable<X>(p: Print<X>): seq<Token<X>> {
    PrintOpening(p) + PrintHeadings(p.headings) + (if p.head then [End(Thead)] else []) + PrintRows(p.rows)
      + [End(Table)]
  }

  /** Cells close as either cell tag; any but the last may stay open. */
  predicate WellClosed<X>(cells: seq<Cell<X>>) {
    && (forall i :: 0 <= i < |cells| && cells[i].close.Some? ==> cells[i].close.value in {Td, Th})
    && (cells != [] ==> cells[|cells| - 1].close.Some?)
  }

  predicate WellPrinted<X>(p: Print<X>) {
    && p.headings != [] && WellClosed(p.headings)
    && forall i :: 0 <= i < |p.rows| ==> |p.rows[i].cells| == |p.headings| && WellClosed(p.rows[i].cells)
  }

  // ---------------------------------------------------------------- feeding what was printed

  lemma {:induction false} FeedConcat<X>(trim: seq<X> -> X, s: State<X>, a: seq<Token<X>>, b: seq<Token<X>>)
    ensures Feed(trim, s, a + b) == Feed(trim, Feed(trim, s, a), b)
    decreases |a|
  {
    if a == [] {
      assert a + b == b;
    } else {
      assert (a + b)[1..] == a[1..] + b;
      FeedConcat(trim, Step(trim, s, a[0]), a[1..], b);
    }
  }

  lemma FeedOne<X>(trim: seq<X> -> X, s: State<X>, t: Token<X>)
    ensures Feed(trim, s, [t]) == Step(trim, s, t)
  {
    assert [t][1..] == [];
  }

  lemma Assoc<T>(a: seq<T>, b: seq<T>, c: seq<T>)
    ensures a + b + c == a + (b + c)
  {}

  function WithCell<X>(s: State<X>, texts: seq<X>): State<X> {
    if s.cell.Some? then s.(cell := Some(s.cell.value + texts)) else s
  }

  lemma WithCellTwice<X>(s: State<X>, a: seq<X>, b: seq<X>)
    ensures WithCell(WithCell(s, a), b) == WithCell(s, a + b)
    ensures WithCell(s, []) == s
  {
    if s.cell.Some? {
      Assoc(s.cell.value, a, b);
      assert s.cell.value + [] == s.cell.value;
    }
  }

  // ---------------------------------------------------------------- what a stream leaves open

  /** Something was opened and not closed since. */
  ghost predicate Pending<X(!new)>(tokens: seq<Token<X>>, opens: Token<X> -> bool, closes: Token<X> -> bool) {
    exists k :: 0 <= k < |tokens| && opens(tokens[k]) && forall j :: k < j < |tokens| ==> !closes(tokens[j])
  }

  lemma PendingMore<X(!new)>(tokens: seq<Token<X>>, t: Token<X>, opens: Token<X> -> bool, closes: Token<X> -> bool)
    ensures Pending(tokens + [t], opens, closes) <==> opens(t) || (Pending(tokens, opens, closes) && !closes(t))
  {
    var more := tokens + [t];
    if opens(t) {
      assert opens(more[|tokens|]);
    }
    if Pending(tokens, opens, closes) && !closes(t) {
      var k :| 0 <= k < |tokens| && opens(tokens[k]) && forall j :: k < j < |tokens| ==> !closes(tokens[j]);
      assert opens(more[k]);
    }
    if Pending(more, opens, closes) && !opens(t) {
      var k :| 0 <= k < |more| && opens(more[k]) && forall j :: k < j < |more| ==> !closes(more[j]);
      assert opens(tokens[k]) && !closes(more[|tokens|]);
      forall j | k < j < |tokens| ensures !closes(tokens[j]) {
        assert !closes(more[j]);
      }
    }
  }

  predicate EndsCell<X>(t: Token<X>) {
    t.End? && t.tag in {Td, Th}
  }

  predicate Starts<X>(t: Token<X>, tag: Tag) {
    t.Start? && t.tag == tag
  }

  predicate Ends<X>(t: Token<X>, tag: Tag) {
    t.End? && t.tag == tag
  }

  ghost predicate CellOpen<X(!new)>(tokens: seq<Token<X>>) {
    Pending(tokens, t => OpensCell(t), t => EndsCell(t))
  }

  ghost predicate RowOpen<X(!new)>(tokens: seq<Token<X>>) {
    Pending(tokens, t => Starts(t, Tr), t => Ends(t, Tr))
  }

  /** The last table was closed. */
  ghost predicate TableEnded<X(!new)>(tokens: seq<Token<X>>) {
    Pending(tokens, t => Ends(t, Table), t => Starts(t, Table))
  }

  lemma StepOpens<X>(trim: seq<X> -> X, s: State<X>, t: Token<X>)
    ensures Step(trim, s, t).cell.Some? <==> OpensCell(t) || (s.cell.Some? && !EndsCell(t))
    ensures Step(trim, s, t).row.Some? <==> Starts(t, Tr) || (s.row.Some? && !Ends(t, Tr))
    ensures Step(trim, s, t).tableClosed <==> Ends(t, Table) || (s.tableClosed && !Starts(t, Table))
  {}

  lemma OpenMore<X(!new)>(tokens: seq<Token<X>>, t: Token<X>)
    ensures CellOpen(tokens + [t]) <==> OpensCell(t) || (CellOpen(tokens) && !EndsCell(t))
    ensures RowOpen(tokens + [t]) <==> Starts(t, Tr) || (RowOpen(tokens) && !Ends(t, Tr))
    ensures TableEnded(tokens + [t]) <==> Ends(t, Table) || (TableEnded(tokens) && !Starts(t, Table))
  {
    PendingMore(tokens, t, u => OpensCell(u), u => EndsCell(u));
    PendingMore(tokens, t, u => Starts(u, Tr), u => Ends(u, Tr));
    PendingMore(tokens, t, u => Ends(u, Table), u => Starts(u, Table));
  }

  /** What the reader holds open after any stream is what the stream left open. */
  lemma {:induction false} StandsOpen<X(!new)>(trim: seq<X> -> X, tokens: seq<Token<X>>)
    ensures var s := Feed(trim, Fresh(), tokens);
            && (s.cell.Some? <==> CellOpen(tokens)) && (s.row.Some? <==> RowOpen(tokens))
            && (s.tableClosed <==> TableEnded(tokens))
  {
    if tokens != [] {
      var front, t := tokens[..|tokens| - 1], tokens[|tokens| - 1];
      assert tokens == front + [t];
      StandsOpen(trim, front);
      ThenOne(trim, Fresh(), front, Feed(trim, Fresh(), front), t);
      StepOpens(trim, Feed(trim, Fresh(), front), t);
      OpenMore(front, t);
    }
  }

  /** Inside a cell, content adds its texts; outside, nothing. */
  lemma {:induction false} FeedInner<X>(trim: seq<X> -> X, s: State<X>, inner: seq<Inner<X>>)
    ensures Feed(trim, s, InnerTokens(inner)) == WithCell(s, Texts(inner))
    decreases |inner|
  {
    if inner == [] {
      WithCellTwice(s, [], []);
    } else {
      var first := if inner[0].Text? then [inner[0].text] else [];
      WithCellTwice(s, first, Texts(inner[1..]));
      var s1 := Step(trim, s, InnerToken(inner[0]));
      assert s1 == WithCell(s, first);
      assert InnerTokens(inner)[1..] == InnerTokens(inner[1..]);
      FeedInner(trim, s1, inner[1..]);
    }
  }

  /** The state with more finished cells. */
  function Added<X>(s: State<X>, heading: bool, texts: seq<X>): State<X>
    requires heading || s.row.Some?
  {
    if heading then s.(headings := s.headings + texts, cellIsHeading := true)
    else s.(row := Some(s.row.value + texts), cellIsHeading := false)
  }

  predicate Opens<X>(s: State<X>, opener: Tag, heading: bool) {
    opener in {Td, Th} && heading == (opener == Th || s.insideHead) && (heading || s.row.Some?)
  }

  lemma SettleKeeps<X>(trim: seq<X> -> X, s: State<X>, heading: bool)
    requires heading || s.row.Some?
    ensures Settle(trim, s).cell.None? && (heading || Settle(trim, s).row.Some?)
    ensures Settle(trim, s).insideHead == s.insideHead
  {}

  /** One printed cell adds its text, now or when it is settled. */
  lemma FeedCell<X>(trim: seq<X> -> X, s: State<X>, opener: Tag, c: Cell<X>, heading: bool)
    requires Opens(s, opener, heading) && (c.close.Some? ==> c.close.value in {Td, Th})
    ensures heading || Settle(trim, s).row.Some?
    ensures var s' := Feed(trim, s, PrintCell(opener, c));
            && Settle(trim, s') == Added(Settle(trim, s), heading, [trim(Texts(c.inner))])
            && (c.close.Some? ==> s'.cell.None?)
  {
    SettleKeeps(trim, s, heading);
    var s1 := Step(trim, s, Start(opener));
    assert s1 == Settle(trim, s).(cell := Some([]), cellIsHeading := heading);
    var s2 := WithCell(s1, Texts(c.inner));
    assert [] + Texts(c.inner) == Texts(c.inner);
    FeedOne(trim, s, Start(opener));
    FeedInner(trim, s1, c.inner);
    FeedConcat(trim, s, [Start(opener)], InnerTokens(c.inner));
    var tail: seq<Token<X>> := if c.close.Some? then [End(c.close.value)] else [];
    FeedConcat(trim, s, [Start(opener)] + InnerTokens(c.inner), tail);
    if c.close.Some? {
      FeedOne(trim, s2, End(c.close.value));
    }
  }

  lemma AddedTwice<X>(s: State<X>, heading: bool, a: seq<X>, b: seq<X>)
    requires heading || s.row.Some?
    ensures Added(Added(s, heading, a), heading, b) == Added(s, heading, a + b)
  {
    if heading {
      Assoc(s.headings, a, b);
    } else {
      Assoc(s.row.value, a, b);
    }
  }

  lemma CellTextsMore<X>(trim: seq<X> -> X, cells: seq<Cell<X>>)
    requires cells != []
    ensures CellTexts(trim, cells) == [trim(Texts(cells[0].inner))] + CellTexts(trim, cells[1..])
  {}

  lemma OpensAfter<X>(trim: seq<X> -> X, s: State<X>, s': State<X>, opener: Tag, heading: bool, texts: seq<X>)
    requires Opens(s, opener, heading) && (heading || Settle(trim, s).row.Some?)
    requires Settle(trim, s') == Added(Settle(trim, s), heading, texts)
    ensures Opens(s', opener, heading)
  {}

  lemma {:induction false} FeedCells<X>(trim: seq<X> -> X, s: State<X>, opener: Tag, cells: seq<Cell<X>>, heading: bool)
    requires Opens(s, opener, heading) && cells != []
    requires forall i :: 0 <= i < |cells| && cells[i].close.Some? ==> cells[i].close.value in {Td, Th}
    ensures heading || Settle(trim, s).row.Some?
    ensures var s' := Feed(trim, s, PrintCells(opener, cells));
            && Settle(trim, s') == Added(Settle(trim, s), heading, CellTexts(trim, cells))
            && (cells[|cells| - 1].close.Some? ==> s'.cell.None?)
    decreases |cells|
  {
    var c, rest := cells[0], cells[1..];
    var s1 := Feed(trim, s, PrintCell(opener, c));
    FeedCell(trim, s, opener, c, heading);
    FeedConcat(trim, s, PrintCell(opener, c), PrintCells(opener, rest));
    CellTextsMore(trim, cells);
    if rest == [] {
      assert CellTexts(trim, cells) == [trim(Texts(c.inner))];
      assert PrintCells(opener, rest) == [];
    } else {
      OpensAfter(trim, s, s1, opener, heading, [trim(Texts(c.inner))]);
      FeedCells(trim, s1, opener, rest, heading);
      AddedTwice(Settle(trim, s), heading, [trim(Texts(c.inner))], CellTexts(trim, rest));
    }
  }

  /** Feeding one part after another. */
  lemma Then<X>(trim: seq<X> -> X, s: State<X>, a: seq<Token<X>>, s1: State<X>, b: seq<Token<X>>, s2: State<X>)
    requires Feed(trim, s, a) == s1 && Feed(trim, s1, b) == s2
    ensures Feed(trim, s, a + b) == s2
  {
    FeedConcat(trim, s, a, b);
  }

  lemma ThenOne<X>(trim: seq<X> -> X, s: State<X>, a: seq<Token<X>>, s1: State<X>, t: Token<X>)
    requires Feed(trim, s, a) == s1
    ensures Feed(trim, s, a + [t]) == Step(trim, s1, t)
  {
    FeedOne(trim, s1, t);
    Then(trim, s, a, s1, [t], Step(trim, s1, t));
  }

  /** The opening of a row and its cells. */
  lemma FeedRowOpen<X>(trim: seq<X> -> X, s: State<X>, opener: Tag, cells: seq<Cell<X>>, heading: bool)
    requires s.cell.None? && cells != [] && WellClosed(cells) && opener in {Td, Th}
    requires heading == (opener == Th || s.insideHead)
    ensures Feed(trim, s, [Start(Tr)] + PrintCells(opener, cells))
            == Added(s.(row := Some([])), heading, CellTexts(trim, cells))
  {
    var s1 := s.(row := Some([]));
    FeedOne(trim, s, Start(Tr));
    FeedCells(trim, s1, opener, cells, heading);
    Then(trim, s, [Start(Tr)], s1, PrintCells(opener, cells), Feed(trim, s1, PrintCells(opener, cells)));
  }

  lemma FirstTexts<X>(s: State<X>, texts: seq<X>)
    ensures Added(s.(row := Some([])), false, texts) == s.(row := Some(texts), cellIsHeading := false)
  {
    assert [] + texts == texts;
  }

  /** The end of a row keeps its texts. */
  lemma CloseRow<X>(trim: seq<X> -> X, s: State<X>, body: seq<Token<X>>, texts: seq<X>)
    requires s.row.None? && texts != [] && Feed(trim, s, body) == Added(s.(row := Some([])), false, texts)
    ensures Feed(trim, s, body + [End(Tr)]) == s.(rows := s.rows + [texts], cellIsHeading := false)
  {
    FirstTexts(s, texts);
    ThenOne(trim, s, body, s.(row := Some(texts), cellIsHeading := false), End(Tr));
  }

  lemma FeedRowCells<X>(trim: seq<X> -> X, s: State<X>, cells: seq<Cell<X>>)
    requires s.cell.None? && s.row.None? && cells != [] && WellClosed(cells) && !s.insideHead
    ensures Feed(trim, s, [Start(Tr)] + PrintCells(Td, cells) + [End(Tr)])
            == s.(rows := s.rows + [CellTexts(trim, cells)], cellIsHeading := false)
  {
    FeedRowOpen(trim, s, Td, cells, false);
    CloseRow(trim, s, [Start(Tr)] + PrintCells(Td, cells), CellTexts(trim, cells));
  }

  lemma FeedHeadings<X>(trim: seq<X> -> X, s: State<X>, cells: seq<Cell<X>>)
    requires s.cell.None? && s.row.None? && cells != [] && WellClosed(cells)
    ensures Feed(trim, s, PrintHeadings(cells))
            == s.(headings := s.headings + CellTexts(trim, cells), cellIsHeading := true)
  {
    FeedRowOpen(trim, s, Th, cells, true);
    ThenOne(trim, s, [Start(Tr)] + PrintCells(Th, cells), Added(s.(row := Some([])), true, CellTexts(trim, cells)),
            End(Tr));
  }

  /** One printed row is kept as its trimmed texts. */
  lemma FeedRow<X>(trim: seq<X> -> X, s: State<X>, r: Row<X>)
    requires s.cell.None? && s.row.None? && !s.insideHead && r.cells != [] && WellClosed(r.cells)
    ensures Feed(trim, s, PrintRow(r)) == s.(rows := s.rows + [CellTexts(trim, r.cells)], cellIsHeading := false)
  {
    FeedInner(trim, s, r.gap);
    var body := [Start(Tr)] + PrintCells(Td, r.cells) + [End(Tr)];
    assert PrintRow(r) == InnerTokens(r.gap) + body by {
      Assoc(InnerTokens(r.gap), [Start(Tr)], PrintCells(Td, r.cells));
      Assoc(InnerTokens(r.gap), [Start(Tr)] + PrintCells(Td, r.cells), [End(Tr)]);
    }
    FeedConcat(trim, s, InnerTokens(r.gap), body);
    FeedRowCells(trim, s, r.cells);
  }

  function RowTexts<X>(trim: seq<X> -> X, rows: seq<Row<X>>): (r: seq<seq<X>>)
    ensures |r| == |rows| && forall i :: 0 <= i < |r| ==> r[i] == CellTexts(trim, rows[i].cells)
  {
    seq(|rows|, i requires 0 <= i < |rows| => CellTexts(trim, rows[i].cells))
  }

  lemma RowTextsMore<X>(trim: seq<X> -> X, rows: seq<Row<X>>)
    requires rows != []
    ensures RowTexts(trim, rows) == [CellTexts(trim, rows[0].cells)] + RowTexts(trim, rows[1..])
  {}

  /** The state between rows, once `rows` have been read after `s`. */
  ghost predicate RowsRead<X>(trim: seq<X> -> X, s: State<X>, s': State<X>, rows: seq<Row<X>>) {
    s'.(cellIsHeading := false) == s.(rows := s.rows + RowTexts(trim, rows), cellIsHeading := false)
  }

  lemma {:induction false} FeedRows<X>(trim: seq<X> -> X, s: State<X>, rows: seq<Row<X>>)
    requires s.cell.None? && s.row.None? && !s.insideHead
    requires forall i :: 0 <= i < |rows| ==> rows[i].cells != [] && WellClosed(rows[i].cells)
    ensures RowsRead(trim, s, Feed(trim, s, PrintRows(rows)), rows)
    decreases |rows|
  {
    if rows == [] {
      assert s.rows + RowTexts(trim, rows) == s.rows;
    } else {
      var s1 := Feed(trim, s, PrintRow(rows[0]));
      FeedRow(trim, s, rows[0]);
      FeedConcat(trim, s, PrintRow(rows[0]), PrintRows(rows[1..]));
      FeedRows(trim, s1, rows[1..]);
      RowTextsMore(trim, rows);
      Assoc(s.rows, [CellTexts(trim, rows[0].cells)], RowTexts(trim, rows[1..]));
    }
  }

  /** Everything up to the first row. */
  lemma FeedHead<X>(trim: seq<X> -> X, p: Print<X>)
    requires WellPrinted(p)
    ensures Feed(trim, Fresh(), PrintOpening(p) + PrintHeadings(p.headings) + (if p.head then [End(Thead)] else []))
            == HeadRead(trim, p)
  {
    var s1: State<X> := Fresh<X>().(insideHead := p.head);
    var s2: State<X> := s1.(headings := s1.headings + CellTexts(trim, p.headings), cellIsHeading := true);
    assert s1.headings + CellTexts(trim, p.headings) == CellTexts(trim, p.headings);
    FeedOpening(trim, p);
    FeedHeadings(trim, s1, p.headings);
    Then(trim, Fresh(), PrintOpening(p), s1, PrintHeadings(p.headings), s2);
    if p.head {
      ThenOne(trim, Fresh(), PrintOpening(p) + PrintHeadings(p.headings), s2, End(Thead));
    } else {
      assert PrintOpening(p) + PrintHeadings(p.headings) + [] == PrintOpening(p) + PrintHeadings(p.headings);
    }
  }

  function HeadRead<X>(trim: seq<X> -> X, p: Print<X>): State<X> {
    Fresh<X>().(headings := CellTexts(trim, p.headings), cellIsHeading := true)
  }

  lemma FeedOpening<X>(trim: seq<X> -> X, p: Print<X>)
    ensures Feed(trim, Fresh(), PrintOpening(p)) == Fresh<X>().(insideHead := p.head)
  {
    var start: State<X> := Fresh();
    if p.head {
      assert PrintOpening(p) == [Start(Table)] + [Start(Thead)];
      FeedConcat(trim, start, [Start(Table)], [Start(Thead)]);
      FeedOne(trim, start, Start(Thead));
    }
    FeedOne(trim, start, Start(Table));
  }

  /** A printed table is read as its headings and its rows, with nothing left open. */
  lemma FeedTable<X>(trim: seq<X> -> X, p: Print<X>)
    requires WellPrinted(p)
    ensures Feed(trim, Fresh(), PrintTable(p)).(cellIsHeading := false)
            == State(CellTexts(trim, p.headings), RowTexts(trim, p.rows), None, None, false, false, true)
  {
    var head := PrintOpening(p) + PrintHeadings(p.headings) + (if p.head then [End(Thead)] else []);
    var s1 := HeadRead(trim, p);
    var s2 := Feed(trim, s1, PrintRows(p.rows));
    FeedHead(trim, p);
    FeedRows(trim, s1, p.rows);
    Then(trim, Fresh(), head, s1, PrintRows(p.rows), s2);
    ThenOne(trim, Fresh(), head + PrintRows(p.rows), s2, End(Table));
    assert s1.rows + RowTexts(trim, p.rows) == RowTexts(trim, p.rows);
  }

  // ---------------------------------------------------------------- a column

  predicate Wide<X>(rows: seq<seq<X>>, at: nat) {
    forall i :: 0 <= i < |rows| ==> at < |rows[i]|
  }

  function Column<X>(rows: seq<seq<X>>, at: nat): seq<X>
    requires Wide(rows, at)
  {
    seq(|rows|, i requires 0 <= i < |rows| => rows[i][at])
  }

  /** The texts of one column of a printed table, row by row. */
  function PrintedColumn<X>(trim: seq<X> -> X, p: Print<X>, at: nat): seq<X>
    requires WellPrinted(p) && at < |p.headings|
  {
    seq(|p.rows|, i requires 0 <= i < |p.rows| => trim(Texts(p.rows[i].cells[at].inner)))
  }

  lemma ColumnRead<X>(trim: seq<X> -> X, p: Print<X>, at: nat)
    requires WellPrinted(p) && at < |p.headings|
    ensures Wide(RowTexts(trim, p.rows), at) && Column(RowTexts(trim, p.rows), at) == PrintedColumn(trim, p, at)
    ensures forall i :: 0 <= i < |p.rows| ==> |RowTexts(trim, p.rows)[i]| == |p.headings|
  {}
}
