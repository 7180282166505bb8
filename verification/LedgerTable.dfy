/**
  The instance ledger's table reader: the names it finds in a page, given as the stream of tags and
  text a tokeniser makes of it.
 */
module LedgerTable {
  import opened Prelude
  import opened TableMachine

  // ---------------------------------------------------------------- text

  /** ASCII white space as `str.strip` takes it: tab to carriage return, the four separators, and space. */
  predicate IsSpace(c: char) {
    '\t' <= c <= '\r' || '\U{1c}' <= c <= '\U{1f}' || c == ' '
  }

  function StripLeft(s: string): string {
    if s != "" && IsSpace(s[0]) then StripLeft(s[1..]) else s
  }

  function StripRight(s: string): string {
    if s != "" && IsSpace(s[|s| - 1]) then StripRight(s[..|s| - 1]) else s
  }

  function Strip(s: string): string {
    StripRight(StripLeft(s))
  }

  function Join(chunks: seq<string>): string {
    if chunks == [] then "" else Join(chunks[..|chunks| - 1]) + chunks[|chunks| - 1]
  }

  function LowerChar(c: char): char {
    if 'A' <= c <= 'Z' then (c as nat + 32) as char else c
  }

  function Lower(s: string): string {
    seq(|s|, i requires 0 <= i < |s| => LowerChar(s[i]))
  }

  predicate Contains(s: string, part: string) {
    exists i :: 0 <= i <= |s| && part <= s[i..]
  }

  predicate NamesChallenge(heading: string) {
    Contains(Lower(heading), "challenge")
  }

  /** The first heading that names the challenge, or the first column when none does. */
  function NameColumn(headings: seq<string>): (at: nat)
    ensures headings != [] ==> at < |headings|
    ensures if exists i :: 0 <= i < |headings| && NamesChallenge(headings[i])
            then NamesChallenge(headings[at]) && forall i :: 0 <= i < at ==> !NamesChallenge(headings[i])
            else at == 0
  {
    FirstNaming(headings, 0)
  }

  function FirstNaming(headings: seq<string>, from: nat): (at: nat)
    requires from <= |headings| && forall i :: 0 <= i < from ==> !NamesChallenge(headings[i])
    ensures headings != [] ==> at < |headings|
    ensures if exists i :: 0 <= i < |headings| && NamesChallenge(headings[i])
            then NamesChallenge(headings[at]) && forall i :: 0 <= i < at ==> !NamesChallenge(headings[i])
            else at == 0
    decreases |headings| - from
  {
    if from == |headings| then 0
    else if NamesChallenge(headings[from]) then from
    else FirstNaming(headings, from + 1)
  }

  /** What a cell's chunks of text amount to. */
  function Trim(chunks: seq<string>): string {
    Strip(Join(chunks))
  }

  /** The characters `str.strip` removes, as far as they are ASCII. */
  const WHITE: set<char> :=
    {' ', '\t', '\n', '\U{b}', '\U{c}', '\r', '\U{1c}', '\U{1d}', '\U{1e}', '\U{1f}'}

  predicate AllWhite(s: string) {
    forall i :: 0 <= i < |s| ==> s[i] in WHITE
  }

  lemma SpaceExact(c: char)
    ensures IsSpace(c) <==> c in WHITE
  {}

  lemma {:induction false} StripLeftCuts(s: string) returns (cut: string)
    ensures s == cut + StripLeft(s) && AllWhite(cut)
    ensures StripLeft(s) != "" ==> StripLeft(s)[0] !in WHITE
  {
    cut := "";
    if s != "" {
      SpaceExact(s[0]);
      if IsSpace(s[0]) {
        var rest := StripLeftCuts(s[1..]);
        cut := [s[0]] + rest;
      }
    }
  }

  lemma {:induction false} StripRightCuts(s: string) returns (cut: string)
    ensures s == StripRight(s) + cut && AllWhite(cut)
    ensures StripRight(s) != "" ==> StripRight(s)[|StripRight(s)| - 1] !in WHITE
  {
    cut := "";
    if s != "" {
      SpaceExact(s[|s| - 1]);
      if IsSpace(s[|s| - 1]) {
        var rest := StripRightCuts(s[..|s| - 1]);
        cut := rest + [s[|s| - 1]];
      }
    }
  }

  /** Joining puts the chunks one after another. */
  lemma {:induction false} JoinExact(a: seq<string>, b: seq<string>, chunk: string)
    ensures Join([]) == "" && Join([chunk]) == chunk && Join(a + b) == Join(a) + Join(b)
    decreases |b|
  {
    assert [chunk][..0] == [];
    if b == [] {
      assert a + b == a;
    } else {
      var front := b[..|b| - 1];
      JoinExact(a, front, chunk);
      assert (a + b)[..|a + b| - 1] == a + front;
    }
  }

  /** A trimmed cell is its text without the white space at either end, and with nothing else cut off. */
  lemma TrimExact(chunks: seq<string>) returns (before: string, after: string)
    ensures Join(chunks) == before + Trim(chunks) + after && AllWhite(before) && AllWhite(after)
    ensures Trim(chunks) != "" ==> Trim(chunks)[0] !in WHITE && Trim(chunks)[|Trim(chunks)| - 1] !in WHITE
  {
    before := StripLeftCuts(Join(chunks));
    after := StripRightCuts(StripLeft(Join(chunks)));
    if Trim(chunks) != "" {
      assert StripLeft(Join(chunks))[0] == Trim(chunks)[0];
    }
  }

  /** The heading holds the word in either case, letter by letter. */
  predicate SpellsChallenge(heading: string, i: nat) {
    i + 9 <= |heading| && forall j :: 0 <= j < 9 ==> heading[i + j] in {"challenge"[j], "CHALLENGE"[j]}
  }

  lemma LowerExact(c: char, lower: char, upper: char)
    requires 'a' <= lower <= 'z' && upper as int == lower as int - 32
    ensures LowerChar(c) == lower <==> c in {lower, upper}
  {}

  lemma NamesAt(heading: string, i: nat)
    requires i <= |heading|
    ensures "challenge" <= Lower(heading)[i..] <==> SpellsChallenge(heading, i)
  {
    var lower, upper := "challenge", "CHALLENGE";
    if i + 9 <= |heading| {
      assert "challenge" <= Lower(heading)[i..] <==>
             forall j :: 0 <= j < 9 ==> Lower(heading)[i..][j] == lower[j];
      forall j | 0 <= j < 9
        ensures Lower(heading)[i..][j] == lower[j] <==> heading[i + j] in {lower[j], upper[j]}
      {
        LowerExact(heading[i + j], lower[j], upper[j]);
      }
    }
  }

  lemma NamesExact(heading: string)
    ensures NamesChallenge(heading) <==> exists i: nat :: SpellsChallenge(heading, i)
  {
    if NamesChallenge(heading) {
      var i :| 0 <= i <= |heading| && "challenge" <= Lower(heading)[i..];
      NamesAt(heading, i);
    }
    if i: nat :| SpellsChallenge(heading, i) {
      NamesAt(heading, i);
    }
  }

  // ---------------------------------------------------------------- what is read

  predicate Readable(s: State<string>) {
    && s.headings != [] && s.tableClosed && s.cell.None? && s.row.None?
    && forall i :: 0 <= i < |s.rows| ==> |s.rows[i]| == |s.headings|
  }

  function Names(s: State<string>): seq<string>
    requires Readable(s)
  {
    Column(s.rows, NameColumn(s.headings))
  }

  /** The challenge names the page lists, or nothing when it holds no table that can be read. */
  function RowsOf(tokens: seq<Token<string>>): Option<seq<string>> {
    var s := Feed(Trim, Fresh(), tokens);
    if Readable(s) then Some(Names(s)) else None
  }

  /**
    For any stream, an answer means every kept row has exactly as many cells as there are headings, and
    gives each row's name cell; headings and rows together are cells the stream opened, each once.
   */
  lemma AnswerMeansWidth(tokens: seq<Token<string>>)
    ensures RowsOf(tokens).Some? ==>
              var s := Feed(Trim, Fresh(), tokens);
              && |s.headings| >= 1 && |RowsOf(tokens).value| == |s.rows|
              && forall i :: 0 <= i < |s.rows| ==>
                   |s.rows[i]| == |s.headings| && RowsOf(tokens).value[i] == s.rows[i][NameColumn(s.headings)]
    ensures RowsOf(tokens).Some? ==>
              (1 + |RowsOf(tokens).value|) * |Feed(Trim, Fresh(), tokens).headings| <= Openers(tokens)
  {
    var s := Feed(Trim, Fresh(), tokens);
    FeedHolds(Trim, Fresh(), tokens);
    if Readable(s) {
      EvenWidth(s.rows, |s.headings|);
      assert (1 + |s.rows|) * |s.headings| == |s.headings| + |s.rows| * |s.headings|;
    }
  }

  /**
    For any stream there is an answer exactly when headings were found, the last table was closed, no
    row or cell was left open, and every row kept is as wide as the headings.
   */
  lemma AnswerExactly(tokens: seq<Token<string>>)
    ensures RowsOf(tokens).Some? <==>
              var s := Feed(Trim, Fresh(), tokens);
              && s.headings != [] && TableEnded(tokens) && !RowOpen(tokens) && !CellOpen(tokens)
              && forall row :: row in s.rows ==> |row| == |s.headings|
  {
    StandsOpen(Trim, tokens);
    var s := Feed(Trim, Fresh(), tokens);
    assert (forall i :: 0 <= i < |s.rows| ==> |s.rows[i]| == |s.headings|) <==>
           forall row :: row in s.rows ==> |row| == |s.headings| by {
      if forall row :: row in s.rows ==> |row| == |s.headings| {
        assert forall i :: 0 <= i < |s.rows| ==> s.rows[i] in s.rows;
      }
    }
  }

  // ---------------------------------------------------------------- the reader as an object

  class LedgerReader {
    var headings: seq<string>
    var rows: seq<seq<string>>
    var cell: Option<seq<string>>
    var row: Option<seq<string>>
    var cellIsHeading: bool
    var insideHead: bool
    var tableClosed: bool

    function View(): State<string>
      reads this
    {
      State(headings, rows, cell, row, cellIsHeading, insideHead, tableClosed)
    }

    constructor ()
      ensures View() == Fresh()
    {
      headings, rows, cell, row := [], [], None, None;
      cellIsHeading, insideHead, tableClosed := false, false, false;
    }

    method FinishOpenCell()
      modifies this
      ensures View() == FinishCell(Trim, old(View()))
    {
      var text := Trim(if cell.Some? then cell.value else []);
      if cellIsHeading {
        headings := headings + [text];
      } else if row.Some? {
        row := Some(row.value + [text]);
      }
      cell := None;
    }

    method HandleStart(tag: Tag)
      modifies this
      ensures View() == Step(Trim, old(View()), Start(tag))
    {
      if tag == Thead {
        insideHead := true;
      } else if tag == Table {
        tableClosed := false;
      } else if tag == Tr {
        row := Some([]);
      } else if tag == Td || tag == Th {
        if cell.Some? {
          FinishOpenCell();
        }
        cell, cellIsHeading := Some([]), tag == Th || insideHead;
      }
    }

    method HandleData(text: string)
      modifies this
      ensures View() == Step(Trim, old(View()), Data(text))
    {
      if cell.Some? {
        cell := Some(cell.value + [text]);
      }
    }

    method HandleEnd(tag: Tag)
      modifies this
      ensures View() == Step(Trim, old(View()), End(tag))
    {
      if tag == Thead {
        insideHead := false;
      } else if tag == Table {
        tableClosed := true;
      } else if (tag == Td || tag == Th) && cell.Some? {
        FinishOpenCell();
      } else if tag == Tr {
        if row.Some? && row.value != [] {
          rows := rows + [row.value];
        }
        row := None;
      }
    }
  }

  /** Read a whole page. */
  method ReadRows(tokens: seq<Token<string>>) returns (r: Option<seq<string>>)
    ensures r == RowsOf(tokens)
  {
    var reader := new LedgerReader();
    assert tokens[0..] == tokens;
    for i := 0 to |tokens|
      invariant Feed(Trim, Fresh(), tokens) == Feed(Trim, reader.View(), tokens[i..])
    {
      assert tokens[i..][0] == tokens[i] && tokens[i..][1..] == tokens[i + 1..];
      match tokens[i]
      case Start(tag) => reader.HandleStart(tag);
      case Data(text) => reader.HandleData(text);
      case End(tag) => reader.HandleEnd(tag);
    }
    assert tokens[|tokens|..] == [];
    var s := reader.View();
    return if Readable(s) then Some(Names(s)) else None;
  }

  // ---------------------------------------------------------------- printed tables

  /**
    For every printed table, whatever its cells close as and whichever stay open short of a row's last,
    the reader returns the trimmed name column of every row in order.
   */
  lemma PrintedTable(p: Print<string>)
    requires WellPrinted(p)
    ensures RowsOf(PrintTable(p)) == Some(PrintedColumn(Trim, p, NameColumn(CellTexts(Trim, p.headings))))
  {
    FeedTable(Trim, p);
    ColumnRead(Trim, p, NameColumn(CellTexts(Trim, p.headings)));
    ReadableNames(Feed(Trim, Fresh(), PrintTable(p)), CellTexts(Trim, p.headings), RowTexts(Trim, p.rows));
  }

  lemma ReadableNames(s: State<string>, headings: seq<string>, rows: seq<seq<string>>)
    requires s.(cellIsHeading := false) == State(headings, rows, None, None, false, false, true)
    requires headings != [] && forall i :: 0 <= i < |rows| ==> |rows[i]| == |headings|
    ensures Readable(s) && Names(s) == Column(rows, NameColumn(headings))
  {}
}
