/**
 * A worked example: a three-line export parsed into two rows, served by
 * the handler, filtered by platform and totalled on the page.
 */
module Scenarios {
  import opened Wrappers
  import opened Text
  import opened JsNumber
  import opened FetchAnalytics
  import opened Dashboard

  /** The sample export
      `Date,Platform,Followers,Engagement (%)\n2025-01-01,Instagram,1000,4.5\n2025-01-02,LinkedIn,abc,`
      written as its lines of cells. */
  const SampleHeaders: seq<string> := ["Date", "Platform", "Followers", "Engagement (%)"]
  const SampleCells1: seq<string> := ["2025-01-01", "Instagram", "1000", "4.5"]
  const SampleCells2: seq<string> := ["2025-01-02", "LinkedIn", "abc", ""]

  function CsvLine(cells: seq<string>): string
    requires |cells| >= 1
  {
    Join(cells, ',')
  }

  function SampleCsv(): string {
    CsvLine(SampleHeaders) + "\n" + CsvLine(SampleCells1) + "\n" + CsvLine(SampleCells2)
  }

  /** The first data row: a decimal follower count and the percentage text. */
  const Row1: Row := map["date" := StrC("2025-01-01"), "platform" := StrC("Instagram"),
                         "followers" := IntC(1000), "engagement" := PctC("4.5")]

  /** The second: an unparsable follower count reads 0, an empty
      percentage cell stays empty. */
  const Row2: Row := map["date" := StrC("2025-01-02"), "platform" := StrC("LinkedIn"),
                         "followers" := IntC(0), "engagement" := PctC("")]

  /** A character absent from every piece and from the separator is absent
      from their join. */
  lemma {:induction false} JoinLacks(parts: seq<string>, sep: char, c: char)
    requires |parts| >= 1 && c != sep
    requires forall i :: 0 <= i < |parts| ==> c !in parts[i]
    ensures c !in Join(parts, sep)
  {
    if |parts| > 1 {
      JoinLacks(parts[1..], sep, c);
      assert parts[1..][0] == parts[1];
    }
  }

  /** The first piece begins the join. */
  lemma JoinStarts(parts: seq<string>, sep: char)
    requires |parts| >= 1
    ensures parts[0] <= Join(parts, sep)
  {
  }

  /** Plain cells: no comma, no line break, nothing to trim. */
  predicate PlainCells(cells: seq<string>) {
    forall i :: 0 <= i < |cells| ==> ',' !in cells[i] && '\n' !in cells[i] && Trim(cells[i]) == cells[i]
  }

  /** A line of plain cells splits back into those cells, holds no line
      break, and is not blank when its first cell is not. */
  lemma CellsOfLine(cells: seq<string>)
    requires |cells| >= 1 && PlainCells(cells)
    ensures Cells(CsvLine(cells)) == cells
    ensures '\n' !in CsvLine(cells)
    ensures Trim(cells[0]) != [] ==> Trim(CsvLine(cells)) != []
  {
    var line := CsvLine(cells);
    SplitJoin(cells, ',');
    JoinLacks(cells, ',', '\n');
    JoinStarts(cells, ',');
    TrimEmptyIff(cells[0]);
    TrimEmptyIff(line);
    if AllWhite(line) {
      forall i | 0 <= i < |cells[0]| ensures IsWhite(cells[0][i]) {
        assert cells[0][i] == line[i];
      }
    }
  }

  /** Four plain cells make a plain line of cells. */
  lemma PlainFour(a: string, b: string, c: string, d: string)
    requires ',' !in a && '\n' !in a && Trim(a) == a
    requires ',' !in b && '\n' !in b && Trim(b) == b
    requires ',' !in c && '\n' !in c && Trim(c) == c
    requires ',' !in d && '\n' !in d && Trim(d) == d
    ensures PlainCells([a, b, c, d])
  {
  }

  // These three lemmas take the sample line as a parameter equal to its
  // constant, and name its cells as locals, to avoid eager unfolding of
  // literals; see `FetchAnalytics.EngagementKey`.
  lemma SampleHeadersPlain(cells: seq<string>)
    requires cells == SampleHeaders
    ensures PlainCells(cells) && Trim(cells[0]) != []
  {
    var a, b, c, d := "Date", "Platform", "Followers", "Engagement (%)";
    TrimKeeps(a); TrimKeeps(b); TrimKeeps(c); TrimKeeps(d);
    PlainFour(a, b, c, d);
  }

  lemma SampleCells1Plain(cells: seq<string>)
    requires cells == SampleCells1
    ensures PlainCells(cells) && Trim(cells[0]) != []
  {
    var a, b, c, d := "2025-01-01", "Instagram", "1000", "4.5";
    TrimKeeps(a); TrimKeeps(b); TrimKeeps(c); TrimKeeps(d);
    PlainFour(a, b, c, d);
  }

  lemma SampleCells2Plain(cells: seq<string>)
    requires cells == SampleCells2
    ensures PlainCells(cells) && Trim(cells[0]) != []
  {
    var a, b, c, d := "2025-01-02", "LinkedIn", "abc", "";
    TrimKeeps(a); TrimKeeps(b); TrimKeeps(c);
    assert Trim(d) == d;
    PlainFour(a, b, c, d);
  }

  /** A row under four headers, written one field at a time. */
  lemma RowOfFour(headers: seq<string>, values: seq<string>, cells: seq<Cell>, keys: seq<string>)
    requires |headers| == 4 && |cells| == 4 && |keys| == 4
    requires Key(headers[0]) == keys[0] && Coerce(headers[0], CellAt(values, 0)) == cells[0]
    requires Key(headers[1]) == keys[1] && Coerce(headers[1], CellAt(values, 1)) == cells[1]
    requires Key(headers[2]) == keys[2] && Coerce(headers[2], CellAt(values, 2)) == cells[2]
    requires Key(headers[3]) == keys[3] && Coerce(headers[3], CellAt(values, 3)) == cells[3]
    ensures RowOf(headers, values) == map[keys[0] := cells[0]][keys[1] := cells[1]][keys[2] := cells[2]][keys[3] := cells[3]]
  {
    var m0: Row := map[];
    assert headers[..0] == [];
    assert Writes([], values) == [];
    assert RowOf(headers[..0], values) == m0;
    WritesSnoc(headers, values, 0);
    var m1 := m0[keys[0] := cells[0]];
    assert RowOf(headers[..1], values) == m1;
    WritesSnoc(headers, values, 1);
    var m2 := m1[keys[1] := cells[1]];
    assert RowOf(headers[..2], values) == m2;
    WritesSnoc(headers, values, 2);
    var m3 := m2[keys[2] := cells[2]];
    assert RowOf(headers[..3], values) == m3;
    WritesSnoc(headers, values, 3);
    assert headers[..4] == headers;
  }

  /** The sample header's keys. */
  lemma SampleHeaderKeys(hs: seq<string>)
    requires hs == SampleHeaders
    ensures Key(hs[0]) == "date" && Key(hs[1]) == "platform"
    ensures Key(hs[2]) == "followers" && Key(hs[3]) == "engagement"
    ensures hs[0] !in IntHeaders && hs[0] !in PctHeaders
    ensures hs[1] !in IntHeaders && hs[1] !in PctHeaders
    ensures hs[2] in IntHeaders
    ensures hs[3] !in IntHeaders && hs[3] in PctHeaders
  {
    LoweredNames(); PctKeys();
  }

  /** A row under the sample header: date and platform as text, followers
      parsed, engagement kept as its percentage text. */
  lemma SampleRow(headers: seq<string>, values: seq<string>)
    requires headers == SampleHeaders && |values| == 4
    ensures RowOf(headers, values) ==
      map["date" := StrC(values[0]), "platform" := StrC(values[1]),
          "followers" := IntC(ParseIntOr0(values[2])), "engagement" := PctC(values[3])]
  {
    SampleHeaderKeys(headers);
    var cells := [StrC(values[0]), StrC(values[1]), IntC(ParseIntOr0(values[2])), PctC(values[3])];
    RowOfFour(headers, values, cells, ["date", "platform", "followers", "engagement"]);
  }

  /** A header and two non-blank lines give the two rows keyed by the
      header, in order. */
  lemma ParseThreeLines(h: string, l1: string, l2: string)
    requires '\n' !in h && '\n' !in l1 && '\n' !in l2
    requires Trim(h) != [] && Trim(l1) != [] && Trim(l2) != []
    ensures ParseCsv(h + "\n" + l1 + "\n" + l2) ==
      Success([RowOf(Cells(h), Cells(l1)), RowOf(Cells(h), Cells(l2))])
  {
    var headers := Cells(h);
    var r1 := RowOf(headers, Cells(l1));
    var r2 := RowOf(headers, Cells(l2));
    ParseCsvHeaderOnly(h);
    ParseCsvAppendLine(h, l1);
    var text1 := h + "\n" + l1;
    assert ParseCsv(text1) == Success([] + [r1]);
    LinesAppend(h, l1);
    NonBlankOne(l1);
    assert Lines(text1) == [h, l1];
    assert [] + [r1] == [r1];
    assert ParseCsv(text1).value == [r1];
    assert Lines(text1)[0] == h;
    ParseCsvAppendLine(text1, l2);
    var text2 := text1 + "\n" + l2;
    assert ParseCsv(text2) == Success(ParseCsv(text1).value + [RowOf(Cells(Lines(text1)[0]), Cells(l2))]);
    assert [r1] + [r2] == [r1, r2];
    assert text2 == h + "\n" + l1 + "\n" + l2;
  }

  /** The sample's rows under its header. */
  lemma SampleRows(hs: seq<string>, c1: seq<string>, c2: seq<string>)
    requires hs == SampleHeaders && c1 == SampleCells1 && c2 == SampleCells2
    ensures RowOf(hs, c1) == Row1 && RowOf(hs, c2) == Row2
  {
    SampleRow(hs, c1);
    SampleRow(hs, c2);
    ParseIntPlainExample();
    ParseIntNoNumberExamples();
  }

  /** The sample's lines, parsed by their cells. */
  lemma SampleLines(text: string, hs: seq<string>, c1: seq<string>, c2: seq<string>)
    requires text == SampleCsv()
    requires hs == SampleHeaders && c1 == SampleCells1 && c2 == SampleCells2
    ensures ParseCsv(text) == Success([RowOf(hs, c1), RowOf(hs, c2)])
  {
    SampleHeadersPlain(hs);
    SampleCells1Plain(c1);
    SampleCells2Plain(c2);
    CellsOfLine(hs);
    CellsOfLine(c1);
    CellsOfLine(c2);
    var h, l1, l2 := CsvLine(hs), CsvLine(c1), CsvLine(c2);
    ParseThreeLines(h, l1, l2);
    assert text == h + "\n" + l1 + "\n" + l2;
  }

  /** The sample export parses into exactly the two rows, in order. */
  lemma SampleParse(text: string)
    requires text == SampleCsv()
    ensures ParseCsv(text) == Success([Row1, Row2])
  {
    var hs, c1, c2 := SampleHeaders, SampleCells1, SampleCells2;
    SampleLines(text, hs, c1, c2);
    SampleRows(hs, c1, c2);
  }

  /** The handler serves the two rows with status 200. */
  lemma SampleServed(text: string, statusText: string)
    requires text == SampleCsv()
    ensures Handle(Reply(true, statusText, text)) == Response(200, DataBody([Row1, Row2]))
  {
    SampleParse(text);
  }

  /** Selecting Instagram with an empty search keeps the first row only;
      the followers total is 1000 over the filtered rows and over all. */
  lemma SampleDashboard()
    ensures FilteredData([Row1, Row2], "Instagram", "") == Some([Row1])
    ensures TotalFollowers([Row1, Row2]) == 1000
    ensures Total([Row1], "followers") == 1000
  {
    var rows := [Row1, Row2];
    assert AllHavePlatform(rows);
    assert Lower("") == [];
    ContainsTrivial(Lower("Instagram"));
    assert Passes(Row1, "Instagram", "");
    assert !Passes(Row2, "Instagram", "");
    assert rows[1..] == [Row2];
    assert [Row2][1..] == [];
    assert Keep([Row2], "Instagram", "") == [];
    assert Keep(rows, "Instagram", "") == [Row1];
    assert NumberOf(Row1, "followers") == 1000 && NumberOf(Row2, "followers") == 0;
    assert Total([Row2], "followers") == 0;
  }
}
