/**
 * The `fetch-analytics` backend function: it downloads the published sheet
 * as CSV text, splits it into lines and comma-separated cells (a naive
 * split, without the quoting of section 2 of RFC 4180), coerces each cell by
 * a fixed allow-list of header names and answers with the rows as JSON, or
 * with an error body and status 500.
 */
module FetchAnalytics {
  import opened Wrappers
  import opened Text
  import opened JsNumber
  import opened Seqs

  /** One field of a row object. A percentage cell keeps the trimmed source
      text that `parseFloat(...) || 0` is applied to; its floating-point
      value is not modelled. */
  datatype Cell = IntC(n: int) | StrC(s: string) | PctC(text: string)

  /** A row object: its keys come from the header line. */
  type Row = map<string, Cell>

  /** Headers whose cells are coerced with `parseInt(v) || 0`. */
  const IntHeaders: seq<string> := ["Followers", "Impressions", "Reach", "Posts", "Likes", "Comments", "Shares"]

  /** Headers whose cells are coerced with `parseFloat(v) || 0`. */
  const PctHeaders: seq<string> := ["Engagement (%)", "Growth (%)"]

  /** The property name a header writes to: the lower-cased header, with the
      first `" (%)"` removed for the percentage headers. */
  function Key(header: string): string {
    if header !in IntHeaders && header in PctHeaders then ReplaceFirst(Lower(header), " (%)", "")
    else Lower(header)
  }

  /** The value a header stores for its (trimmed) cell text. */
  function Coerce(header: string, value: string): Cell {
    if header in IntHeaders then IntC(ParseIntOr0(value))
    else if header in PctHeaders then PctC(value)
    else StrC(value)
  }

  /** `values[index] || ''`: a missing trailing cell reads as the empty text. */
  function CellAt(values: seq<string>, index: nat): string {
    if index < |values| then values[index] else ""
  }

  /** The object obtained by performing the property writes in order,
      starting from `{}`; a later write to a key replaces an earlier one. */
  function Assign(writes: seq<(string, Cell)>): Row {
    if writes == [] then map[]
    else
      var n := |writes| - 1;
      Assign(writes[..n])[writes[n].0 := writes[n].1]
  }

  /** The keys of the object are the keys written. */
  lemma {:induction false} AssignKeys(writes: seq<(string, Cell)>)
    ensures forall k :: k in Assign(writes) <==> exists i :: 0 <= i < |writes| && writes[i].0 == k
  {
    if writes != [] {
      var n := |writes| - 1;
      AssignKeys(writes[..n]);
      forall k | k in Assign(writes) && k != writes[n].0
        ensures exists i :: 0 <= i < |writes| && writes[i].0 == k
      {
        assert k in Assign(writes[..n]);
        var i :| 0 <= i < n && writes[..n][i].0 == k;
        assert writes[i].0 == k;
      }
      forall k | (exists i :: 0 <= i < |writes| && writes[i].0 == k) && k != writes[n].0
        ensures k in Assign(writes[..n])
      {
        var i :| 0 <= i < |writes| && writes[i].0 == k;
        assert writes[..n][i].0 == k;
      }
    }
  }

  /** The write at position `i` is the last one to its key. */
  predicate LastWrite(writes: seq<(string, Cell)>, i: nat)
    requires i < |writes|
  {
    forall j :: i < j < |writes| ==> writes[j].0 != writes[i].0
  }

  /** The value under a key is the one its last write stored. */
  lemma {:induction false} AssignLastWins(writes: seq<(string, Cell)>, i: nat)
    requires i < |writes| && LastWrite(writes, i)
    ensures writes[i].0 in Assign(writes) && Assign(writes)[writes[i].0] == writes[i].1
  {
    var n := |writes| - 1;
    if i < n {
      assert LastWrite(writes[..n], i) by {
        forall j | i < j < n ensures writes[..n][j].0 != writes[..n][i].0 {
          assert writes[..n][j] == writes[j];
        }
      }
      AssignLastWins(writes[..n], i);
      assert writes[..n][i] == writes[i];
    }
  }

  /** Every value of the object is one that was written under its key. */
  lemma {:induction false} AssignValues(writes: seq<(string, Cell)>)
    ensures forall k :: k in Assign(writes) ==>
      exists i :: 0 <= i < |writes| && writes[i].0 == k && writes[i].1 == Assign(writes)[k]
  {
    if writes != [] {
      var n := |writes| - 1;
      AssignValues(writes[..n]);
      forall k | k in Assign(writes)
        ensures exists i :: 0 <= i < |writes| && writes[i].0 == k && writes[i].1 == Assign(writes)[k]
      {
        if k != writes[n].0 {
          assert k in Assign(writes[..n]) && Assign(writes)[k] == Assign(writes[..n])[k];
          var i :| 0 <= i < n && writes[..n][i].0 == k && writes[..n][i].1 == Assign(writes[..n])[k];
          assert writes[i] == writes[..n][i];
        }
      }
    }
  }

  /** The writes `headers.forEach` performs for one line's cells. */
  function Writes(headers: seq<string>, values: seq<string>): seq<(string, Cell)> {
    seq(|headers|, i requires 0 <= i < |headers| => (Key(headers[i]), Coerce(headers[i], CellAt(values, i))))
  }

  /** One more header adds one more write at the end. */
  lemma WritesSnoc(headers: seq<string>, values: seq<string>, i: nat)
    requires i < |headers|
    ensures RowOf(headers[..i + 1], values) == RowOf(headers[..i], values)[Key(headers[i]) := Coerce(headers[i], CellAt(values, i))]
  {
    var w := Writes(headers[..i + 1], values);
    assert w[..i] == Writes(headers[..i], values);
    assert w[i] == (Key(headers[i]), Coerce(headers[i], CellAt(values, i)));
  }

  /** The row object built for one line. */
  function RowOf(headers: seq<string>, values: seq<string>): Row {
    Assign(Writes(headers, values))
  }

  /** The per-line `headers.forEach` loop, writing one field at a time into
      a mutable row object. */
  method BuildRow(headers: seq<string>, values: seq<string>) returns (row: Row)
    ensures row == RowOf(headers, values)
  {
    row := map[];
    for i := 0 to |headers|
      invariant row == RowOf(headers[..i], values)
    {
      var value := if i < |values| then values[i] else "";
      var header := headers[i];
      assert value == CellAt(values, i);
      WritesSnoc(headers, values, i);
      if header in IntHeaders {
        assert Key(header) == Lower(header) && Coerce(header, value) == IntC(ParseIntOr0(value));
        row := row[Lower(header) := IntC(ParseIntOr0(value))];
      } else if header in PctHeaders {
        assert Key(header) == ReplaceFirst(Lower(header), " (%)", "") && Coerce(header, value) == PctC(value);
        row := row[ReplaceFirst(Lower(header), " (%)", "") := PctC(value)];
      } else {
        assert Key(header) == Lower(header) && Coerce(header, value) == StrC(value);
        row := row[Lower(header) := StrC(value)];
      }
    }
    assert headers[..|headers|] == headers;
  }

  /** A row has exactly the header-derived keys. */
  lemma RowOfKeys(headers: seq<string>, values: seq<string>)
    ensures forall k :: k in RowOf(headers, values) <==> exists i :: 0 <= i < |headers| && Key(headers[i]) == k
  {
    var w := Writes(headers, values);
    AssignKeys(w);
    forall k ensures k in RowOf(headers, values) <==> exists i :: 0 <= i < |headers| && Key(headers[i]) == k {
      if k in RowOf(headers, values) {
        var i :| 0 <= i < |w| && w[i].0 == k;
        assert Key(headers[i]) == k;
      }
      if exists i :: 0 <= i < |headers| && Key(headers[i]) == k {
        var i :| 0 <= i < |headers| && Key(headers[i]) == k;
        assert w[i].0 == k;
      }
    }
  }

  /** The header at position `i` is the last one mapping to its key. */
  predicate LastWriter(headers: seq<string>, i: nat)
    requires i < |headers|
  {
    forall j :: i < j < |headers| ==> Key(headers[j]) != Key(headers[i])
  }

  /** Last write wins: the field under a key holds the coercion of the cell
      of the last header that maps to that key. */
  lemma RowOfLastWins(headers: seq<string>, values: seq<string>, i: nat)
    requires i < |headers| && LastWriter(headers, i)
    ensures Key(headers[i]) in RowOf(headers, values)
    ensures RowOf(headers, values)[Key(headers[i])] == Coerce(headers[i], CellAt(values, i))
  {
    var w := Writes(headers, values);
    assert LastWrite(w, i) by {
      forall j | i < j < |w| ensures w[j].0 != w[i].0 {
        assert w[j].0 == Key(headers[j]);
      }
    }
    AssignLastWins(w, i);
  }

  /** Cells beyond the header count are ignored. */
  lemma RowOfIgnoresExtraCells(headers: seq<string>, values: seq<string>, extra: seq<string>)
    requires |values| >= |headers|
    ensures RowOf(headers, values + extra) == RowOf(headers, values)
  {
    assert Writes(headers, values + extra) == Writes(headers, values) by {
      forall i | 0 <= i < |headers| ensures CellAt(values + extra, i) == CellAt(values, i) {
        assert (values + extra)[i] == values[i];
      }
    }
  }

  /** A missing trailing cell is read as `''`: an integer column gets 0, a
      percentage column the empty text, any other column `""`. */
  lemma MissingCellDefaults(headers: seq<string>, values: seq<string>, i: nat)
    requires |values| <= i < |headers| && LastWriter(headers, i)
    ensures Key(headers[i]) in RowOf(headers, values)
    ensures RowOf(headers, values)[Key(headers[i])] ==
      if headers[i] in IntHeaders then IntC(0)
      else if headers[i] in PctHeaders then PctC("")
      else StrC("")
  {
    RowOfLastWins(headers, values, i);
    ParseIntNoNumberExamples();
  }

  /** The lower-cased names of the headers the page reads. */
  lemma LoweredNames()
    ensures Lower("Followers") == "followers" && Lower("Impressions") == "impressions"
    ensures Lower("Reach") == "reach" && Lower("Posts") == "posts"
    ensures Lower("Platform") == "platform" && Lower("Date") == "date"
  {
    LowerIs("Followers", "followers");
    LowerIs("Impressions", "impressions");
    LowerIs("Reach", "reach");
    LowerIs("Posts", "posts");
    LowerIs("Platform", "platform");
    LowerIs("Date", "date");
  }

  /** The keys the allow-listed headers write to: integer headers are only
      lower-cased, percentage headers also lose their `" (%)"` suffix. */
  lemma AllowListKeys()
    ensures forall h :: h in IntHeaders ==> Key(h) == Lower(h)
    ensures Key("Followers") == "followers" && Key("Impressions") == "impressions"
    ensures Key("Reach") == "reach" && Key("Posts") == "posts"
    ensures Key("Engagement (%)") == "engagement"
    ensures Key("Growth (%)") == "growth"
  {
    LoweredNames();
    PctKeys();
  }

  /** The two percentage headers lose their `" (%)"` suffix. */
  lemma PctKeys()
    ensures Key("Engagement (%)") == "engagement"
    ensures Key("Growth (%)") == "growth"
  {
    EngagementKey("Engagement (%)", "engagement");
    GrowthKey("Growth (%)", "growth");
  }

  // The header and its stem arrive as parameters pinned to literals rather
  // than as literals: Dafny unfolds a function applied to literal arguments
  // eagerly, and on these strings that unfolding is far more expensive than
  // the proof itself. `GrowthKey`, `Dashboard.PlatformHeaderKey` and the
  // `Scenarios.Sample*Plain` lemmas use the same device.
  lemma EngagementKey(h: string, stem: string)
    requires h == "Engagement (%)" && stem == "engagement"
    ensures Key(h) == stem
  {
    assert h !in IntHeaders && h in PctHeaders;
    var l := Lower(h);
    assert l[0] == 'e' && l[1] == 'n' && l[2] == 'g' && l[3] == 'a' && l[4] == 'g' && l[5] == 'e' && l[6] == 'm'
      && l[7] == 'e' && l[8] == 'n' && l[9] == 't' && l[10] == ' ' && l[11] == '(' && l[12] == '%' && l[13] == ')';
    var pat := " (%)";
    assert l == stem + pat;
    ReplaceFirstSkip(stem, pat, pat, "");
    assert ReplaceFirst(pat, pat, "") == "";
  }

  lemma GrowthKey(h: string, stem: string)
    requires h == "Growth (%)" && stem == "growth"
    ensures Key(h) == stem
  {
    assert h !in IntHeaders && h in PctHeaders;
    var l := Lower(h);
    assert l[0] == 'g' && l[1] == 'r' && l[2] == 'o' && l[3] == 'w' && l[4] == 't' && l[5] == 'h'
      && l[6] == ' ' && l[7] == '(' && l[8] == '%' && l[9] == ')';
    var pat := " (%)";
    assert l == stem + pat;
    ReplaceFirstSkip(stem, pat, pat, "");
    assert ReplaceFirst(pat, pat, "") == "";
  }

  /** Matching is exact and case-sensitive: a header spelled differently from
      the allow-list keeps its cell text as a string, under the same
      lower-cased key as the allow-listed spelling. */
  lemma CaseSensitiveMatching(value: string)
    ensures Key("followers") == "followers" && Coerce("followers", value) == StrC(value)
    ensures Key("FOLLOWERS") == "followers" && Coerce("FOLLOWERS", value) == StrC(value)
    ensures Key("Followers") == "followers" && Coerce("Followers", value) == IntC(ParseIntOr0(value))
  {
    LoweredNames();
    LowerIs("FOLLOWERS", "followers");
    LowerIs("followers", "followers");
    assert "followers" !in IntHeaders && "followers" !in PctHeaders;
    assert "FOLLOWERS" !in IntHeaders && "FOLLOWERS" !in PctHeaders;
  }

  /** Only the two percentage keys can hold a percentage cell. */
  lemma PctOnlyUnderPctKeys(headers: seq<string>, values: seq<string>)
    ensures forall k :: k in RowOf(headers, values) && RowOf(headers, values)[k].PctC? ==>
      k == "engagement" || k == "growth"
  {
    var w := Writes(headers, values);
    AssignValues(w);
    PctKeys();
    forall k | k in RowOf(headers, values) && RowOf(headers, values)[k].PctC?
      ensures k == "engagement" || k == "growth"
    {
      var i :| 0 <= i < |w| && w[i].0 == k && w[i].1 == Assign(w)[k];
      assert headers[i] == "Engagement (%)" || headers[i] == "Growth (%)";
    }
  }

  /** `lines.filter(line => line.trim())`: the lines whose trimmed text is
      not empty, in order. */
  function NonBlank(lines: seq<string>): seq<string> {
    if lines == [] then []
    else if Trim(lines[0]) != [] then [lines[0]] + NonBlank(lines[1..])
    else NonBlank(lines[1..])
  }

  /** The filter keeps exactly the non-blank lines, as a subsequence. */
  lemma {:induction false} NonBlankSpec(lines: seq<string>)
    ensures forall x :: x in NonBlank(lines) <==> x in lines && Trim(x) != []
    ensures Subsequence(NonBlank(lines), lines)
  {
    if lines != [] {
      NonBlankSpec(lines[1..]);
      assert lines == [lines[0]] + lines[1..];
      if Trim(lines[0]) != [] {
        assert NonBlank(lines)[1..] == NonBlank(lines[1..]);
      }
    }
  }

  /** Filtering distributes over concatenation. */
  lemma {:induction false} NonBlankAppend(a: seq<string>, b: seq<string>)
    ensures NonBlank(a + b) == NonBlank(a) + NonBlank(b)
  {
    if a != [] {
      assert (a + b)[1..] == a[1..] + b;
      NonBlankAppend(a[1..], b);
      var x := a[0];
      assert (a + b)[0] == x;
      if Trim(x) != [] {
        assert NonBlank(a + b) == [x] + NonBlank(a[1..] + b);
        assert NonBlank(a) == [x] + NonBlank(a[1..]);
      } else {
        assert NonBlank(a + b) == NonBlank(a[1..] + b);
        assert NonBlank(a) == NonBlank(a[1..]);
      }
    } else {
      assert a + b == b;
    }
  }

  /** The non-blank lines of the text. */
  function Lines(text: string): seq<string> {
    NonBlank(Split(text, '\n'))
  }

  /** `line.split(',').map(v => v.trim())`. */
  function Cells(line: string): seq<string> {
    var parts := Split(line, ',');
    seq(|parts|, i requires 0 <= i < |parts| => Trim(parts[i]))
  }

  datatype ParseError = NoHeaderLine

  /** The CSV parse block: no non-blank line leaves `lines[0]` undefined and
      `lines[0].split` throws; otherwise the header is the first non-blank
      line and there is one row per later non-blank line. */
  function ParseCsv(text: string): Result<seq<Row>, ParseError> {
    var lines := Lines(text);
    if lines == [] then Failure(NoHeaderLine)
    else Success(RowsOf(lines))
  }

  /** One row per line after the header line, keyed by the header's cells. */
  function RowsOf(lines: seq<string>): seq<Row>
    requires lines != []
  {
    var headers := Cells(lines[0]);
    seq(|lines| - 1, i requires 0 <= i < |lines| - 1 => RowOf(headers, Cells(lines[i + 1])))
  }

  /** One more line after the header gives one more row at the end. */
  lemma RowsOfSnoc(lines: seq<string>, line: string)
    requires lines != []
    ensures RowsOf(lines + [line]) == RowsOf(lines) + [RowOf(Cells(lines[0]), Cells(line))]
  {
    var ls := lines + [line];
    assert ls[0] == lines[0];
    forall i | 0 <= i < |lines| ensures ls[i] == lines[i] { }
    assert ls[|lines|] == line;
  }

  /** The parse fails exactly when every line of the text is blank. */
  lemma ParseCsvFailsIff(text: string)
    ensures ParseCsv(text).Failure? <==> forall l :: l in Split(text, '\n') ==> AllWhite(l)
  {
    var ls := Split(text, '\n');
    NonBlankSpec(ls);
    forall l | l in ls ensures Trim(l) == [] <==> AllWhite(l) {
      TrimEmptyIff(l);
    }
    if Lines(text) != [] {
      assert Lines(text)[0] in Lines(text);
    }
  }

  /** The empty body fails. */
  lemma ParseCsvEmpty()
    ensures ParseCsv("") == Failure(NoHeaderLine)
  {
    ParseCsvFailsIff("");
    assert Split("", '\n') == [""];
    assert AllWhite("");
  }

  /** The blank-line filter of a one-line list. */
  lemma NonBlankOne(line: string)
    ensures NonBlank([line]) == if Trim(line) == [] then [] else [line]
  {
    assert [line][1..] == [];
  }

  /** Appending a line to a text with a header: a blank line changes
      nothing, any other line adds exactly one row at the end, keyed by the
      same header. */
  lemma ParseCsvAppendLine(text: string, line: string)
    requires '\n' !in line
    requires ParseCsv(text).Success?
    ensures ParseCsv(text + "\n" + line) ==
      if Trim(line) == [] then ParseCsv(text)
      else Success(ParseCsv(text).value + [RowOf(Cells(Lines(text)[0]), Cells(line))])
  {
    var ls := Lines(text);
    var text' := text + "\n" + line;
    LinesAppend(text, line);
    NonBlankOne(line);
    assert ParseCsv(text).value == RowsOf(ls);
    if Trim(line) != [] {
      assert Lines(text') == ls + [line];
      RowsOfSnoc(ls, line);
      assert ParseCsv(text') == Success(RowsOf(ls + [line]));
    } else {
      assert Lines(text') == ls;
    }
  }

  /** The lines of a text with one more line appended. */
  lemma LinesAppend(text: string, line: string)
    requires '\n' !in line
    ensures Lines(text + "\n" + line) == Lines(text) + NonBlank([line])
  {
    assert text + "\n" + line == text + ['\n'] + line;
    SplitAppend(text, line, '\n');
    SplitNoSep(line, '\n');
    NonBlankAppend(Split(text, '\n'), [line]);
  }

  /** The header is the first non-blank line: blank lines before it are
      skipped. */
  lemma ParseCsvSkipsLeadingBlank(blank: string, text: string)
    requires '\n' !in blank && AllWhite(blank)
    ensures ParseCsv(blank + "\n" + text) == ParseCsv(text)
  {
    assert blank + "\n" + text == blank + ['\n'] + text;
    SplitPrefix(blank, text, '\n');
    TrimEmptyIff(blank);
    assert ([blank] + Split(text, '\n'))[1..] == Split(text, '\n');
    assert Lines(blank + "\n" + text) == Lines(text);
  }

  /** A text of a single non-blank line is a header with no rows. */
  lemma ParseCsvHeaderOnly(line: string)
    requires '\n' !in line && Trim(line) != []
    ensures Lines(line) == [line]
    ensures ParseCsv(line) == Success([])
  {
    SplitNoSep(line, '\n');
    NonBlankOne(line);
    assert Lines(line) == [line];
    assert RowsOf([line]) == [];
  }

  // ---------------------------------------------------------------------
  // The HTTP handler's outcome

  /** What the upstream `fetch` produced: a rejection, or a response with its
      `ok` flag, status text and body text. */
  datatype Upstream = Unreachable(reason: string) | Reply(ok: bool, statusText: string, text: string)

  datatype Body = DataBody(data: seq<Row>) | ErrorBody(error: string)

  datatype Response = Response(status: nat, body: Body)

  /** The message of the TypeError thrown by `lines[0].split` when there is
      no line (V8's wording). */
  const NoHeaderMessage: string := "Cannot read properties of undefined (reading 'split')"

  /** The handler for a non-preflight request: the rows with status 200, or
      the caught error's message with status 500. */
  function Handle(up: Upstream): (resp: Response)
    ensures resp.status == 200 || resp.status == 500
    ensures resp.status == 200 <==> resp.body.DataBody?
  {
    match up
    case Unreachable(reason) => Response(500, ErrorBody(reason))
    case Reply(ok, statusText, text) =>
      if !ok then Response(500, ErrorBody("Failed to fetch CSV: " + statusText))
      else
        match ParseCsv(text)
        case Failure(_) => Response(500, ErrorBody(NoHeaderMessage))
        case Success(rows) => Response(200, DataBody(rows))
  }

  /** The handler answers 500 exactly when the fetch failed, the upstream
      status was not ok, or the body had no non-blank line; otherwise it
      answers with the parsed rows. */
  lemma HandleOutcomes(up: Upstream)
    ensures Handle(up).status == 500 <==>
      up.Unreachable? || !up.ok || forall l :: l in Split(up.text, '\n') ==> AllWhite(l)
    ensures up.Reply? && !up.ok ==> Handle(up) == Response(500, ErrorBody("Failed to fetch CSV: " + up.statusText))
    ensures Handle(up).status == 200 ==> Success(Handle(up).body.data) == ParseCsv(up.text)
  {
    if up.Reply? {
      ParseCsvFailsIff(up.text);
    }
  }
}
