/** The KEY=VALUE file: the line parser, the export that writes the same format, and exactly which stored
    values survive being exported and parsed. */
module EnvFile {
  import opened Wrappers
  import opened Text

  // ----- one line -----

  predicate IsKeyChar(c: char) {
    'A' <= c <= 'Z' || '0' <= c <= '9' || c == '_'
  }

  predicate ValidKey(k: string) {
    k != "" && 'A' <= k[0] <= 'Z' && forall i :: 0 <= i < |k| ==> IsKeyChar(k[i])
  }

  predicate Quoted(v: string) {
    |v| >= 2 && v[0] == v[|v| - 1] && (v[0] == '"' || v[0] == '\'')
  }

  function Unquote(v: string): string {
    if Quoted(v) then v[1..|v| - 1] else v
  }

  datatype Line = Skip | Assign(key: string, value: string) | Malformed | BadKey

  function ReadLine(raw: string): Line {
    var line := Trim(raw);
    if line == "" || line[0] == '#' then Skip
    else
      var idx := IndexOf(line, '=');
      if idx <= 0 then Malformed
      else if !ValidKey(Trim(line[..idx])) then BadKey
      else Assign(Trim(line[..idx]), Unquote(Trim(line[idx + 1..])))
  }

  /** The outer quotes go and nothing else, only when both are there and alike. */
  lemma QuotesAloneGo(v: string)
    ensures Unquote("\"" + v + "\"") == v && Unquote("'" + v + "'") == v
    ensures Unquote(v) == v || v == "\"" + Unquote(v) + "\"" || v == "'" + Unquote(v) + "'"
  {
    var d, s := "\"" + v + "\"", "'" + v + "'";
    assert Quoted(d) && d[1..|d| - 1] == v && Quoted(s) && s[1..|s| - 1] == v;
    if Quoted(v) { assert v == [v[0]] + v[1..|v| - 1] + [v[|v| - 1]]; }
  }

  /** A line is blank or a comment, or holds no equals sign behind a key, or has a key and a value. */
  lemma ReadLineMeans(raw: string)
    ensures ReadLine(raw).Skip? <==> Trim(raw) == "" || Trim(raw)[0] == '#'
    ensures ReadLine(raw).Malformed? <==>
              Trim(raw) != "" && Trim(raw)[0] != '#' && ('=' !in Trim(raw) || Trim(raw)[0] == '=')
  {
    var line := Trim(raw);
    IndexOfFacts(line, '=');
    if IndexOf(line, '=') > 0 { assert line[0] in line[..IndexOf(line, '=')]; }
  }

  /** Key and value are the trimmed text around the first equals sign, the value without its quotes. */
  lemma AssignmentMeans(raw: string, key: string, rest: string)
    requires Trim(raw) == key + "=" + rest && key != "" && key[0] != '#' && '=' !in key
    ensures ReadLine(raw) == if ValidKey(Trim(key)) then Assign(Trim(key), Unquote(Trim(rest))) else BadKey
  {
    IndexOfFirst(key, '=', rest);
    var line := Trim(raw);
    assert line[..|key|] == key && line[|key| + 1..] == rest && line[0] == key[0];
  }

  // ----- the file -----

  /** Newline-terminated lines; a last line may lack its newline. The scanner also drops a carriage return at the
      end of a line, which trimming removes anyway. */
  function Lines(text: string): seq<string>
    decreases |text|
  {
    if text == "" then []
    else
      var k := IndexOf(text, '\n');
      if k < 0 then [text] else [text[..k]] + Lines(text[k + 1..])
  }

  function Unlines(lines: seq<string>): string
    decreases |lines|
  {
    if lines == [] then "" else lines[0] + "\n" + Unlines(lines[1..])
  }

  lemma OnlyLine(text: string)
    requires text != "" && IndexOf(text, '\n') < 0
    ensures text[|text| - 1] != '\n' && Unlines(Lines(text)) == text + "\n"
  {
    IndexOfFacts(text, '\n');
    assert text[|text| - 1] in text;
    UnlinesFirst(text, []);
    assert [text] + [] == [text] && text + "\n" + "" == text + "\n";
  }

  lemma CutAt(text: string, k: nat)
    requires k < |text| && text[k] == '\n'
    ensures text == text[..k] + "\n" + text[k + 1..]
  {
  }

  lemma UnlinesFirst(line: string, rest: seq<string>)
    ensures Unlines([line] + rest) == line + "\n" + Unlines(rest)
  {
    assert ([line] + rest)[1..] == rest;
  }

  /** The lines hold the whole text: each ended by a newline they give it back, with one more where the last line
      lacked its own. */
  lemma {:induction false} LinesHoldTheText(text: string)
    ensures Unlines(Lines(text)) == if text != "" && text[|text| - 1] != '\n' then text + "\n" else text
    decreases |text|
  {
    if text != "" {
      var k := IndexOf(text, '\n');
      if k < 0 {
        OnlyLine(text);
      } else {
        IndexOfFacts(text, '\n');
        CutAt(text, k);
        LinesHoldTheText(text[k + 1..]);
        UnlinesFirst(text[..k], Lines(text[k + 1..]));
        assert text[k + 1..] != "" ==> text[k + 1..][|text[k + 1..]| - 1] == text[|text| - 1];
      }
    }
  }

  function ReadLines(raw: seq<string>): (lines: seq<Line>)
    ensures |lines| == |raw|
  {
    seq(|raw|, i requires 0 <= i < |raw| => ReadLine(raw[i]))
  }

  datatype Reason = ExpectedKeyValue | InvalidKey | DuplicateKey
  datatype ParseError = ParseError(lineNo: nat, reason: Reason)
  type Values = map<string, string>

  /** Reading on from line `i` with the values collected so far. */
  function ParseFrom(lines: seq<Line>, i: nat, values: Values): Result<Values, ParseError>
    requires i <= |lines|
    decreases |lines| - i
  {
    if i == |lines| then Ok(values)
    else
      match lines[i]
      case Skip => ParseFrom(lines, i + 1, values)
      case Malformed => Err(ParseError(i + 1, ExpectedKeyValue))
      case BadKey => Err(ParseError(i + 1, InvalidKey))
      case Assign(key, value) =>
        if key in values then Err(ParseError(i + 1, DuplicateKey))
        else ParseFrom(lines, i + 1, values[key := value])
  }

  function Parse(text: string): Result<Values, ParseError> {
    ParseFrom(ReadLines(Lines(text)), 0, map[])
  }

  method ParseEnvFile(text: string) returns (r: Result<Values, ParseError>)
    ensures r == Parse(text)
  {
    var raw := Lines(text);
    ghost var lines := ReadLines(raw);
    var values: Values := map[];
    for i := 0 to |raw|
      invariant ParseFrom(lines, i, values) == ParseFrom(lines, 0, map[])
    {
      var line := Trim(raw[i]);
      assert lines[i] == ReadLine(raw[i]);
      if line == "" || line[0] == '#' { continue; }
      var idx := IndexOf(line, '=');
      if idx <= 0 { return Err(ParseError(i + 1, ExpectedKeyValue)); }
      var key := Trim(line[..idx]);
      if !ValidKey(key) { return Err(ParseError(i + 1, InvalidKey)); }
      if key in values { return Err(ParseError(i + 1, DuplicateKey)); }
      values := values[key := Unquote(Trim(line[idx + 1..]))];
    }
    r := Ok(values);
  }

  // ----- what a parse result means -----

  predicate Assigns(lines: seq<Line>, i: nat, key: string) {
    i < |lines| && lines[i].Assign? && lines[i].key == key
  }

  /** A line that cannot stand: not an assignment, a bad key, or a key some earlier line already set. */
  ghost predicate Offends(lines: seq<Line>, i: nat)
    requires i < |lines|
  {
    match lines[i]
    case Skip => false
    case Malformed => true
    case BadKey => true
    case Assign(key, _) => exists j: nat :: j < i && Assigns(lines, j, key)
  }

  /** The values are exactly what the first `i` lines assign. */
  ghost predicate Collected(lines: seq<Line>, i: nat, values: Values)
    requires i <= |lines|
  {
    && (forall j: nat :: j < i ==> !Offends(lines, j))
    && (forall key :: key in values ==> exists j: nat :: j < i && Assigns(lines, j, key))
    && (forall j: nat :: j < i && lines[j].Assign? ==>
          lines[j].key in values && values[lines[j].key] == lines[j].value)
  }

  lemma CollectOne(lines: seq<Line>, i: nat, values: Values)
    requires i < |lines| && Collected(lines, i, values) && !Offends(lines, i)
    ensures lines[i].Skip? ==> Collected(lines, i + 1, values)
    ensures lines[i].Assign? ==>
              lines[i].key !in values && Collected(lines, i + 1, values[lines[i].key := lines[i].value])
  {
    if lines[i].Assign? {
      var values' := values[lines[i].key := lines[i].value];
      forall key | key in values' ensures exists j: nat :: j < i + 1 && Assigns(lines, j, key) {
        if key == lines[i].key {
          assert Assigns(lines, i, key);
        } else {
          var j: nat :| j < i && Assigns(lines, j, key);
        }
      }
      forall j: nat | j < i + 1 && lines[j].Assign?
        ensures lines[j].key in values' && values'[lines[j].key] == lines[j].value
      {
        if j < i { assert Assigns(lines, j, lines[j].key); }
      }
    }
  }

  /** A file is accepted exactly when no line offends, and then holds exactly what its lines assign; otherwise the
      error names the first offending line. */
  lemma {:induction false} ParseMeans(lines: seq<Line>, i: nat, values: Values)
    requires i <= |lines| && Collected(lines, i, values)
    ensures match ParseFrom(lines, i, values)
            case Ok(result) => Collected(lines, |lines|, result)
            case Err(e) => i < e.lineNo <= |lines| && Offends(lines, e.lineNo - 1)
                           && forall j: nat :: j < e.lineNo - 1 ==> !Offends(lines, j)
    decreases |lines| - i
  {
    if i < |lines| && !Offends(lines, i) {
      CollectOne(lines, i, values);
      ParseMeans(lines, i + 1, if lines[i].Assign? then values[lines[i].key := lines[i].value] else values);
    }
  }

  // ----- the export -----

  datatype Row = Row(key: string, value: string)

  function LineOf(r: Row): string {
    r.key + "=" + r.value
  }

  function Render(rows: seq<Row>): string
    decreases |rows|
  {
    if rows == [] then "" else LineOf(rows[0]) + "\n" + Render(rows[1..])
  }

  method Export(rows: seq<Row>) returns (text: string)
    ensures text == Render(rows)
  {
    text := "";
    for i := 0 to |rows|
      invariant text + Render(rows[i..]) == Render(rows)
    {
      assert rows[i..][1..] == rows[i + 1..];
      assert text + (rows[i].key + "=" + rows[i].value + "\n" + Render(rows[i + 1..]))
          == text + (rows[i].key + "=" + rows[i].value + "\n") + Render(rows[i + 1..]);
      text := text + (rows[i].key + "=" + rows[i].value + "\n");
    }
    assert rows[|rows|..] == [] && text + "" == text;
  }

  /** The keys are the table's primary key and all match the key pattern. */
  predicate StoredRows(rows: seq<Row>) {
    && (forall i :: 0 <= i < |rows| ==> ValidKey(rows[i].key))
    && (forall i, j :: 0 <= i < j < |rows| ==> rows[i].key != rows[j].key)
  }

  ghost predicate Holds(values: Values, rows: seq<Row>) {
    && (forall i :: 0 <= i < |rows| ==> rows[i].key in values && values[rows[i].key] == rows[i].value)
    && (forall key :: key in values ==> exists i :: 0 <= i < |rows| && rows[i].key == key)
  }

  /** A value the format can carry: one line, no outer blanks, no matching outer quotes. */
  predicate Clean(v: string) {
    '\n' !in v && Trimmed(v) && !Quoted(v)
  }

  // ----- the lines of an export -----

  lemma {:induction false} LinesOfRender(rows: seq<Row>)
    requires StoredRows(rows) && forall i :: 0 <= i < |rows| ==> '\n' !in rows[i].value
    ensures |Lines(Render(rows))| == |rows|
    ensures forall i :: 0 <= i < |rows| ==> Lines(Render(rows))[i] == LineOf(rows[i])
    decreases |rows|
  {
    if rows != [] {
      var line, rest := LineOf(rows[0]), Render(rows[1..]);
      KeyHasNoBreak(rows[0].key);
      IndexOfFirst(line, '\n', rest);
      assert Render(rows) == line + ['\n'] + rest;
      assert Render(rows)[..|line|] == line && Render(rows)[|line| + 1..] == rest;
      LinesOfRender(rows[1..]);
    }
  }

  lemma KeyHasNoBreak(key: string)
    requires ValidKey(key)
    ensures '\n' !in key && '=' !in key && Trimmed(key)
  {
  }

  /** What the parser makes of one exported line. */
  lemma ReadsExportedLine(r: Row)
    requires ValidKey(r.key)
    ensures ReadLine(LineOf(r)) == Assign(r.key, Unquote(Trim(TrimRight(r.value))))
  {
    var line := LineOf(r);
    var head := r.key + "=";
    KeyHasNoBreak(r.key);
    assert line == head + r.value && line[0] == r.key[0];
    TrimRightAppend(head, r.value);
    assert Trim(line) == head + TrimRight(r.value);
    IndexOfFirst(r.key, '=', TrimRight(r.value));
    assert Trim(line)[..|r.key|] == r.key && Trim(line)[|r.key| + 1..] == TrimRight(r.value);
    TrimFixesExactlyTrimmed(r.key);
  }

  /** The parser's treatment of a value changes it exactly when it is not clean. */
  lemma ReadBackExactly(v: string)
    requires '\n' !in v
    ensures Unquote(Trim(TrimRight(v))) == v <==> Clean(v)
  {
    TrimRightFacts(v);
    TrimShortens(TrimRight(v));
    TrimFixesExactlyTrimmed(v);
    if Trimmed(v) { TrimRightFacts(v); TrimLeftFacts(v); }
  }

  // ----- which values survive -----

  lemma {:induction false} NoLineBreakInside(text: string)
    ensures forall i :: 0 <= i < |Lines(text)| ==> '\n' !in Lines(text)[i]
    decreases |text|
  {
    if text != "" {
      IndexOfFacts(text, '\n');
      var k := IndexOf(text, '\n');
      if k >= 0 { NoLineBreakInside(text[k + 1..]); }
    }
  }

  lemma ReadValueHasNoBreak(raw: string)
    requires '\n' !in raw
    ensures ReadLine(raw).Assign? ==> '\n' !in ReadLine(raw).value
  {
    TrimKeepsOut(raw, '\n');
    var line := Trim(raw);
    var idx := IndexOf(line, '=');
    if idx >= 0 {
      assert '\n' !in line[idx + 1..];
      TrimKeepsOut(line[idx + 1..], '\n');
    }
  }

  lemma ParsedValuesHaveNoBreak(text: string, key: string)
    requires Parse(text).Ok? && key in Parse(text).value
    ensures '\n' !in Parse(text).value[key]
  {
    var raw := Lines(text);
    var lines := ReadLines(raw);
    ParseMeans(lines, 0, map[]);
    var j: nat :| j < |lines| && Assigns(lines, j, key);
    NoLineBreakInside(text);
    ReadValueHasNoBreak(raw[j]);
    assert lines[j] == ReadLine(raw[j]);
  }

  lemma {:induction false} ReadsExport(rows: seq<Row>)
    requires StoredRows(rows) && forall i :: 0 <= i < |rows| ==> '\n' !in rows[i].value
    ensures var lines := ReadLines(Lines(Render(rows)));
      |lines| == |rows|
      && forall i :: 0 <= i < |rows| ==> lines[i] == Assign(rows[i].key, Unquote(Trim(TrimRight(rows[i].value))))
  {
    LinesOfRender(rows);
    forall i | 0 <= i < |rows|
      ensures ReadLines(Lines(Render(rows)))[i] == Assign(rows[i].key, Unquote(Trim(TrimRight(rows[i].value))))
    {
      ReadsExportedLine(rows[i]);
    }
  }

  lemma ReadBackIsClean(lines: seq<Line>, rows: seq<Row>, values: Values)
    requires |lines| == |rows| && Collected(lines, |lines|, values)
    requires forall i :: 0 <= i < |rows| ==>
               && '\n' !in rows[i].value
               && lines[i] == Assign(rows[i].key, Unquote(Trim(TrimRight(rows[i].value))))
               && rows[i].key in values && values[rows[i].key] == rows[i].value
    ensures forall i :: 0 <= i < |rows| ==> Clean(rows[i].value)
  {
    forall i | 0 <= i < |rows| ensures Clean(rows[i].value) {
      assert lines[i].value == rows[i].value;
      ReadBackExactly(rows[i].value);
    }
  }

  /** A text from which every exported value can be read back was exported from clean values. */
  lemma {:induction false} ReadBackNeedsClean(rows: seq<Row>)
    requires StoredRows(rows) && Parse(Render(rows)).Ok?
    requires var values := Parse(Render(rows)).value;
             forall i :: 0 <= i < |rows| ==> rows[i].key in values && values[rows[i].key] == rows[i].value
    ensures forall i :: 0 <= i < |rows| ==> Clean(rows[i].value)
  {
    var text := Render(rows);
    forall i | 0 <= i < |rows| ensures '\n' !in rows[i].value {
      ParsedValuesHaveNoBreak(text, rows[i].key);
    }
    ReadsExport(rows);
    ParseMeans(ReadLines(Lines(text)), 0, map[]);
    ReadBackIsClean(ReadLines(Lines(text)), rows, Parse(text).value);
  }

  /** Exporting stored rows and parsing the text gives exactly those rows if and only if every value is clean. */
  lemma {:induction false} ExportRoundTripsExactly(rows: seq<Row>)
    requires StoredRows(rows)
    ensures Parse(Render(rows)).Ok? && Holds(Parse(Render(rows)).value, rows)
            <==> forall i :: 0 <= i < |rows| ==> Clean(rows[i].value)
  {
    var lines := ReadLines(Lines(Render(rows)));
    var r := Parse(Render(rows));
    ParseMeans(lines, 0, map[]);
    if forall i :: 0 <= i < |rows| ==> '\n' !in rows[i].value {
      ReadsExport(rows);
      forall i | 0 <= i < |rows|
        ensures Unquote(Trim(TrimRight(rows[i].value))) == rows[i].value <==> Clean(rows[i].value)
      {
        ReadBackExactly(rows[i].value);
      }
      DistinctKeysParse(lines, rows);
    } else {
      var i :| 0 <= i < |rows| && '\n' in rows[i].value;
      if r.Ok? && rows[i].key in r.value { ParsedValuesHaveNoBreak(Render(rows), rows[i].key); }
    }
  }

  lemma {:induction false} DistinctKeysParse(lines: seq<Line>, rows: seq<Row>)
    requires StoredRows(rows) && |lines| == |rows|
    requires forall i :: 0 <= i < |rows| ==> lines[i].Assign? && lines[i].key == rows[i].key
    ensures ParseFrom(lines, 0, map[]).Ok?
    ensures Holds(ParseFrom(lines, 0, map[]).value, rows)
            <==> forall i :: 0 <= i < |rows| ==> lines[i].value == rows[i].value
  {
    ParseMeans(lines, 0, map[]);
    var r := ParseFrom(lines, 0, map[]);
    assert forall i: nat :: i < |lines| ==> !Offends(lines, i);
    assert r.Ok?;
    forall key | key in r.value ensures exists i :: 0 <= i < |rows| && rows[i].key == key {
      var j: nat :| j < |lines| && Assigns(lines, j, key);
    }
  }
}
