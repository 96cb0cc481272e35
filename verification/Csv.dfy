/**
 The CSV writer, and a reader that follows the grammar in section 2 of RFC 4180. Reading undoes writing.
 */
module Csv {
  import opened Text

  const CRLF := "\r\n"

  /**
   A cell after the column's formatter has run: null or undefined; a number or boolean, as String prints
   it; any other value, as the text it is turned into.
   */
  datatype Cell = Missing | Plain(text: string) | Textual(text: string)

  function Stringified(cell: Cell): string {
    if cell.Missing? then "" else cell.text
  }

  predicate IsSpecial(c: char) {
    c in {',', '"', '\n', '\r'}
  }

  predicate HasSpecial(s: string) {
    exists i :: 0 <= i < |s| && IsSpecial(s[i])
  }

  /** replace(/"/g, '""') */
  function DoubleQuotes(s: string): (r: string)
    ensures |r| >= |s|
  {
    if s == "" then "" else (if s[0] == '"' then "\"\"" else [s[0]]) + DoubleQuotes(s[1..])
  }

  function EscapeText(s: string): string {
    if HasSpecial(s) then "\"" + DoubleQuotes(s) + "\"" else s
  }

  function EscapeCsvCell(cell: Cell): string {
    match cell
    case Missing => ""
    case Plain(text) => text
    case Textual(text) => EscapeText(text)
  }

  function Escaped(texts: seq<string>): (r: seq<string>)
    ensures |r| == |texts| && forall i :: 0 <= i < |texts| ==> r[i] == EscapeText(texts[i])
  {
    seq(|texts|, i requires 0 <= i < |texts| => EscapeText(texts[i]))
  }

  function EscapedRow(row: seq<Cell>): (r: seq<string>)
    ensures |r| == |row| && forall i :: 0 <= i < |row| ==> r[i] == EscapeCsvCell(row[i])
  {
    seq(|row|, i requires 0 <= i < |row| => EscapeCsvCell(row[i]))
  }

  function Line(texts: seq<string>): string {
    Join(Escaped(texts), ",")
  }

  function RowLine(row: seq<Cell>): string {
    Join(EscapedRow(row), ",")
  }

  function RowLines(data: seq<seq<Cell>>): (r: seq<string>)
    ensures |r| == |data| && forall i :: 0 <= i < |data| ==> r[i] == RowLine(data[i])
  {
    seq(|data|, i requires 0 <= i < |data| => RowLine(data[i]))
  }

  function BuildCsvString(header: seq<string>, data: seq<seq<Cell>>): string {
    var headerLine := Line(header);
    if data == [] then headerLine else Join([headerLine] + RowLines(data), CRLF)
  }

  // What is written.

  /** A text is quoted exactly when it has a comma, a quote or a line break; other cells never are. */
  lemma QuotedWhenNeeded(s: string)
    ensures (forall c :: c in s ==> c != ',' && c != '"' && c != '\n' && c != '\r') <==> EscapeText(s) == s
    ensures EscapeText(s) != s ==>
              var r := EscapeText(s); |r| >= |s| + 2 && r[0] == '"' && r[|r| - 1] == '"'
    ensures EscapeCsvCell(Plain(s)) == s && EscapeCsvCell(Missing) == ""
  {
    if HasSpecial(s) {
      assert |EscapeText(s)| > |s|;
      var i :| 0 <= i < |s| && IsSpecial(s[i]);
      assert s[i] in s;
    }
  }

  lemma JoinTwo(a: string, b: string, sep: string)
    ensures Join([a, b], sep) == a + sep + b
  {
    assert [a, b][1..] == [b];
  }

  /** Cells are separated by commas, lines by CRLF. */
  lemma TwoByTwo(a: string, b: string, c: Cell, d: Cell)
    ensures BuildCsvString([a, b], [[c, d]])
            == EscapeText(a) + "," + EscapeText(b) + "\r\n" + EscapeCsvCell(c) + "," + EscapeCsvCell(d)
    ensures BuildCsvString([a, b], []) == EscapeText(a) + "," + EscapeText(b)
  {
    hide EscapeText, EscapeCsvCell;
    assert Escaped([a, b]) == [EscapeText(a), EscapeText(b)];
    assert EscapedRow([c, d]) == [EscapeCsvCell(c), EscapeCsvCell(d)];
    JoinTwo(EscapeText(a), EscapeText(b), ",");
    JoinTwo(EscapeCsvCell(c), EscapeCsvCell(d), ",");
    JoinTwo(Line([a, b]), RowLine([c, d]), CRLF);
    assert RowLines([[c, d]]) == [RowLine([c, d])];
    assert [Line([a, b])] + RowLines([[c, d]]) == [Line([a, b]), RowLine([c, d])];
  }

  // The reader. None: the text is not in the grammar.

  /** The rest of a quoted field after its opening quote: the text, and what follows the closing quote. */
  function ReadQuoted(s: string): (r: Option<(string, string)>)
    ensures r.Some? ==> |r.value.1| < |s|
    decreases |s|
  {
    if s == "" then None
    else if s[0] != '"' then
      match ReadQuoted(s[1..])
      case Some((text, rest)) => Some(([s[0]] + text, rest))
      case None => None
    else if |s| >= 2 && s[1] == '"' then
      match ReadQuoted(s[2..])
      case Some((text, rest)) => Some(("\"" + text, rest))
      case None => None
    else Some(("", s[1..]))
  }

  function ReadBare(s: string): (r: (string, string))
    ensures |r.1| <= |s|
  {
    if s == "" || IsSpecial(s[0]) then ("", s)
    else
      var (text, rest) := ReadBare(s[1..]);
      ([s[0]] + text, rest)
  }

  function ReadField(s: string): (r: Option<(string, string)>)
    ensures r.Some? ==> |r.value.1| <= |s|
  {
    if s != "" && s[0] == '"' then ReadQuoted(s[1..]) else Some(ReadBare(s))
  }

  function ReadRecord(s: string): (r: Option<(seq<string>, string)>)
    ensures r.Some? ==> |r.value.0| >= 1 && |r.value.1| <= |s|
    decreases |s|
  {
    match ReadField(s)
    case None => None
    case Some((text, rest)) =>
      if rest != "" && rest[0] == ',' then
        match ReadRecord(rest[1..])
        case Some((texts, end)) => Some(([text] + texts, end))
        case None => None
      else Some(([text], rest))
  }

  /**
   A file as records separated by CRLF. With `terminated`, a CRLF at the very end closes the last record
   instead of opening another.
   */
  function ReadFile(s: string, terminated: bool): Option<seq<seq<string>>>
    decreases |s|
  {
    match ReadRecord(s)
    case None => None
    case Some((record, rest)) =>
      if rest == "" || (terminated && rest == CRLF) then Some([record])
      else if CRLF <= rest then
        match ReadFile(rest[2..], terminated)
        case Some(records) => Some([record] + records)
        case None => None
      else None
  }

  // Reading undoes writing, from quoted text up to the file.

  /** What may follow a field. */
  predicate EndsField(rest: string) {
    rest == "" || rest[0] == ',' || CRLF <= rest
  }

  lemma {:induction false} ReadDoubled(s: string, rest: string)
    requires EndsField(rest)
    ensures ReadQuoted(DoubleQuotes(s) + ("\"" + rest)) == Some((s, rest))
  {
    var t := "\"" + rest;
    if s == "" {
      assert DoubleQuotes(s) + t == t && t[1..] == rest;
    } else {
      ReadDoubled(s[1..], rest);
      var tail := DoubleQuotes(s[1..]) + t;
      assert s == [s[0]] + s[1..];
      if s[0] == '"' {
        assert DoubleQuotes(s) + t == "\"\"" + tail;
        assert ("\"\"" + tail)[2..] == tail;
      } else {
        assert DoubleQuotes(s) + t == [s[0]] + tail;
        assert ([s[0]] + tail)[1..] == tail;
      }
    }
  }

  lemma {:induction false} ReadBareText(s: string, rest: string)
    requires !HasSpecial(s) && EndsField(rest)
    ensures ReadBare(s + rest) == (s, rest)
  {
    if s == "" {
      assert s + rest == rest;
    } else {
      assert IsSpecial(s[0]) ==> HasSpecial(s);
      assert [s[0]] + s[1..] == s;
      forall i | 0 <= i < |s[1..]| ensures !IsSpecial(s[1..][i]) {
        assert s[1..][i] == s[i + 1];
      }
      assert (s + rest)[1..] == s[1..] + rest;
      ReadBareText(s[1..], rest);
    }
  }

  lemma ReadEscaped(s: string, rest: string)
    requires EndsField(rest)
    ensures ReadField(EscapeText(s) + rest) == Some((s, rest))
  {
    if HasSpecial(s) {
      var body := DoubleQuotes(s) + ("\"" + rest);
      assert EscapeText(s) + rest == "\"" + body;
      ReadDoubled(s, rest);
    } else {
      ReadBareText(s, rest);
      assert s != "" ==> !IsSpecial(s[0]);
      assert s == "" ==> s + rest == rest;
    }
  }

  lemma {:induction false} ReadLine(texts: seq<string>, rest: string)
    requires |texts| >= 1 && (rest == "" || CRLF <= rest)
    ensures ReadRecord(Line(texts) + rest) == Some((texts, rest))
    decreases |texts|
  {
    hide ReadField, EscapeText;
    var cells := Escaped(texts);
    if |texts| == 1 {
      assert texts == [texts[0]];
      ReadEscaped(texts[0], rest);
    } else {
      var more := Line(texts[1..]);
      assert cells[1..] == Escaped(texts[1..]);
      assert Line(texts) + rest == EscapeText(texts[0]) + ("," + (more + rest));
      ReadEscaped(texts[0], "," + (more + rest));
      assert ("," + (more + rest))[1..] == more + rest;
      ReadLine(texts[1..], rest);
      assert [texts[0]] + texts[1..] == texts;
    }
  }

  function Lines(records: seq<seq<string>>): (r: seq<string>)
    ensures |r| == |records| && forall i :: 0 <= i < |records| ==> r[i] == Line(records[i])
  {
    seq(|records|, i requires 0 <= i < |records| => Line(records[i]))
  }

  predicate EndsInEmptyRecord(records: seq<seq<string>>) {
    |records| > 1 && records[|records| - 1] == [""]
  }

  lemma ReadFirst(texts: seq<string>, more: string, terminated: bool)
    requires |texts| >= 1
    ensures ReadFile(Line(texts) + (CRLF + more), terminated) ==
            if terminated && more == "" then Some([texts])
            else match ReadFile(more, terminated)
              case Some(records) => Some([texts] + records)
              case None => None
  {
    hide ReadRecord, Line;
    ReadLine(texts, CRLF + more);
    assert (CRLF + more)[2..] == more;
    assert CRLF + more == CRLF <==> more == "";
  }

  lemma JoinStep(lines: seq<string>)
    requires |lines| >= 1
    ensures Join(lines, CRLF) == if |lines| == 1 then lines[0] else lines[0] + (CRLF + Join(lines[1..], CRLF))
  {
  }

  lemma LastLine(texts: seq<string>, terminated: bool)
    requires |texts| >= 1
    ensures ReadFile(Line(texts), terminated) == Some([texts])
  {
    hide ReadRecord, Line;
    ReadLine(texts, "");
    assert Line(texts) + "" == Line(texts);
  }

  /** Only a lone empty text is written as nothing. */
  lemma NothingWritten(records: seq<seq<string>>)
    requires |records| >= 1 && forall i :: 0 <= i < |records| ==> |records[i]| >= 1
    ensures Join(Lines(records), CRLF) == "" <==> records == [[""]]
  {
    var texts := records[0];
    if |texts| == 1 {
      assert Line(texts) == EscapeText(texts[0]);
      assert EscapeText(texts[0]) == "" <==> texts[0] == "";
    }
    assert texts == [""] <==> |texts| == 1 && texts[0] == "";
  }

  /**
   The reader that takes a final CRLF for a terminator loses a last record that is one empty text, and nothing
   else.
   */
  lemma {:induction false} ReadLines(records: seq<seq<string>>, terminated: bool)
    requires |records| >= 1 && forall i :: 0 <= i < |records| ==> |records[i]| >= 1
    ensures ReadFile(Join(Lines(records), CRLF), terminated)
         == Some(if terminated && EndsInEmptyRecord(records) then records[..|records| - 1] else records)
    decreases |records|
  {
    hide ReadRecord, Line, ReadFile, Lines, Join;
    var lines := Lines(records);
    JoinStep(lines);
    if |records| == 1 {
      LastLine(records[0], terminated);
      assert records == [records[0]];
    } else {
      var rest := records[1..];
      assert lines[1..] == Lines(rest);
      ReadFirst(records[0], Join(Lines(rest), CRLF), terminated);
      ReadLines(rest, terminated);
      NothingWritten(rest);
      assert [records[0]] + rest == records;
      assert rest[|rest| - 1] == records[|records| - 1];
      assert [records[0]] + rest[..|rest| - 1] == records[..|records| - 1];
    }
  }

  function RowTexts(row: seq<Cell>): (r: seq<string>)
    ensures |r| == |row| && forall i :: 0 <= i < |row| ==> r[i] == Stringified(row[i])
  {
    seq(|row|, i requires 0 <= i < |row| => Stringified(row[i]))
  }

  /** The texts a table holds: the header and each row's stringified cells. */
  function TableTexts(header: seq<string>, data: seq<seq<Cell>>): (r: seq<seq<string>>)
    ensures |r| == |data| + 1 && r[0] == header && forall i :: 0 <= i < |data| ==> r[i + 1] == RowTexts(data[i])
  {
    [header] + seq(|data|, i requires 0 <= i < |data| => RowTexts(data[i]))
  }

  /** Rows are as wide as the header, and what String prints for numbers and booleans has no special character. */
  predicate IsTable(header: seq<string>, data: seq<seq<Cell>>) {
    forall i :: 0 <= i < |data| ==>
      |data[i]| == |header| && forall j :: 0 <= j < |header| ==> data[i][j].Plain? ==> !HasSpecial(data[i][j].text)
  }

  lemma OneLine(line: string)
    ensures Join([line], CRLF) == line
  {
  }

  lemma RowWritten(row: seq<Cell>)
    requires forall j :: 0 <= j < |row| ==> row[j].Plain? ==> !HasSpecial(row[j].text)
    ensures RowLine(row) == Line(RowTexts(row))
  {
    forall j | 0 <= j < |row| ensures EscapedRow(row)[j] == Escaped(RowTexts(row))[j] {
    }
    assert EscapedRow(row) == Escaped(RowTexts(row));
  }

  lemma Written(header: seq<string>, data: seq<seq<Cell>>)
    requires IsTable(header, data)
    ensures BuildCsvString(header, data) == Join(Lines(TableTexts(header, data)), CRLF)
  {
    hide Line, RowLine, RowTexts, TableTexts, RowLines, Lines, HasSpecial, Join;
    var lines := Lines(TableTexts(header, data));
    forall i | 0 <= i < |data| ensures RowLines(data)[i] == lines[i + 1] {
      RowWritten(data[i]);
    }
    assert lines == [Line(header)] + RowLines(data);
    assert data == [] ==> lines == [Line(header)];
    OneLine(Line(header));
  }

  lemma FirstRecordHasFields(s: string)
    ensures ReadFile(s, false).Some? ==> |ReadFile(s, false).value| >= 1 && |ReadFile(s, false).value[0]| >= 1
  {
  }

  /** Reading what was written gives back the header and the cells' texts, exactly when there is a column. */
  lemma RoundTrip(header: seq<string>, data: seq<seq<Cell>>)
    requires IsTable(header, data)
    ensures ReadFile(BuildCsvString(header, data), false) == Some(TableTexts(header, data)) <==> |header| >= 1
  {
    Written(header, data);
    if |header| >= 1 {
      ReadLines(TableTexts(header, data), false);
    } else {
      FirstRecordHasFields(BuildCsvString(header, data));
    }
  }

  lemma LastRecord(header: seq<string>, data: seq<seq<Cell>>)
    requires IsTable(header, data) && |header| >= 1
    ensures EndsInEmptyRecord(TableTexts(header, data)) <==>
            |header| == 1 && data != [] && Stringified(data[|data| - 1][0]) == ""
  {
    var records := TableTexts(header, data);
    if data != [] {
      var last := records[|records| - 1];
      assert last == [""] <==> |last| == 1 && last[0] == "";
    }
  }

  /**
   RFC 4180 also lets the last record end in a line break. A reader that allows this gives the table
   back except when its single column ends in an empty cell: that last row is lost.
   */
  lemma RoundTripTerminated(header: seq<string>, data: seq<seq<Cell>>)
    requires IsTable(header, data) && |header| >= 1
    ensures ReadFile(BuildCsvString(header, data), true) == Some(TableTexts(header, data))
       <==> !(|header| == 1 && data != [] && Stringified(data[|data| - 1][0]) == "")
  {
    hide BuildCsvString, ReadFile;
    Written(header, data);
    var records := TableTexts(header, data);
    ReadLines(records, true);
    LastRecord(header, data);
    assert EndsInEmptyRecord(records) ==> |records[..|records| - 1]| < |records|;
  }
}
