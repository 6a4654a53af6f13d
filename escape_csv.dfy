/**
 * The line field splitter of cmd/escape-csv: one text line is cut into cells.
 * A cell is either "simple" (everything up to the next comma) or "complex"
 * (it starts with `{` or `[` and runs to the bracket that empties a stack of
 * open brackets).
 */
module EscapeCsv {
  import opened Wrappers

  /** The error value a reader returns: nil (NoError), io.EOF, or an error with a message. */
  datatype Status = NoError | Eof | Error(message: string)

  /** The triple (field, rest, err) every reader returns. */
  datatype Scanned = Scanned(field: string, rest: string, status: Status)

  const Unbalanced: string := "unbalanced parentheses"

  predicate IsOpener(c: char) {
    c == '{' || c == '['
  }

  // ---------------------------------------------------------------------------
  // Simple fields
  // ---------------------------------------------------------------------------

  /** Position of the first comma of `s`, as strings.SplitN(s, ",", 2) finds it. */
  function FirstComma(s: string): (r: Option<nat>)
    ensures r.Some? ==> r.value < |s| && s[r.value] == ',' && ',' !in s[..r.value]
    ensures r.None? <==> ',' !in s
  {
    if s == [] then None
    else if s[0] == ',' then Some(0)
    else
      match FirstComma(s[1..])
      case None => None
      case Some(k) =>
        assert s[..k + 1] == [s[0]] + s[1..][..k];
        Some(k + 1)
  }

  /**
   * readSimpleField: the field is the text before the first comma and the
   * rest the text after it; without a comma the whole line is the field and
   * the status is EOF. (SplitN with a limit of 2 never yields zero parts, so
   * the source's default branch cannot be taken and has no counterpart here.)
   */
  function ReadSimpleField(line: string): (r: Scanned)
    ensures ',' in line ==>
              && r.status == NoError
              && ',' !in r.field
              && line == r.field + "," + r.rest
    ensures ',' !in line ==> r == Scanned(line, "", Eof)
  {
    match FirstComma(line)
    case None => Scanned(line, "", Eof)
    case Some(k) =>
      assert line == line[..k] + "," + line[k + 1..];
      Scanned(line[..k], line[k + 1..], NoError)
  }

  // ---------------------------------------------------------------------------
  // Complex fields
  // ---------------------------------------------------------------------------

  /**
   * One step of the bracket stack: an opener is pushed; `}` pops only a `{`
   * on top and `]` only a `[`; every other character, a mismatched closer
   * included, leaves the stack as it is.
   */
  function BracketStep(stack: seq<char>, c: char): (r: seq<char>)
    requires stack != []
    ensures IsOpener(c) ==> r == stack + [c]
    ensures (c == '}' && stack[|stack| - 1] == '{') || (c == ']' && stack[|stack| - 1] == '[') ==> r == stack[..|stack| - 1]
    ensures !IsOpener(c) && !((c == '}' && stack[|stack| - 1] == '{') || (c == ']' && stack[|stack| - 1] == '[')) ==> r == stack
  {
    var top := stack[|stack| - 1];
    if IsOpener(c) then stack + [c]
    else if (c == '}' && top == '{') || (c == ']' && top == '[') then stack[..|stack| - 1]
    else stack
  }

  /**
   * The bracket stack after reading the first n characters of a complex
   * field: seeded with line[0], then one BracketStep per character. Once
   * empty it stays empty (the scanner stops there).
   */
  function StackAt(line: string, n: nat): seq<char>
    requires 1 <= n <= |line|
  {
    if n == 1 then [line[0]]
    else
      var s := StackAt(line, n - 1);
      if s == [] then [] else BracketStep(s, line[n - 1])
  }

  /**
   * The shortest length n >= from whose prefix empties the bracket stack,
   * if any.
   */
  function FirstBalanced(line: string, from: nat): (r: Option<nat>)
    requires 1 <= from <= |line|
    decreases |line| - from
    ensures r.Some? ==>
              && from <= r.value <= |line|
              && StackAt(line, r.value) == []
              && forall j :: from <= j < r.value ==> StackAt(line, j) != []
    ensures r.None? ==> forall j :: from <= j <= |line| ==> StackAt(line, j) != []
  {
    if StackAt(line, from) == [] then Some(from)
    else if from == |line| then None
    else FirstBalanced(line, from + 1)
  }

  /**
   * What readComplexField returns: the shortest prefix of the line that
   * empties the bracket stack (see ComplexFieldIsShortestBalancedPrefix),
   * followed either by the end of the line or by a comma that separates it
   * from the rest. The status is never EOF; failure carries the message
   * "unbalanced parentheses" and empty strings.
   */
  function ComplexField(line: string): (r: Scanned)
    requires line != [] && IsOpener(line[0])
    ensures r.status != Eof
    ensures r.status == NoError ==>
              && 2 <= |r.field| <= |line|
              && ((r.field == line && r.rest == "") || line == r.field + "," + r.rest)
    ensures r.status.Error? ==> r == Scanned("", "", Error(Unbalanced))
  {
    match FirstBalanced(line, 1)
    case None => Scanned("", "", Error(Unbalanced))
    case Some(n) =>
      if n == |line| then
        assert line[..n] == line;
        Scanned(line, "", NoError)
      else if line[n] == ',' then
        assert line == line[..n] + "," + line[n + 1..];
        Scanned(line[..n], line[n + 1..], NoError)
      else
        Scanned("", "", Error(Unbalanced))
  }

  /**
   * A complex field is read successfully exactly when some prefix empties the
   * bracket stack and the shortest such prefix is followed by the end of the
   * line or by a comma; that prefix is then the field. Otherwise the read
   * fails: the stack never empties (`{"a":1`), or a character other than a
   * comma follows the closing bracket.
   */
  lemma ComplexFieldIsShortestBalancedPrefix(line: string)
    requires line != [] && IsOpener(line[0])
    ensures var r := ComplexField(line);
            r.status == NoError ==>
              && r.field == line[..|r.field|]
              && StackAt(line, |r.field|) == []
              && forall j :: 1 <= j < |r.field| ==> StackAt(line, j) != []
    ensures var r := ComplexField(line);
            r.status.Error? <==>
              || (forall j :: 1 <= j <= |line| ==> StackAt(line, j) != [])
              || (exists n :: 1 <= n < |line| && StackAt(line, n) == []
                             && (forall j :: 1 <= j < n ==> StackAt(line, j) != [])
                             && line[n] != ',')
  {
    var fb := FirstBalanced(line, 1);
    if fb.Some? {
      var n := fb.value;
      if n < |line| && line[n] != ',' {
        assert StackAt(line, n) == [];
      }
    }
  }

  /**
   * readComplexField: scans from index 1 with an explicit stack seeded with
   * the opening character, and stops where the stack empties.
   */
  method ReadComplexField(line: string) returns (field: string, rest: string, status: Status)
    requires line != [] && IsOpener(line[0])
    ensures Scanned(field, rest, status) == ComplexField(line)
  {
    var stack := [line[0]];
    var i := 1;
    while i < |line|
      invariant 1 <= i <= |line|
      invariant stack != [] && stack == StackAt(line, i)
      invariant forall j :: 1 <= j <= i ==> StackAt(line, j) != []
    {
      var c := line[i];
      var top := stack[|stack| - 1];
      if c == '{' || c == '[' {
        stack := stack + [c];
      } else if (c == '}' && top == '{') || (c == ']' && top == '[') {
        stack := stack[..|stack| - 1];
      }
      assert stack == BracketStep(StackAt(line, i), c) == StackAt(line, i + 1);
      if |stack| == 0 {
        assert FirstBalanced(line, 1) == Some(i + 1);
        var next := i + 1;
        if next == |line| {
          return line[0..next], "", NoError;
        } else if line[next] == ',' {
          return line[0..next], line[i + 2..], NoError;
        } else {
          return "", "", Error(Unbalanced);
        }
      }
      i := i + 1;
    }
    return "", "", Error(Unbalanced);
  }

  // ---------------------------------------------------------------------------
  // Fields and lines
  // ---------------------------------------------------------------------------

  /**
   * What readField returns: EOF with an empty field on an empty line, a
   * complex field when the line starts with an opener, a simple field
   * otherwise. Whenever it reports success the rest is strictly shorter,
   * which is why processLine terminates.
   */
  function NextField(line: string): (r: Scanned)
    ensures line == "" ==> r == Scanned("", "", Eof)
    ensures r.status == NoError ==> |r.rest| < |line|
    ensures r.status.Error? ==> line != "" && IsOpener(line[0]) && r.status.message == Unbalanced
  {
    if |line| == 0 then Scanned("", "", Eof)
    else if IsOpener(line[0]) then ComplexField(line)
    else ReadSimpleField(line)
  }

  /** readField: dispatch on the first character. */
  method ReadField(line: string) returns (field: string, rest: string, status: Status)
    ensures Scanned(field, rest, status) == NextField(line)
  {
    if |line| == 0 {
      return "", "", Eof;
    }
    if line[0] == '{' || line[0] == '[' {
      field, rest, status := ReadComplexField(line);
    } else {
      var r := ReadSimpleField(line);
      field, rest, status := r.field, r.rest, r.status;
    }
  }

  /**
   * The row processLine writes for a line, or None when the line is skipped
   * because some field failed. Every field read is appended, the EOF one
   * included.
   */
  function Cells(line: string): (r: Option<seq<string>>)
    decreases |line|
    ensures line == "" ==> r == Some([""])
    ensures r.Some? ==> |r.value| >= 1
  {
    var f := NextField(line);
    match f.status
    case Eof => Some([f.field])
    case Error(_) => None
    case NoError => Prefixed([f.field], Cells(f.rest))
  }

  /** Cells already collected in front of the row of the rest; a dropped rest drops the line. */
  function Prefixed(cells: seq<string>, row: Option<seq<string>>): Option<seq<string>> {
    match row
    case None => None
    case Some(cs) => Some(cells + cs)
  }

  lemma PrefixedTwice(a: seq<string>, b: seq<string>, row: Option<seq<string>>)
    ensures Prefixed(a, Prefixed(b, row)) == Prefixed(a + b, row)
  {
    if row.Some? {
      assert a + (b + row.value) == (a + b) + row.value;
    }
  }

  /**
   * processLine: reads fields until EOF, appending each to `cells`; on any
   * other error the line is dropped and nothing is written. The written row
   * is returned (the csv.Writer itself is not part of this model).
   */
  method ProcessLine(line: string) returns (written: Option<seq<string>>)
    ensures written == Cells(line)
  {
    var cells: seq<string> := [];
    var remaining := line;
    assert Prefixed(cells, Cells(remaining)) == Cells(line) by {
      PrefixedTwice([], [], Cells(line));
      if Cells(line).Some? {
        assert [] + Cells(line).value == Cells(line).value;
      }
    }
    while true
      invariant Cells(line) == Prefixed(cells, Cells(remaining))
      decreases |remaining|
    {
      var cell, next, err := ReadField(remaining);
      if err == Eof {
        assert Cells(remaining) == Some([cell]);
        cells := cells + [cell];
        break;
      }
      if err != NoError {
        assert Cells(remaining) == None;
        return None;
      }
      assert Cells(remaining) == Prefixed([cell], Cells(next));
      PrefixedTwice(cells, [cell], Cells(next));
      remaining := next;
      cells := cells + [cell];
    }
    written := Some(cells);
  }

  // ---------------------------------------------------------------------------
  // Properties of whole lines
  // ---------------------------------------------------------------------------

  /** A complex field that spans the whole line: the shortest prefix emptying the stack is the line itself. */
  ghost predicate WholeComplexField(line: string)
  {
    && line != [] && IsOpener(line[0])
    && StackAt(line, |line|) == []
    && forall j :: 1 <= j < |line| ==> StackAt(line, j) != []
  }

  /**
   * A line whose only field is complex gets a second, empty cell: after the
   * complex field the rest is "", and readField("") appends "" before EOF.
   */
  lemma ComplexLineGetsEmptyTrailingCell(line: string)
    requires WholeComplexField(line)
    ensures Cells(line) == Some([line, ""])
  {
    assert FirstBalanced(line, 1) == Some(|line|);
    assert ComplexField(line) == Scanned(line, "", NoError);
    assert NextField(line) == Scanned(line, "", NoError);
    assert Cells("") == Some([""]);
    assert Cells(line) == Some([line] + [""]);
    assert [line] + [""] == [line, ""];
  }

  /** Number of commas in a string. */
  function CommaCount(s: string): nat {
    multiset(s)[',']
  }

  /** The cells joined back together with commas. */
  function Join(cells: seq<string>): string
    decreases |cells|
  {
    if cells == [] then ""
    else if |cells| == 1 then cells[0]
    else cells[0] + "," + Join(cells[1..])
  }

  /** No comma-separated segment of the line starts with `{` or `[`. */
  predicate AllSimple(line: string) {
    && (line == "" || !IsOpener(line[0]))
    && forall i :: 0 <= i < |line| - 1 && line[i] == ',' ==> !IsOpener(line[i + 1])
  }

  /** The segments after a comma of an all-simple line are all simple too. */
  lemma AllSimpleAfterComma(line: string, k: nat)
    requires AllSimple(line) && k < |line| && line[k] == ','
    ensures AllSimple(line[k + 1..])
  {
    var rest := line[k + 1..];
    forall i | 0 <= i < |rest| - 1 && rest[i] == ','
      ensures !IsOpener(rest[i + 1])
    {
      assert rest[i] == line[k + 1 + i] && rest[i + 1] == line[k + 2 + i];
    }
  }

  /**
   * One successful field followed by the cells of the rest; when the rest
   * fails, the whole line is dropped, the field already read included.
   */
  lemma CellsUnfold(line: string)
    requires NextField(line).status == NoError
    ensures Cells(NextField(line).rest).Some? ==>
              Cells(line) == Some([NextField(line).field] + Cells(NextField(line).rest).value)
    ensures Cells(NextField(line).rest).None? ==> Cells(line) == None
  {
    assert Cells(line) == Prefixed([NextField(line).field], Cells(NextField(line).rest));
  }

  /**
   * On a line of simple fields only, the row has one cell more than the line
   * has commas, and joining the cells with commas gives the line back.
   */
  lemma {:induction false} AllSimpleLineRoundTrip(line: string)
    requires AllSimple(line)
    ensures Cells(line).Some?
    ensures |Cells(line).value| == CommaCount(line) + 1
    ensures Join(Cells(line).value) == line
    decreases |line|
  {
    if ',' !in line {
      assert NextField(line) == Scanned(line, "", Eof);
      assert CommaCount(line) == 0;
    } else {
      var f := NextField(line);
      assert f == ReadSimpleField(line);
      var k := |f.field|;
      assert line == f.field + "," + f.rest;
      assert f.rest == line[k + 1..];
      AllSimpleAfterComma(line, k);
      AllSimpleLineRoundTrip(f.rest);
      var cs := Cells(f.rest).value;
      CellsUnfold(line);
      assert ([f.field] + cs)[1..] == cs;
      assert multiset(line) == multiset(f.field) + multiset(",") + multiset(f.rest);
    }
  }

  /**
   * Proof helper, not a separate model of the source: the bracket scan
   * carried forward with its current stack, which lets the example lemmas
   * below evaluate FirstBalanced on a concrete line one character at a time
   * (ScanFromAgrees shows the two agree).
   */
  function ScanFrom(line: string, i: nat, stack: seq<char>): Option<nat>
    requires 1 <= i <= |line| && stack != []
    decreases |line| - i
  {
    if i == |line| then None
    else
      var s := BracketStep(stack, line[i]);
      if s == [] then Some(i + 1) else ScanFrom(line, i + 1, s)
  }

  lemma {:induction false} ScanFromAgrees(line: string, i: nat, stack: seq<char>)
    requires 1 <= i <= |line| && stack != []
    requires stack == StackAt(line, i)
    ensures ScanFrom(line, i, stack) == FirstBalanced(line, i)
    decreases |line| - i
  {
    if i < |line| {
      var s := BracketStep(stack, line[i]);
      if s != [] {
        ScanFromAgrees(line, i + 1, s);
      }
    }
  }

  /** The complex read of a line, with its balanced prefix computed by the incremental scan. */
  lemma ComplexScanAgrees(line: string)
    requires line != [] && IsOpener(line[0])
    ensures NextField(line) == ComplexField(line)
    ensures FirstBalanced(line, 1) == ScanFrom(line, 1, [line[0]])
  {
    ScanFromAgrees(line, 1, [line[0]]);
  }

  /** A line that is one complex field: `{"a":1}` gives the cells `{"a":1}` and "". */
  lemma TrailingComplexFieldExample()
    ensures Cells("{\"a\":1}") == Some(["{\"a\":1}", ""])
  {
    var l := "{\"a\":1}";
    assert FirstBalanced(l, 1) == Some(7) by {
      ComplexScanAgrees(l);
      assert ScanFrom(l, 1, ['{']) == Some(7);
    }
    assert NextField(l) == Scanned(l, "", NoError);
    CellsUnfold(l);
    assert [l] + [""] == [l, ""];
  }

  /** The stack after j characters depends only on those characters. */
  lemma {:induction false} StackAtPrefix(line: string, p: string, j: nat)
    requires |p| <= |line| && line[..|p|] == p
    requires 1 <= j <= |p|
    ensures StackAt(line, j) == StackAt(p, j)
  {
    assert line[j - 1] == p[j - 1] && line[0] == p[0];
    if j > 1 {
      StackAtPrefix(line, p, j - 1);
    }
  }

  /**
   * A complex field followed by a comma contributes exactly itself: no empty
   * cell is inserted, and the rest of the line is split on its own. A rest
   * that fails drops the whole line, this field included.
   */
  lemma ComplexFieldThenRest(f: string, rest: string)
    requires WholeComplexField(f)
    ensures Cells(rest).Some? ==> Cells(f + "," + rest) == Some([f] + Cells(rest).value)
    ensures Cells(rest).None? ==> Cells(f + "," + rest) == None
  {
    var line := f + "," + rest;
    assert line[..|f|] == f;
    forall j | 1 <= j <= |f|
      ensures StackAt(line, j) == StackAt(f, j)
    {
      StackAtPrefix(line, f, j);
    }
    assert FirstBalanced(line, 1) == Some(|f|);
    assert line[|f|] == ',' && line[|f| + 1..] == rest;
    assert NextField(line) == Scanned(f, rest, NoError);
  }

  /** An unclosed complex field drops the line. */
  lemma UnclosedFieldExample()
    ensures Cells("{\"a\":1") == None
  {
    var l := "{\"a\":1";
    ComplexScanAgrees(l);
    assert ScanFrom(l, 1, ['{']) == None;
  }
}
