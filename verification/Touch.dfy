/** Native selection edits on a touch device, turned into keystrokes. */
module Touch {
  import opened Frames

  // The text sent on the command line is recorded, matched against the screen cell by
  // cell, and a selected range becomes cursor keys and one DEL per character. A line
  // editor that runs those bytes is the meaning they are checked against.

  const ESC: char := '\U{1b}'
  const DEL: char := '\U{7f}'
  const PASTE_BEGIN: string := "\U{1b}[200~"
  const PASTE_END: string := "\U{1b}[201~"

  // ---- The line editor ----

  datatype Editor = Editor(text: string, cursor: nat) {
    predicate Valid() {
      cursor <= |text|
    }
  }

  function Insert(ed: Editor, s: string): Editor
    requires ed.Valid()
  {
    Editor(ed.text[..ed.cursor] + s + ed.text[ed.cursor..], ed.cursor + |s|)
  }

  function Backspace(ed: Editor): Editor
    requires ed.Valid()
  {
    if ed.cursor == 0 then ed else Editor(ed.text[..ed.cursor - 1] + ed.text[ed.cursor..], ed.cursor - 1)
  }

  function Left(ed: Editor): Editor {
    if ed.cursor == 0 then ed else ed.(cursor := ed.cursor - 1)
  }

  function Right(ed: Editor): Editor {
    if ed.cursor >= |ed.text| then ed else ed.(cursor := ed.cursor + 1)
  }

  /** A control other than DEL; the editor has no text for it. */
  predicate IsControl(c: char) {
    c < ' ' || '\U{80}' <= c <= '\U{9f}'
  }

  /** Length of what precedes the first end-of-paste mark, or of everything. */
  function PasteLength(s: string): (n: nat)
    ensures n <= |s|
  {
    if s == "" || PASTE_END <= s then 0 else 1 + PasteLength(s[1..])
  }

  predicate IsArrow(s: string, final: char) {
    |s| >= 3 && s[0] == ESC && (s[1] == '[' || s[1] == 'O') && s[2] == final
  }

  /** What the editor holds after it reads these bytes. A bracketed paste is inserted as it stands. */
  function Run(ed: Editor, bytes: string): (r: Editor)
    requires ed.Valid()
    ensures r.Valid()
    decreases |bytes|
  {
    if bytes == "" then ed
    else if PASTE_BEGIN <= bytes then
      var rest := bytes[6..];
      var n := PasteLength(rest);
      Run(Insert(ed, rest[..n]), if |rest| < n + 6 then "" else rest[n + 6..])
    else if IsArrow(bytes, 'D') then Run(Left(ed), bytes[3..])
    else if IsArrow(bytes, 'C') then Run(Right(ed), bytes[3..])
    else if bytes[0] == DEL then Run(Backspace(ed), bytes[1..])
    else if IsControl(bytes[0]) then Run(ed, bytes[1..])
    else Run(Insert(ed, [bytes[0]]), bytes[1..])
  }

  // ---- Recording what was sent ----

  predicate IsPaste(data: string) {
    |data| >= 12 && PASTE_BEGIN <= data && data[|data| - 6..] == PASTE_END
  }

  /** The text between the marks of a paste. */
  function Pasted(data: string): string
    requires IsPaste(data)
  {
    data[6..|data| - 6]
  }

  function RecordChar(current: string, c: char): Option<string> {
    if c == DEL then Some(if current == "" then "" else current[..|current| - 1])
    else if IsControl(c) then None
    else Some(current + [c])
  }

  function RecordChars(current: string, data: string): Option<string>
    decreases |data|
  {
    if data == "" then Some(current)
    else if RecordChar(current, data[0]).None? then None
    else RecordChars(RecordChar(current, data[0]).value, data[1..])
  }

  /** None is the source's null: nothing can be said about the line until a reset. */
  function RecordTyped(current: Option<string>, data: string): Option<string> {
    if current.None? then None
    else if IsPaste(data) then RecordChars(current.value, Pasted(data))
    else if ESC in data then None
    else RecordChars(current.value, data)
  }

  lemma {:induction false} RecordSplits(current: string, data: string, i: nat)
    requires i < |data| && RecordChars(current, data[..i]).Some?
    ensures RecordChars(current, data[..i + 1]) == RecordChar(RecordChars(current, data[..i]).value, data[i])
    ensures RecordChars(current, data[..i + 1]).None? ==> RecordChars(current, data).None?
    decreases |data|
  {
    if i == 0 {
      assert data[..1] == [data[0]];
      assert data[..1][1..] == "";
    } else {
      assert data[..i][0] == data[0] && data[..i + 1][0] == data[0];
      assert data[..i][1..] == data[1..][..i - 1] && data[..i + 1][1..] == data[1..][..i];
      RecordSplits(RecordChar(current, data[0]).value, data[1..], i - 1);
    }
  }

  method RecordTypedText(current: Option<string>, sent: string) returns (recorded: Option<string>)
    ensures recorded == RecordTyped(current, sent)
  {
    if current.None? {
      return None;
    }
    var data := sent;
    if IsPaste(sent) {
      data := Pasted(sent);
    } else if ESC in sent {
      return None;
    }
    var text := current.value;
    var i := 0;
    while i < |data|
      invariant 0 <= i <= |data|
      invariant RecordChars(current.value, data[..i]) == Some(text)
    {
      RecordSplits(current.value, data, i);
      var c := data[i];
      if c == DEL {
        text := if text == "" then "" else text[..|text| - 1];
      } else if IsControl(c) {
        return None;
      } else {
        text := text + [c];
      }
      i := i + 1;
    }
    assert data[..|data|] == data;
    return Some(text);
  }

  // ---- The record is the editor's buffer ----

  /** Text a record can hold: no control, so no escape, and no DEL. */
  predicate Clean(s: string) {
    forall i :: 0 <= i < |s| ==> !IsControl(s[i]) && s[i] != DEL
  }

  function AtEnd(text: string): Editor {
    Editor(text, |text|)
  }

  lemma {:induction false} RecordStaysClean(current: string, data: string)
    requires Clean(current) && RecordChars(current, data).Some?
    ensures Clean(RecordChars(current, data).value)
    decreases |data|
  {
    if data != "" {
      RecordStaysClean(RecordChar(current, data[0]).value, data[1..]);
    }
  }

  lemma {:induction false} EditorTypes(current: string, data: string)
    requires RecordChars(current, data).Some?
    ensures Run(AtEnd(current), data) == AtEnd(RecordChars(current, data).value)
    decreases |data|
  {
    if data != "" {
      var next := RecordChar(current, data[0]).value;
      assert data[0] == DEL || !IsControl(data[0]);
      assert data[0] != ESC;
      var ed := AtEnd(current);
      assert Insert(ed, [data[0]]) == AtEnd(current + [data[0]]) by {
        assert current[..|current|] == current && current[|current|..] == "";
      }
      assert Backspace(ed) == AtEnd(if current == "" then "" else current[..|current| - 1]) by {
        assert current[|current|..] == "";
      }
      EditorTypes(next, data[1..]);
    }
  }

  lemma {:induction false} RecordedHasNoEscape(current: string, data: string)
    requires RecordChars(current, data).Some?
    ensures ESC !in data
    decreases |data|
  {
    if data != "" {
      RecordedHasNoEscape(RecordChar(current, data[0]).value, data[1..]);
      assert data == [data[0]] + data[1..];
    }
  }

  lemma {:induction false} PasteEndsAtMark(body: string)
    requires ESC !in body
    ensures PasteLength(body + PASTE_END) == |body|
  {
    var s := body + PASTE_END;
    if body == "" {
      assert s == PASTE_END;
    } else {
      assert s[0] == body[0] != ESC;
      PasteEndsAtMark(body[1..]);
      assert s[1..] == body[1..] + PASTE_END;
    }
  }

  lemma {:induction false} WithoutDelAppends(current: string, data: string)
    requires RecordChars(current, data).Some? && DEL !in data
    ensures RecordChars(current, data).value == current + data
    decreases |data|
  {
    if data != "" {
      WithoutDelAppends(current + [data[0]], data[1..]);
      assert data == [data[0]] + data[1..];
    }
  }

  lemma EditorPastes(current: string, data: string)
    requires IsPaste(data) && ESC !in Pasted(data)
    ensures Run(AtEnd(current), data) == AtEnd(current + Pasted(data))
  {
    var body := Pasted(data);
    var rest := data[6..];
    assert rest == body + PASTE_END;
    PasteEndsAtMark(body);
    assert rest[..|body|] == body && rest[|body| + 6..] == "";
    assert Insert(AtEnd(current), body) == AtEnd(current + body) by {
      assert current[..|current|] == current && current[|current|..] == "";
    }
  }

  /**
   * After a recorded input the editor's buffer is the record, cursor at the end,
   * exactly when the input is not a paste with a DEL in it: the record takes that
   * DEL as an erase, the editor as text.
   */
  lemma RecordIsTheBuffer(current: string, data: string)
    requires Clean(current) && RecordTyped(Some(current), data).Some?
    ensures Clean(RecordTyped(Some(current), data).value)
    ensures Run(AtEnd(current), data) == AtEnd(RecordTyped(Some(current), data).value) <==>
      !(IsPaste(data) && DEL in Pasted(data))
  {
    var recorded := RecordTyped(Some(current), data).value;
    if IsPaste(data) {
      var body := Pasted(data);
      RecordStaysClean(current, body);
      RecordedHasNoEscape(current, body);
      EditorPastes(current, data);
      if DEL in body {
        assert DEL in current + body;
        assert DEL !in recorded;
      } else {
        WithoutDelAppends(current, body);
      }
    } else {
      RecordStaysClean(current, data);
      EditorTypes(current, data);
    }
  }

  /** Pasting "a" DEL: the record keeps nothing, the editor holds two characters. */
  lemma PastedDelIsNotErased()
    ensures var data := PASTE_BEGIN + ['a', DEL] + PASTE_END;
      RecordTyped(Some(""), data) == Some("") && Run(AtEnd(""), data) == AtEnd(['a', DEL])
  {
    var data := PASTE_BEGIN + ['a', DEL] + PASTE_END;
    var body := ['a', DEL];
    assert Pasted(data) == body;
    EditorPastes("", data);
    assert "" + body == body;
    assert body[1..] == [DEL] && [DEL][1..] == "";
    assert RecordChar("", 'a') == Some("a") by { assert "" + ['a'] == "a"; }
    assert RecordChar("a", DEL) == Some("") by { assert "a"[..0] == ""; }
    assert RecordChars("", "") == Some("");
    assert RecordChars("a", [DEL]) == Some("");
    assert RecordChars("", body) == RecordChars("a", [DEL]);
  }

  function RecordAll(current: Option<string>, inputs: seq<string>): Option<string>
    decreases |inputs|
  {
    if inputs == [] then current else RecordAll(RecordTyped(current, inputs[0]), inputs[1..])
  }

  function RunAll(ed: Editor, inputs: seq<string>): Editor
    requires ed.Valid()
    decreases |inputs|
  {
    if inputs == [] then ed else RunAll(Run(ed, inputs[0]), inputs[1..])
  }

  lemma {:induction false} NullStays(inputs: seq<string>)
    ensures RecordAll(None, inputs).None?
    decreases |inputs|
  {
    if inputs != [] {
      NullStays(inputs[1..]);
    }
  }

  /** A whole session of inputs without a pasted DEL: a usable record is the editor's buffer. */
  lemma {:induction false} RecordFollowsTheEditor(current: string, inputs: seq<string>)
    requires Clean(current) && RecordAll(Some(current), inputs).Some?
    requires forall i :: 0 <= i < |inputs| ==> !(IsPaste(inputs[i]) && DEL in Pasted(inputs[i]))
    ensures RunAll(AtEnd(current), inputs) == AtEnd(RecordAll(Some(current), inputs).value)
    decreases |inputs|
  {
    hide Run, RecordTyped, Clean;
    if inputs != [] {
      var next := RecordTyped(Some(current), inputs[0]);
      if next.None? {
        NullStays(inputs[1..]);
      } else {
        RecordIsTheBuffer(current, inputs[0]);
        RecordFollowsTheEditor(next.value, inputs[1..]);
      }
    }
  }

  // ---- The screen ----

  datatype Cell = Cell(chars: string, width: nat)
  datatype Line = Line(cells: seq<Cell>, wrapped: bool)
  datatype Terminal = Terminal(cols: nat, lines: seq<Line>, alternate: bool, baseY: nat, cursorY: nat, cursorX: nat)
  datatype Point = Point(row: nat, col: nat)

  predicate Before(a: Point, b: Point) {
    a.row < b.row || (a.row == b.row && a.col < b.col)
  }

  predicate Wrapped(term: Terminal, row: nat) {
    row < |term.lines| && term.lines[row].wrapped
  }

  /** The cell holds exactly this character: written, of some width, with no combining mark. */
  predicate Shows(term: Terminal, at: Point, c: char) {
    at.row < |term.lines| && at.col < |term.lines[at.row].cells| &&
    var cell := term.lines[at.row].cells[at.col];
    cell.width > 0 && cell.chars == [c]
  }

  /** Where the cell after this boundary is: the next row when the row is full. */
  function CellAfter(term: Terminal, at: Point): Point {
    if at.col >= term.cols then Point(at.row + 1, 0) else at
  }

  /** The boundary after one character, when the screen shows it there. */
  function NextBoundary(term: Terminal, at: Point, c: char): Option<Point> {
    if at.col >= term.cols && !Wrapped(term, at.row + 1) then None
    else
      var cell := CellAfter(term, at);
      if !Shows(term, cell, c) then None
      else Some(Point(cell.row, cell.col + term.lines[cell.row].cells[cell.col].width))
  }

  function Boundaries(term: Terminal, start: Point, text: string): Option<seq<Point>>
    decreases |text|
  {
    if text == "" then Some([start])
    else
      var next := NextBoundary(term, start, text[0]);
      if next.None? then None
      else
        var rest := Boundaries(term, next.value, text[1..]);
        if rest.None? then None else Some([start] + rest.value)
  }

  lemma {:induction false} BoundaryPrefix(term: Terminal, start: Point, text: string, i: nat)
    requires i < |text| && Boundaries(term, start, text[..i]).Some?
    ensures var sofar := Boundaries(term, start, text[..i]).value;
      sofar != [] && Boundaries(term, start, text[..i + 1]) ==
      (var next := NextBoundary(term, sofar[|sofar| - 1], text[i]);
       if next.None? then None else Some(sofar + [next.value]))
    ensures Boundaries(term, start, text[..i + 1]).None? ==> Boundaries(term, start, text).None?
    decreases |text|
  {
    hide NextBoundary;
    if i == 0 {
      assert text[..1] == [text[0]];
      assert text[..1][1..] == "";
    } else {
      var next := NextBoundary(term, start, text[0]);
      assert text[..i][0] == text[0] && text[..i + 1][0] == text[0];
      assert text[..i][1..] == text[1..][..i - 1] && text[..i + 1][1..] == text[1..][..i];
      BoundaryPrefix(term, next.value, text[1..], i - 1);
      var rest := Boundaries(term, next.value, text[1..][..i - 1]).value;
      assert ([start] + rest)[|rest|] == rest[|rest| - 1];
      var more := NextBoundary(term, rest[|rest| - 1], text[i]);
      assert more.Some? ==> [start] + rest + [more.value] == [start] + (rest + [more.value]);
    }
  }

  /** Walks the recorded text over the screen, wrapping where the row is full. */
  method RecordedPositions(term: Terminal, start: Point, text: string) returns (positions: Option<seq<Point>>)
    ensures positions == Boundaries(term, start, text)
  {
    var row: nat, col: nat := start.row, start.col;
    var found := [start];
    var i := 0;
    while i < |text|
      invariant 0 <= i <= |text|
      invariant Boundaries(term, start, text[..i]) == Some(found)
      invariant found != [] && found[|found| - 1] == Point(row, col)
    {
      BoundaryPrefix(term, start, text, i);
      var c := text[i];
      if col >= term.cols {
        if !Wrapped(term, row + 1) {
          return None;
        }
        row := row + 1;
        col := 0;
      }
      if !Shows(term, Point(row, col), c) {
        return None;
      }
      col := col + term.lines[row].cells[col].width;
      found := found + [Point(row, col)];
      i := i + 1;
    }
    assert text[..|text|] == text;
    return Some(found);
  }

  // ---- Boundaries and points ----

  ghost predicate Increasing(positions: seq<Point>) {
    |positions| <= 1 || (Before(positions[0], positions[1]) && Increasing(positions[1..]))
  }

  lemma {:induction false} IncreasingMeans(positions: seq<Point>, i: nat, j: nat)
    requires Increasing(positions) && i < j < |positions|
    ensures Before(positions[i], positions[j])
    decreases j
  {
    if i > 0 {
      IncreasingMeans(positions[1..], i - 1, j - 1);
    } else if j > 1 {
      IncreasingMeans(positions[1..], 0, j - 1);
    }
  }

  /**
   * The boundaries of a recorded text strictly advance over the screen, wide
   * cells and full rows included, there is one more of them than characters, and
   * none but the first starts a row.
   */
  lemma {:induction false} BoundariesAdvance(term: Terminal, start: Point, text: string)
    requires Boundaries(term, start, text).Some?
    ensures var positions := Boundaries(term, start, text).value;
      |positions| == |text| + 1 && positions[0] == start && Increasing(positions) &&
      forall k :: 0 < k < |positions| ==> positions[k].col > 0
    decreases |text|
  {
    if text != "" {
      var next := NextBoundary(term, start, text[0]).value;
      BoundariesAdvance(term, next, text[1..]);
      var positions, rest := Boundaries(term, start, text).value, Boundaries(term, next, text[1..]).value;
      assert positions[1..] == rest;
      forall k | 0 < k < |positions| ensures positions[k].col > 0 {
        assert positions[k] == rest[k - 1];
      }
    }
  }

  /** The screen agrees with the record: after each boundary it shows the next recorded character. */
  lemma {:induction false} ScreenShowsTheText(term: Terminal, start: Point, text: string, k: nat)
    requires Boundaries(term, start, text).Some? && k < |text|
    ensures |Boundaries(term, start, text).value| == |text| + 1
    ensures Shows(term, CellAfter(term, Boundaries(term, start, text).value[k]), text[k])
    decreases |text|
  {
    BoundariesAdvance(term, start, text);
    if k > 0 {
      ScreenShowsTheText(term, NextBoundary(term, start, text[0]).value, text[1..], k - 1);
    }
  }

  /** The point is this boundary, or the start of the wrapped row after a full one. */
  predicate Denotes(term: Terminal, position: Point, point: Point) {
    position == point ||
    (position.col == term.cols && position.row + 1 == point.row && point.col == 0 && Wrapped(term, point.row))
  }

  function IndexFrom(term: Terminal, positions: seq<Point>, point: Point): int
  {
    if positions == [] then -1
    else if Denotes(term, positions[0], point) then 0
    else
      var rest := IndexFrom(term, positions[1..], point);
      if rest < 0 then -1 else rest + 1
  }

  lemma {:induction false} IndexIsFirst(term: Terminal, positions: seq<Point>, point: Point)
    ensures var k := IndexFrom(term, positions, point);
      -1 <= k < |positions| && (k >= 0 ==> Denotes(term, positions[k], point)) &&
      forall j :: 0 <= j < |positions| && Denotes(term, positions[j], point) ==> 0 <= k <= j
  {
    if positions != [] {
      IndexIsFirst(term, positions[1..], point);
      forall j | 0 <= j < |positions| && Denotes(term, positions[j], point)
        ensures 0 <= IndexFrom(term, positions, point) <= j
      {
        if j > 0 {
          assert positions[j] == positions[1..][j - 1];
        }
      }
    }
  }

  /** A point denotes at most one boundary, so the first one found is the one. */
  lemma OneBoundaryPerPoint(term: Terminal, start: Point, text: string, point: Point, i: nat, j: nat)
    requires Boundaries(term, start, text).Some?
    requires var positions := Boundaries(term, start, text).value;
      i < |positions| && j < |positions| && Denotes(term, positions[i], point) && Denotes(term, positions[j], point)
    ensures i == j
  {
    var positions := Boundaries(term, start, text).value;
    BoundariesAdvance(term, start, text);
    if i < j {
      IncreasingMeans(positions, i, j);
    } else if j < i {
      IncreasingMeans(positions, j, i);
    }
  }

  // ---- The edit ----

  function Arrow(left: bool, application: bool): string {
    [ESC, if application then 'O' else '[', if left then 'D' else 'C']
  }

  function Repeat(s: string, n: nat): string {
    if n == 0 then "" else s + Repeat(s, n - 1)
  }

  function Keys(selStart: nat, selEnd: nat, cursor: nat, application: bool): string
    requires selStart <= selEnd
  {
    var moves := if cursor >= selEnd then cursor - selEnd else selEnd - cursor;
    Repeat(Arrow(cursor >= selEnd, application), moves) + Repeat([DEL], selEnd - selStart)
  }

  function Cursor(term: Terminal): Point {
    Point(term.baseY + term.cursorY, term.cursorX)
  }

  function SelectionEditBytes(term: Terminal, inputStart: Option<Point>, start: Point, end: Point,
                              application: bool, recorded: Option<string>): Option<string>
  {
    if term.alternate || inputStart.None? || recorded.None? then None
    else if Before(Cursor(term), inputStart.value) || Before(start, inputStart.value) then None
    else
      var positions := Boundaries(term, inputStart.value, recorded.value);
      if positions.None? then None
      else
        var selStart := IndexFrom(term, positions.value, start);
        var selEnd := IndexFrom(term, positions.value, end);
        var cursor := IndexFrom(term, positions.value, Cursor(term));
        if selStart < 0 || selEnd < 0 || cursor < 0 || selEnd - selStart <= 0 then None
        else Some(Keys(selStart, selEnd, cursor, application))
  }

  lemma {:induction false} RunLefts(ed: Editor, n: nat, application: bool, rest: string)
    requires ed.Valid() && n <= ed.cursor
    ensures Run(ed, Repeat(Arrow(true, application), n) + rest) == Run(ed.(cursor := ed.cursor - n), rest)
    decreases n
  {
    var arrow := Arrow(true, application);
    if n == 0 {
      assert "" + rest == rest;
    } else {
      var bytes := Repeat(arrow, n) + rest;
      assert bytes == arrow + (Repeat(arrow, n - 1) + rest);
      assert bytes[3..] == Repeat(arrow, n - 1) + rest;
      ArrowIsNoPaste(bytes, true, application);
      RunLefts(Left(ed), n - 1, application, rest);
    }
  }

  lemma {:induction false} RunRights(ed: Editor, n: nat, application: bool, rest: string)
    requires ed.Valid() && ed.cursor + n <= |ed.text|
    ensures Run(ed, Repeat(Arrow(false, application), n) + rest) == Run(ed.(cursor := ed.cursor + n), rest)
    decreases n
  {
    var arrow := Arrow(false, application);
    if n == 0 {
      assert "" + rest == rest;
    } else {
      var bytes := Repeat(arrow, n) + rest;
      assert bytes == arrow + (Repeat(arrow, n - 1) + rest);
      assert bytes[3..] == Repeat(arrow, n - 1) + rest;
      ArrowIsNoPaste(bytes, false, application);
      RunRights(Right(ed), n - 1, application, rest);
    }
  }

  lemma ArrowIsNoPaste(bytes: string, left: bool, application: bool)
    requires |bytes| >= 3 && bytes[..3] == Arrow(left, application)
    ensures !(PASTE_BEGIN <= bytes)
    ensures IsArrow(bytes, if left then 'D' else 'C') && !IsArrow(bytes, if left then 'C' else 'D')
  {
    assert bytes[2] == bytes[..3][2] && bytes[1] == bytes[..3][1] && bytes[0] == bytes[..3][0];
    assert PASTE_BEGIN[2] == '2';
  }

  lemma {:induction false} RunDeletes(ed: Editor, n: nat)
    requires ed.Valid() && n <= ed.cursor
    ensures Run(ed, Repeat([DEL], n)) == Editor(ed.text[..ed.cursor - n] + ed.text[ed.cursor..], ed.cursor - n)
    decreases n
  {
    if n == 0 {
      assert ed.text == ed.text[..ed.cursor] + ed.text[ed.cursor..];
    } else {
      var bytes := Repeat([DEL], n);
      assert bytes[1..] == Repeat([DEL], n - 1);
      var next := Backspace(ed);
      RunDeletes(next, n - 1);
      assert next.text[..next.cursor - (n - 1)] == ed.text[..ed.cursor - n];
      assert next.text[next.cursor..] == ed.text[ed.cursor..];
    }
  }

  /** The keys take the selected characters out of the text and leave the cursor where they began. */
  lemma KeysDeleteTheRange(text: string, selStart: nat, selEnd: nat, cursor: nat, application: bool)
    requires selStart <= selEnd <= |text| && cursor <= |text|
    ensures Run(Editor(text, cursor), Keys(selStart, selEnd, cursor, application)) ==
      Editor(text[..selStart] + text[selEnd..], selStart)
  {
    hide Run;
    var deletes := Repeat([DEL], selEnd - selStart);
    if cursor >= selEnd {
      RunLefts(Editor(text, cursor), cursor - selEnd, application, deletes);
    } else {
      RunRights(Editor(text, cursor), selEnd - cursor, application, deletes);
    }
    RunDeletes(Editor(text, selEnd), selEnd - selStart);
  }

  /** The three points denote boundaries selStart < selEnd and cursor of the recorded text. */
  ghost predicate Marks(term: Terminal, positions: seq<Point>, start: Point, end: Point,
                        selStart: nat, selEnd: nat, cursor: nat) {
    selStart < selEnd < |positions| && cursor < |positions| &&
    Denotes(term, positions[selStart], start) && Denotes(term, positions[selEnd], end) &&
    Denotes(term, positions[cursor], Cursor(term))
  }

  lemma NotBeforeTheInput(term: Terminal, start: Point, text: string, k: nat, point: Point)
    requires Boundaries(term, start, text).Some? && k < |Boundaries(term, start, text).value|
    requires Denotes(term, Boundaries(term, start, text).value[k], point)
    ensures !Before(point, start)
  {
    BoundariesAdvance(term, start, text);
    if k > 0 {
      IncreasingMeans(Boundaries(term, start, text).value, 0, k);
    }
  }

  /**
   * An edit preserves meaning: when keys are sent, the selection and the cursor
   * stand at unique boundaries of the recorded text, and a line editor holding
   * that text at that cursor ends with exactly the selection removed.
   */
  lemma SelectionEditDeletesTheSelection(term: Terminal, inputStart: Option<Point>, start: Point, end: Point,
                                         application: bool, recorded: Option<string>,
                                         selStart: nat, selEnd: nat, cursor: nat)
    requires SelectionEditBytes(term, inputStart, start, end, application, recorded).Some?
    requires Marks(term, Boundaries(term, inputStart.value, recorded.value).value, start, end, selStart, selEnd, cursor)
    ensures var text := recorded.value;
      cursor <= |text| && selEnd <= |text| &&
      Run(Editor(text, cursor), SelectionEditBytes(term, inputStart, start, end, application, recorded).value) ==
      Editor(text[..selStart] + text[selEnd..], selStart)
  {
    hide Run, Denotes, Keys;
    var positions := Boundaries(term, inputStart.value, recorded.value).value;
    BoundariesAdvance(term, inputStart.value, recorded.value);
    IndexIsFirst(term, positions, start);
    IndexIsFirst(term, positions, end);
    IndexIsFirst(term, positions, Cursor(term));
    var i, j := IndexFrom(term, positions, start), IndexFrom(term, positions, end);
    var k := IndexFrom(term, positions, Cursor(term));
    OneBoundaryPerPoint(term, inputStart.value, recorded.value, start, i, selStart);
    OneBoundaryPerPoint(term, inputStart.value, recorded.value, end, j, selEnd);
    OneBoundaryPerPoint(term, inputStart.value, recorded.value, Cursor(term), k, cursor);
    KeysDeleteTheRange(recorded.value, selStart, selEnd, cursor, application);
  }

  /**
   * Keys are sent exactly when the screen is the normal one, shows the recorded
   * text from the input start, and the selection and cursor stand at its
   * boundaries, the selection not empty.
   */
  lemma EditsExactlyWhenTheScreenAgrees(term: Terminal, inputStart: Option<Point>, start: Point, end: Point,
                                        application: bool, recorded: Option<string>)
    ensures SelectionEditBytes(term, inputStart, start, end, application, recorded).Some? <==>
      !term.alternate && inputStart.Some? && recorded.Some? &&
      Boundaries(term, inputStart.value, recorded.value).Some? &&
      exists i: nat, j: nat, k: nat ::
        Marks(term, Boundaries(term, inputStart.value, recorded.value).value, start, end, i, j, k)
  {
    hide Run, Denotes, Keys;
    if !term.alternate && inputStart.Some? && recorded.Some? &&
       Boundaries(term, inputStart.value, recorded.value).Some? {
      var origin, text := inputStart.value, recorded.value;
      var positions := Boundaries(term, origin, text).value;
      IndexIsFirst(term, positions, start);
      IndexIsFirst(term, positions, end);
      IndexIsFirst(term, positions, Cursor(term));
      if SelectionEditBytes(term, inputStart, start, end, application, recorded).Some? {
        assert Marks(term, positions, start, end, IndexFrom(term, positions, start),
                     IndexFrom(term, positions, end), IndexFrom(term, positions, Cursor(term)));
      }
      if i: nat, j: nat, k: nat :| Marks(term, positions, start, end, i, j, k) {
        NotBeforeTheInput(term, origin, text, i, start);
        NotBeforeTheInput(term, origin, text, k, Cursor(term));
        OneBoundaryPerPoint(term, origin, text, start, i, IndexFrom(term, positions, start));
        OneBoundaryPerPoint(term, origin, text, end, j, IndexFrom(term, positions, end));
      }
    }
  }

  // ---- Recording and keys, written out ----

  /** A character that a line of text cannot hold: a control other than DEL, the escape included. */
  predicate Unrecordable(c: char) {
    c <= '\U{1f}' || '\U{80}' <= c <= '\U{9f}'
  }

  /** What was typed of an input: what stands between the marks of a paste, or all of it. */
  function Typed(data: string): string {
    if |data| >= 12 && data[..6] == "\U{1b}[200~" && data[|data| - 6..] == "\U{1b}[201~" then data[6..|data| - 6]
    else data
  }

  lemma {:induction false} NullExactly(current: string, data: string)
    ensures RecordChars(current, data).None? <==> exists i :: 0 <= i < |data| && Unrecordable(data[i])
    decreases |data|
  {
    if data != "" {
      if RecordChar(current, data[0]).Some? {
        NullExactly(RecordChar(current, data[0]).value, data[1..]);
        if i :| 0 <= i < |data| && Unrecordable(data[i]) {
          assert i > 0 && data[1..][i - 1] == data[i];
        }
      } else {
        assert Unrecordable(data[0]);
      }
    }
  }

  /** A record is given up if and only if what was typed has a character that a line cannot hold. */
  lemma GivesUpExactly(current: string, data: string)
    ensures RecordTyped(Some(current), data).None? <==>
      exists i :: 0 <= i < |Typed(data)| && Unrecordable(Typed(data)[i])
    ensures RecordTyped(None, data).None?
  {
    NullExactly(current, Typed(data));
    if |data| >= 12 && data[..6] == "\U{1b}[200~" {
      assert PASTE_BEGIN <= data;
    }
    if ESC in data && !IsPaste(data) {
      var i :| 0 <= i < |data| && data[i] == ESC;
      assert Unrecordable(data[i]);
    }
  }

  /** What the record holds: each DEL takes the last character off, every other character is added. */
  lemma {:induction false} RecordsEachCharacter(current: string, data: string, c: char)
    requires RecordChars(current, data).Some? && !Unrecordable(c)
    ensures var text := RecordChars(current, data).value;
      RecordChars(current, data + [c]) ==
        Some(if c != '\U{7f}' then text + [c] else if text == "" then "" else text[..|text| - 1])
    ensures RecordChars(current, "") == Some(current)
    decreases |data|
  {
    if data == "" {
      assert [c][1..] == "";
      assert data + [c] == [c];
    } else {
      assert (data + [c])[1..] == data[1..] + [c];
      RecordsEachCharacter(RecordChar(current, data[0]).value, data[1..], c);
    }
  }

  lemma RecordsWhatWasTyped(current: string, data: string)
    requires RecordTyped(Some(current), data).Some?
    ensures RecordTyped(Some(current), data) == RecordChars(current, Typed(data))
  {
    if |data| >= 12 && data[..6] == "\U{1b}[200~" {
      assert PASTE_BEGIN <= data;
    }
  }

  /** The boundary after a character: past its cell, which is in the next row when this one is full and wraps. */
  lemma BoundaryIs(term: Terminal, row: nat, col: nat, c: char)
    ensures var full := col >= term.cols;
      var y := if full then row + 1 else row;
      var x := if full then 0 else col;
      NextBoundary(term, Point(row, col), c) ==
        if y < |term.lines| && (full ==> term.lines[y].wrapped) && x < |term.lines[y].cells| &&
           term.lines[y].cells[x].width > 0 && term.lines[y].cells[x].chars == [c]
        then Some(Point(y, x + term.lines[y].cells[x].width)) else None
  {
  }

  /** A point is a boundary itself, or the start of a wrapped row whose row before is full up to that boundary. */
  lemma PointDenotes(term: Terminal, at: Point, point: Point)
    ensures Denotes(term, at, point) <==>
      (at.row == point.row && at.col == point.col) ||
      (point.col == 0 && 0 < point.row < |term.lines| && term.lines[point.row].wrapped &&
       at == Point(point.row - 1, term.cols))
    ensures Cursor(term).row == term.baseY + term.cursorY && Cursor(term).col == term.cursorX
  {
  }

  lemma {:induction false} RepeatIs(s: string, n: nat, k: nat)
    requires k < n
    ensures |Repeat(s, n)| == n * |s| && k * |s| + |s| <= n * |s|
    ensures Repeat(s, n)[k * |s|..k * |s| + |s|] == s
  {
    RepeatCounts(s, n);
    RepeatCounts(s, n - 1);
    var rest := Repeat(s, n - 1);
    assert s + rest == Repeat(s, n);
    if k > 0 {
      RepeatIs(s, n - 1, k - 1);
      assert k * |s| == |s| + (k - 1) * |s|;
      assert (s + rest)[k * |s|..k * |s| + |s|] == rest[(k - 1) * |s|..(k - 1) * |s| + |s|];
    }
  }

  lemma {:induction false} RepeatCounts(s: string, n: nat)
    ensures |Repeat(s, n)| == n * |s|
  {
    if n > 0 {
      RepeatCounts(s, n - 1);
    }
  }

  /**
   * The keys themselves: first cursor keys from the cursor to the end of the selection,
   * to the left or to the right, in the mode the application asked for; then one DEL for
   * each selected character.
   */
  lemma KeysAre(selStart: nat, selEnd: nat, cursor: nat, application: bool, k: nat)
    requires selStart <= selEnd
    ensures var keys := Keys(selStart, selEnd, cursor, application);
      var moves := if cursor >= selEnd then cursor - selEnd else selEnd - cursor;
      |keys| == 3 * moves + (selEnd - selStart) &&
      (k < moves ==>
        keys[3 * k..3 * k + 3] ==
          if application then (if cursor >= selEnd then "\U{1b}OD" else "\U{1b}OC")
          else (if cursor >= selEnd then "\U{1b}[D" else "\U{1b}[C")) &&
      (3 * moves <= k < |keys| ==> keys[k] == '\U{7f}')
  {
    var moves := if cursor >= selEnd then cursor - selEnd else selEnd - cursor;
    var arrow := Arrow(cursor >= selEnd, application);
    var arrows, deletes := Repeat(arrow, moves), Repeat([DEL], selEnd - selStart);
    RepeatCounts(arrow, moves);
    RepeatCounts([DEL], selEnd - selStart);
    if k < moves {
      RepeatIs(arrow, moves, k);
      assert (arrows + deletes)[3 * k..3 * k + 3] == arrows[3 * k..3 * k + 3];
    } else if 3 * moves <= k < |arrows + deletes| {
      RepeatIs([DEL], selEnd - selStart, k - 3 * moves);
      assert deletes[k - 3 * moves..k - 3 * moves + 1][0] == DEL;
    }
  }
}
