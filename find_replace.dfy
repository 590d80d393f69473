/**
 * Find & Replace: the backwards search of "Find Previous" (from the cursor up
 * to the top, then wrapping from the bottom), the "found of total" match count
 * of the popup, and the popup's width.
 *
 * The text is a sequence of lines without their newlines. When case does not
 * matter both the lines and the searched text are lower-cased first.
 */
module FindReplace {
  import opened Common
  import opened PyStr

  /** The text as compared: lower-cased unless case must match. */
  function Prep(s: string, matchCase: bool): (r: string)
    ensures |r| == |s|
  {
    if matchCase then s else Lower(s)
  }

  /** Lower-casing commutes with taking a prefix. */
  lemma PrepTake(s: string, n: nat, matchCase: bool)
    ensures Prep(Take(s, n), matchCase) == Take(Prep(s, matchCase), n)
  {
  }

  /** A match inside a prefix is a match in the whole string. */
  lemma MatchInPrefix(s: string, p: string, t: string, i: int)
    requires p <= s && MatchAt(p, t, i)
    ensures MatchAt(s, t, i)
  {
    assert s[i..i + |t|] == p[i..i + |t|];
  }

  // ---------------------------------------------------------------
  // The match count shown as "found of total"
  // ---------------------------------------------------------------

  /** Matches in all lines (`line_body.count(find_text)` summed). */
  function TotalCount(lines: seq<string>, find: string, matchCase: bool): nat
    decreases |lines|
  {
    if |lines| == 0 then 0
    else TotalCount(lines[..|lines| - 1], find, matchCase) + Count(Prep(lines[|lines| - 1], matchCase), Prep(find, matchCase))
  }

  /** What line `k` adds to the found count: all its matches above the cursor line, the
      matches before the selection end on the cursor line, nothing below. */
  function LineFound(line: string, k: nat, find: string, matchCase: bool, currentLine: nat, selectEnd: nat): nat {
    if k == currentLine then Count(Take(Prep(line, matchCase), selectEnd), Prep(find, matchCase))
    else if k < currentLine then Count(Prep(line, matchCase), Prep(find, matchCase))
    else 0
  }

  /** The found count over a text. */
  function FoundCount(lines: seq<string>, find: string, matchCase: bool, currentLine: nat, selectEnd: nat): nat
    decreases |lines|
  {
    if |lines| == 0 then 0
    else
      FoundCount(lines[..|lines| - 1], find, matchCase, currentLine, selectEnd) +
      LineFound(lines[|lines| - 1], |lines| - 1, find, matchCase, currentLine, selectEnd)
  }

  /** `count_occurrences`: one pass over the lines accumulating both counts. */
  method CountOccurrences(lines: seq<string>, find: string, matchCase: bool, currentLine: nat, selectEnd: nat)
    returns (total: nat, found: nat)
    ensures total == TotalCount(lines, find, matchCase)
    ensures found == FoundCount(lines, find, matchCase, currentLine, selectEnd)
  {
    total, found := 0, 0;
    var i := 0;
    while i < |lines|
      invariant 0 <= i <= |lines|
      invariant total == TotalCount(lines[..i], find, matchCase)
      invariant found == FoundCount(lines[..i], find, matchCase, currentLine, selectEnd)
    {
      var lineBody := Prep(lines[i], matchCase);
      var findText := Prep(find, matchCase);
      var lineOccurrences := Count(lineBody, findText);
      total := total + lineOccurrences;
      if i == currentLine {
        found := found + Count(Take(lineBody, selectEnd), findText);
      } else if i < currentLine {
        found := found + lineOccurrences;
      }
      assert lines[..i + 1][..i] == lines[..i];
      i := i + 1;
    }
    assert lines[..i] == lines;
  }

  /** The found count counts exactly the matches in the lines above the cursor line and
      in the cursor line before the selection end. */
  lemma {:induction false} FoundCountBeforeSelection(lines: seq<string>, find: string, matchCase: bool, currentLine: nat, selectEnd: nat)
    ensures |lines| <= currentLine ==>
              FoundCount(lines, find, matchCase, currentLine, selectEnd) == TotalCount(lines, find, matchCase)
    ensures currentLine < |lines| ==>
              FoundCount(lines, find, matchCase, currentLine, selectEnd) ==
              TotalCount(lines[..currentLine], find, matchCase) +
              Count(Take(Prep(lines[currentLine], matchCase), selectEnd), Prep(find, matchCase))
    decreases |lines|
  {
    if |lines| > 0 {
      var n := |lines| - 1;
      FoundCountBeforeSelection(lines[..n], find, matchCase, currentLine, selectEnd);
      if n > currentLine {
        assert lines[..n][..currentLine] == lines[..currentLine];
      } else if n == currentLine {
        assert lines[..n] == lines[..currentLine];
      }
    }
  }

  /** A prefix never holds more matches than its line. */
  lemma CountTakeAtMost(s: string, t: string, n: nat)
    ensures Count(Take(s, n), t) <= Count(s, t)
  {
    if n <= |s| { CountPrefixMonotone(s, t, n); }
  }

  /** The found count never exceeds the total. */
  lemma {:induction false} FoundAtMostTotal(lines: seq<string>, find: string, matchCase: bool, currentLine: nat, selectEnd: nat)
    ensures FoundCount(lines, find, matchCase, currentLine, selectEnd) <= TotalCount(lines, find, matchCase)
    decreases |lines|
  {
    if |lines| > 0 {
      var n := |lines| - 1;
      FoundAtMostTotal(lines[..n], find, matchCase, currentLine, selectEnd);
      CountTakeAtMost(Prep(lines[n], matchCase), Prep(find, matchCase), selectEnd);
    }
  }

  /** The total is zero exactly when no line contains the searched text. */
  lemma {:induction false} NoMatchesIff(lines: seq<string>, find: string, matchCase: bool)
    ensures TotalCount(lines, find, matchCase) == 0 <==>
              forall i :: 0 <= i < |lines| ==> !Contains(Prep(lines[i], matchCase), Prep(find, matchCase))
    decreases |lines|
  {
    if |lines| > 0 {
      var n := |lines| - 1;
      NoMatchesIff(lines[..n], find, matchCase);
      CountPositiveIffContains(Prep(lines[n], matchCase), Prep(find, matchCase));
      if TotalCount(lines, find, matchCase) == 0 {
        forall i | 0 <= i < |lines| ensures !Contains(Prep(lines[i], matchCase), Prep(find, matchCase)) {
          if i < n { assert lines[..n][i] == lines[i]; }
        }
      }
    }
  }

  /** The label next to the popup title. */
  datatype CountLabel = NoMatches | Matches(found: nat, total: nat)

  /** `draw` and `display_word_count`: a label only for a non-empty search with the
      preference on; "No matches found" when both counts are zero. */
  function WordCountLabel(lines: seq<string>, find: string, matchCase: bool, currentLine: nat, selectEnd: nat,
                          displayCountLabel: bool): (r: Option<CountLabel>)
    ensures r.None? <==> |find| == 0 || !displayCountLabel
    ensures r == Some(NoMatches) <==>
              |find| > 0 && displayCountLabel &&
              forall i :: 0 <= i < |lines| ==> !Contains(Prep(lines[i], matchCase), Prep(find, matchCase))
    ensures r.Some? && r.value.Matches? ==> 0 < r.value.total && r.value.found <= r.value.total
    ensures r.Some? && r.value.Matches? ==>
              r.value == Matches(FoundCount(lines, find, matchCase, currentLine, selectEnd), TotalCount(lines, find, matchCase))
  {
    if |find| == 0 || !displayCountLabel then None
    else
      var total := TotalCount(lines, find, matchCase);
      var found := FoundCount(lines, find, matchCase, currentLine, selectEnd);
      FoundAtMostTotal(lines, find, matchCase, currentLine, selectEnd);
      NoMatchesIff(lines, find, matchCase);
      if found == 0 && total == 0 then Some(NoMatches) else Some(Matches(found, total))
  }

  /** `invoke`: the popup is widened when either text is longer than 54 characters. */
  function PopupWidth(findLength: nat, replaceLength: nat): (w: nat)
    ensures w == 360 || w == 430
  {
    var maxLineLength := 54;
    if findLength > maxLineLength || replaceLength > maxLineLength then 430 else 360
  }

  /** The popup widens only past 54 characters, for either text. */
  lemma PopupWidthThreshold()
    ensures PopupWidth(54, 54) == 360
    ensures PopupWidth(55, 0) == 430 && PopupWidth(0, 55) == 430
  {
  }

  /** Longer texts never make the popup narrower. */
  lemma PopupWidthMonotone(f1: nat, r1: nat, f2: nat, r2: nat)
    requires f1 <= f2 && r1 <= r2
    ensures PopupWidth(f1, r1) <= PopupWidth(f2, r2)
  {
  }

  // ---------------------------------------------------------------
  // Find Previous
  // ---------------------------------------------------------------

  /** A match: its line and its first character. */
  datatype Hit = Hit(line: nat, index: nat)

  /** The part of line `j` searched from the cursor: the cursor line only up to the cursor. */
  function Window(lines: seq<string>, cursorLine: nat, cursorChar: nat, j: nat, matchCase: bool): string
    requires j < |lines|
  {
    Prep(if j == cursorLine then Take(lines[j], cursorChar) else lines[j], matchCase)
  }

  /** `search_from_cursor`: the lines from the cursor line up to the first, each searched
      for its rightmost match; the first line with one wins. */
  method SearchFromCursor(lines: seq<string>, cursorLine: nat, cursorChar: nat, find: string, matchCase: bool)
    returns (hit: Option<Hit>)
    requires cursorLine < |lines|
    ensures hit.None? <==>
              forall j :: 0 <= j <= cursorLine ==> !Contains(Window(lines, cursorLine, cursorChar, j, matchCase), Prep(find, matchCase))
    ensures hit.Some? ==>
              hit.value.line <= cursorLine &&
              hit.value.index == RFind(Window(lines, cursorLine, cursorChar, hit.value.line, matchCase), Prep(find, matchCase)) &&
              MatchAt(Window(lines, cursorLine, cursorChar, hit.value.line, matchCase), Prep(find, matchCase), hit.value.index)
    ensures hit.Some? ==>
              forall j :: hit.value.line < j <= cursorLine ==>
                !Contains(Window(lines, cursorLine, cursorChar, j, matchCase), Prep(find, matchCase))
  {
    var findText := Prep(find, matchCase);
    var i: int := cursorLine;
    while i >= 0
      invariant -1 <= i <= cursorLine
      invariant forall j :: i < j <= cursorLine ==> !Contains(Window(lines, cursorLine, cursorChar, j, matchCase), findText)
    {
      var line := Window(lines, cursorLine, cursorChar, i, matchCase);
      var index := RFind(line, findText);
      RFindSpec(line, findText);
      if index != -1 {
        return Some(Hit(i, index));
      }
      i := i - 1;
    }
    return None;
  }

  /** `search_from_bottom`: the lines from the last down to just below the cursor line. */
  method SearchFromBottom(lines: seq<string>, cursorLine: nat, find: string, matchCase: bool)
    returns (hit: Option<Hit>)
    ensures hit.None? <==>
              forall j :: cursorLine < j < |lines| ==> !Contains(Prep(lines[j], matchCase), Prep(find, matchCase))
    ensures hit.Some? ==>
              cursorLine < hit.value.line < |lines| &&
              hit.value.index == RFind(Prep(lines[hit.value.line], matchCase), Prep(find, matchCase)) &&
              MatchAt(Prep(lines[hit.value.line], matchCase), Prep(find, matchCase), hit.value.index)
    ensures hit.Some? ==>
              forall j :: hit.value.line < j < |lines| ==> !Contains(Prep(lines[j], matchCase), Prep(find, matchCase))
  {
    var findText := Prep(find, matchCase);
    var i := |lines| - 1;
    while i > cursorLine
      invariant i <= |lines| - 1
      invariant forall j :: i < j < |lines| && cursorLine < j ==> !Contains(Prep(lines[j], matchCase), findText)
    {
      var line := Prep(lines[i], matchCase);
      var index := RFind(line, findText);
      RFindSpec(line, findText);
      if index != -1 {
        return Some(Hit(i, index));
      }
      i := i - 1;
    }
    return None;
  }

  /** The new first displayed line: unchanged while the found line is on screen, otherwise
      the found line is brought to the middle. */
  function NewTop(top: nat, lineIndex: nat, linesDisplayed: nat): (r: nat)
    ensures top <= lineIndex <= top + linesDisplayed ==> r == top
    ensures r <= lineIndex <= r + linesDisplayed
  {
    if lineIndex < top || lineIndex > top + linesDisplayed then
      var t := lineIndex - linesDisplayed / 2;
      if t >= 0 then t else 0
    else
      top
  }

  /** The host's `select_set(line, start, line, end)`. */
  datatype Selection = Selection(line: nat, start: nat, end: nat)

  /** The open text and the editor showing it. */
  class Editor {
    var lines: seq<string>
    var currentLine: nat
    var currentChar: nat
    /** The last selection the add-on asked the host for. */
    var selection: Option<Selection>
    /** The first line the editor displays. */
    var top: nat

    predicate Valid()
      reads this
    {
      currentLine < |lines|
    }

    constructor (lines: seq<string>, currentLine: nat, currentChar: nat, top: nat)
      requires currentLine < |lines|
      ensures Valid()
      ensures this.lines == lines && this.currentLine == currentLine && this.currentChar == currentChar
      ensures this.top == top && selection.None?
    {
      this.lines := lines;
      this.currentLine := currentLine;
      this.currentChar := currentChar;
      this.top := top;
      selection := None;
    }

    /** `update_text_data`: the cursor goes after the match, the match is selected and the
        view scrolls when the line is off screen. */
    method UpdateTextData(lineIndex: nat, characterIndex: nat, findLength: nat, linesDisplayed: nat)
      modifies this
      ensures lines == old(lines)
      ensures currentLine == lineIndex && currentChar == characterIndex + findLength
      ensures selection == Some(Selection(lineIndex, characterIndex, characterIndex + findLength))
      ensures top == NewTop(old(top), lineIndex, linesDisplayed)
    {
      currentLine := lineIndex;
      currentChar := characterIndex + findLength;
      selection := Some(Selection(lineIndex, characterIndex, characterIndex + findLength));
      if lineIndex < top || lineIndex > top + linesDisplayed {
        var t := lineIndex - linesDisplayed / 2;
        top := if t >= 0 then t else 0;
      }
    }

    /** `TEXT_OT_find_previous.execute`: search backwards from the cursor, then wrap
        around from the bottom; warn when neither finds the text. On success the
        selection holds the text (up to case) on the new cursor line. */
    method FindPrevious(find: string, matchCase: bool, areaHeight: nat) returns (warned: bool)
      requires Valid()
      modifies this
      ensures Valid() && lines == old(lines)
      ensures warned <==>
                (forall j :: 0 <= j <= old(currentLine) ==>
                   !Contains(Window(lines, old(currentLine), old(currentChar), j, matchCase), Prep(find, matchCase))) &&
                (forall j :: old(currentLine) < j < |lines| ==> !Contains(Prep(lines[j], matchCase), Prep(find, matchCase)))
      ensures warned ==> currentLine == old(currentLine) && currentChar == old(currentChar) &&
                         selection == old(selection) && top == old(top)
      ensures !warned ==>
                selection.Some? && selection.value.line == currentLine &&
                currentChar == selection.value.end &&
                MatchAt(Prep(lines[currentLine], matchCase), Prep(find, matchCase), selection.value.start) &&
                selection.value.end == selection.value.start + |find|
      ensures !warned && currentLine <= old(currentLine) ==>
                selection.value.start ==
                  RFind(Window(lines, old(currentLine), old(currentChar), currentLine, matchCase), Prep(find, matchCase)) &&
                forall j :: currentLine < j <= old(currentLine) ==>
                  !Contains(Window(lines, old(currentLine), old(currentChar), j, matchCase), Prep(find, matchCase))
      ensures !warned && currentLine > old(currentLine) ==>
                (forall j :: 0 <= j <= old(currentLine) ==>
                   !Contains(Window(lines, old(currentLine), old(currentChar), j, matchCase), Prep(find, matchCase))) &&
                selection.value.start == RFind(Prep(lines[currentLine], matchCase), Prep(find, matchCase)) &&
                forall j :: currentLine < j < |lines| ==> !Contains(Prep(lines[j], matchCase), Prep(find, matchCase))
      ensures !warned ==> top == NewTop(old(top), currentLine, areaHeight / 16)
    {
      var cursorLine, cursorCharacter := currentLine, currentChar;
      var linesDisplayed := areaHeight / 16;
      var findText := Prep(find, matchCase);
      var found := SearchFromCursor(lines, cursorLine, cursorCharacter, find, matchCase);
      if found.Some? {
        var h := found.value;
        if h.line == cursorLine {
          PrepTake(lines[h.line], cursorCharacter, matchCase);
          MatchInPrefix(Prep(lines[h.line], matchCase), Window(lines, cursorLine, cursorCharacter, h.line, matchCase), findText, h.index);
        }
        UpdateTextData(h.line, h.index, |findText|, linesDisplayed);
        return false;
      }
      found := SearchFromBottom(lines, cursorLine, find, matchCase);
      if found.Some? {
        var h := found.value;
        UpdateTextData(h.line, h.index, |findText|, linesDisplayed);
        return false;
      }
      return true;
    }
  }
}
