/**
 * The footer of the text editor: "Ln L, Col C | N characters", or
 * "Ln L, Col C | S of N characters" while the cursor and the selection end differ.
 *
 * A position is a 0-based line and column as the host stores them; the host
 * keeps both positions inside the text (`ValidPos`).
 */
module CharacterCount {
  import opened Common
  import PyStr

  datatype Pos = Pos(line: nat, column: nat)

  /** The host's invariant: the line exists and the column is at most its length. */
  predicate ValidPos(lines: seq<string>, p: Pos) {
    p.line < |lines| && p.column <= |lines[p.line]|
  }

  /** `sum(len(line.body) for line in lines)`. */
  function TotalCharacters(lines: seq<string>): nat
    decreases |lines|
  {
    if |lines| == 0 then 0 else TotalCharacters(lines[..|lines| - 1]) + |lines[|lines| - 1]|
  }

  /** The total of a concatenation is the sum of the totals. */
  lemma {:induction false} TotalAppend(a: seq<string>, b: seq<string>)
    ensures TotalCharacters(a + b) == TotalCharacters(a) + TotalCharacters(b)
    decreases |b|
  {
    if |b| > 0 {
      var n := |b| - 1;
      assert (a + b)[..|a + b| - 1] == a + b[..n];
      TotalAppend(a, b[..n]);
    } else {
      assert a + b == a;
    }
  }

  /** The total counts characters only: it is the length of the lines joined without separators. */
  function Joined(lines: seq<string>): string
    decreases |lines|
  {
    if |lines| == 0 then [] else Joined(lines[..|lines| - 1]) + lines[|lines| - 1]
  }

  lemma {:induction false} TotalIsJoinedLength(lines: seq<string>)
    ensures TotalCharacters(lines) == |Joined(lines)|
    decreases |lines|
  {
    if |lines| > 0 { TotalIsJoinedLength(lines[..|lines| - 1]); }
  }

  /** `s[n:]` for a non-negative `n`: empty when `n` is past the end. */
  function Drop(s: string, n: nat): (r: string)
    ensures |r| == if n <= |s| then |s| - n else 0
  {
    if n <= |s| then s[n..] else []
  }

  function Min(a: nat, b: nat): nat { if a <= b then a else b }
  function Max(a: nat, b: nat): nat { if a <= b then b else a }

  /** A selection is counted when its two ends differ. (`text.select_set` in the same
      test is the host's bound method, which is always true.) */
  predicate Selecting(current: Pos, selectEnd: Pos) {
    current.line != selectEnd.line || current.column != selectEnd.column
  }

  /** The selected count as written: lines and columns are each sorted on their own,
      then the start line's suffix, the middle lines and the end line's prefix are added. */
  function SelectedCharacters(lines: seq<string>, current: Pos, selectEnd: Pos): nat
    requires current.line < |lines| && selectEnd.line < |lines|
  {
    var startLine, endLine := Min(current.line, selectEnd.line), Max(current.line, selectEnd.line);
    var startChar, endChar := Min(current.column, selectEnd.column), Max(current.column, selectEnd.column);
    if startLine == endLine then
      endChar - startChar
    else
      |Drop(lines[startLine], startChar)| + TotalCharacters(lines[startLine + 1..endLine]) + |PyStr.Take(lines[endLine], endChar)|
  }

  /** The lines split around two line indices. */
  lemma SplitAround(lines: seq<string>, a: nat, b: nat)
    requires a < b < |lines|
    ensures TotalCharacters(lines) ==
              TotalCharacters(lines[..a]) + |lines[a]| + TotalCharacters(lines[a + 1..b]) +
              |lines[b]| + TotalCharacters(lines[b + 1..])
  {
    assert lines == lines[..a] + [lines[a]] + lines[a + 1..b] + [lines[b]] + lines[b + 1..];
    TotalAppend(lines[..a] + [lines[a]] + lines[a + 1..b] + [lines[b]], lines[b + 1..]);
    TotalAppend(lines[..a] + [lines[a]] + lines[a + 1..b], [lines[b]]);
    TotalAppend(lines[..a] + [lines[a]], lines[a + 1..b]);
    TotalAppend(lines[..a], [lines[a]]);
    assert TotalCharacters([lines[a]]) == |lines[a]|;
    assert TotalCharacters([lines[b]]) == |lines[b]|;
  }

  /** One line's length is part of the total. */
  lemma LineWithinTotal(lines: seq<string>, a: nat)
    requires a < |lines|
    ensures |lines[a]| <= TotalCharacters(lines)
  {
    assert lines == lines[..a] + [lines[a]] + lines[a + 1..];
    TotalAppend(lines[..a] + [lines[a]], lines[a + 1..]);
    TotalAppend(lines[..a], [lines[a]]);
    assert TotalCharacters([lines[a]]) == |lines[a]|;
  }

  /** The selected count never exceeds the total. */
  lemma SelectedWithinTotal(lines: seq<string>, current: Pos, selectEnd: Pos)
    requires ValidPos(lines, current) && ValidPos(lines, selectEnd)
    ensures SelectedCharacters(lines, current, selectEnd) <= TotalCharacters(lines)
  {
    var a, b := Min(current.line, selectEnd.line), Max(current.line, selectEnd.line);
    if a == b {
      LineWithinTotal(lines, a);
    } else {
      SplitAround(lines, a, b);
    }
  }

  /** The footer's contents: 1-based line and column, the selected count when a
      selection is counted, and the total. */
  datatype Footer = Footer(line: nat, column: nat, selected: Option<nat>, total: nat)

  /** `character_count`: with a counted selection the line and column come from the
      selection end, otherwise from the cursor. */
  function FooterLabel(lines: seq<string>, current: Pos, selectEnd: Pos): (f: Footer)
    requires ValidPos(lines, current) && ValidPos(lines, selectEnd)
    ensures f.line >= 1 && f.column >= 1
    ensures f.total == TotalCharacters(lines)
    ensures f.selected.Some? <==> Selecting(current, selectEnd)
    ensures f.selected.Some? ==> f.selected.value == SelectedCharacters(lines, current, selectEnd)
    ensures f.selected.Some? ==> f.selected.value <= f.total
    ensures var at := if f.selected.Some? then selectEnd else current;
            f.line == at.line + 1 && f.column == at.column + 1
  {
    var total := TotalCharacters(lines);
    if Selecting(current, selectEnd) then
      SelectedWithinTotal(lines, current, selectEnd);
      Footer(selectEnd.line + 1, selectEnd.column + 1, Some(SelectedCharacters(lines, current, selectEnd)), total)
    else
      Footer(current.line + 1, current.column + 1, None, total)
  }

  // ---- The selection length the footer evidently means to show ----

  /** Characters before a position, newlines not counted. */
  function Offset(lines: seq<string>, p: Pos): nat
    requires p.line < |lines|
  {
    TotalCharacters(lines[..p.line]) + p.column
  }

  /** Position order: by line, then by column. */
  predicate Before(p: Pos, q: Pos) {
    p.line < q.line || (p.line == q.line && p.column <= q.column)
  }

  /** The characters between two ordered positions: the rest of the first line, the
      lines in between and the start of the last line. */
  function SpanBetween(lines: seq<string>, s: Pos, e: Pos): nat
    requires s.line < |lines| && e.line < |lines| && Before(s, e)
  {
    if s.line == e.line then
      e.column - s.column
    else
      |Drop(lines[s.line], s.column)| + TotalCharacters(lines[s.line + 1..e.line]) + |PyStr.Take(lines[e.line], e.column)|
  }

  /** The selected count with the two positions sorted as (line, column) pairs, so each
      column stays with its own line. */
  function SelectedSpan(lines: seq<string>, current: Pos, selectEnd: Pos): nat
    requires current.line < |lines| && selectEnd.line < |lines|
  {
    if Before(current, selectEnd) then SpanBetween(lines, current, selectEnd)
    else SpanBetween(lines, selectEnd, current)
  }

  /** Totals of prefixes grow with the prefix. */
  lemma PrefixTotal(lines: seq<string>, a: nat, b: nat)
    requires a < b <= |lines|
    ensures TotalCharacters(lines[..b]) == TotalCharacters(lines[..a]) + |lines[a]| + TotalCharacters(lines[a + 1..b])
  {
    assert lines[..b] == lines[..a] + [lines[a]] + lines[a + 1..b];
    TotalAppend(lines[..a] + [lines[a]], lines[a + 1..b]);
    TotalAppend(lines[..a], [lines[a]]);
    assert TotalCharacters([lines[a]]) == |lines[a]|;
  }

  /** Between ordered valid positions the span is the difference of their offsets and
      fits in the total. */
  lemma SpanBetweenIsDistance(lines: seq<string>, s: Pos, e: Pos)
    requires ValidPos(lines, s) && ValidPos(lines, e) && Before(s, e)
    ensures SpanBetween(lines, s, e) == Offset(lines, e) - Offset(lines, s)
    ensures SpanBetween(lines, s, e) <= TotalCharacters(lines)
  {
    if s.line < e.line {
      PrefixTotal(lines, s.line, e.line);
      SplitAround(lines, s.line, e.line);
    } else {
      LineWithinTotal(lines, s.line);
    }
  }

  /** The corrected count is the distance between the two positions in the text with
      its newlines removed, so it never exceeds the total. */
  lemma SelectedSpanIsDistance(lines: seq<string>, current: Pos, selectEnd: Pos)
    requires ValidPos(lines, current) && ValidPos(lines, selectEnd)
    ensures var d := Offset(lines, current) - Offset(lines, selectEnd);
            SelectedSpan(lines, current, selectEnd) == if d >= 0 then d else -d
    ensures SelectedSpan(lines, current, selectEnd) <= TotalCharacters(lines)
  {
    if Before(current, selectEnd) {
      SpanBetweenIsDistance(lines, current, selectEnd);
      OffsetMonotone(lines, current, selectEnd);
    } else {
      SpanBetweenIsDistance(lines, selectEnd, current);
      OffsetMonotone(lines, selectEnd, current);
    }
  }

  /** Offsets follow position order. */
  lemma OffsetMonotone(lines: seq<string>, s: Pos, e: Pos)
    requires ValidPos(lines, s) && ValidPos(lines, e) && Before(s, e)
    ensures Offset(lines, s) <= Offset(lines, e)
  {
    SpanBetweenIsDistance(lines, s, e);
  }

  /** The written count agrees with the corrected one whenever the earlier line also
      holds the smaller column. */
  lemma SelectedAgreesWhenColumnsFollowLines(lines: seq<string>, current: Pos, selectEnd: Pos)
    requires current.line < |lines| && selectEnd.line < |lines|
    requires current.line == selectEnd.line ||
             (current.line < selectEnd.line) == (current.column <= selectEnd.column)
    ensures SelectedCharacters(lines, current, selectEnd) == SelectedSpan(lines, current, selectEnd)
  {
  }

  /** A selection between the end of "ab" and the start of "cd" holds no character, but
      the written count pairs column 0 with the first line and column 2 with the second,
      and the footer shows 4. */
  lemma MispairedColumnsCounterexample()
    ensures SelectedSpan(["ab", "cd"], Pos(1, 0), Pos(0, 2)) == 0
    ensures SelectedCharacters(["ab", "cd"], Pos(1, 0), Pos(0, 2)) == 4
    ensures FooterLabel(["ab", "cd"], Pos(1, 0), Pos(0, 2)).selected == Some(4)
  {
    var lines := ["ab", "cd"];
    assert lines[1..1] == [];
    assert Drop(lines[0], 0) == "ab";
    assert PyStr.Take(lines[1], 2) == "cd";
  }
}
