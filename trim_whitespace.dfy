/**
 * Trim Whitespaces: right-strip every line of the text in place, count the
 * characters removed, and offer the command only when there is something to trim.
 */
module TrimWhitespace {
  import opened PyStr

  /** Every line right-stripped. */
  function Trimmed(lines: seq<string>): (r: seq<string>)
    ensures |r| == |lines|
    ensures forall i :: 0 <= i < |lines| ==> r[i] == RStrip(lines[i])
  {
    seq(|lines|, i requires 0 <= i < |lines| => RStrip(lines[i]))
  }

  /** Characters `rstrip` removes from one line. */
  function RemovedFrom(line: string): nat {
    RStripSpec(line);
    |line| - |RStrip(line)|
  }

  /** Characters removed from all lines. */
  function RemovedCount(lines: seq<string>): nat
    decreases |lines|
  {
    if |lines| == 0 then 0 else RemovedCount(lines[..|lines| - 1]) + RemovedFrom(lines[|lines| - 1])
  }

  /** Total length of the lines. */
  function TotalLength(lines: seq<string>): nat
    decreases |lines|
  {
    if |lines| == 0 then 0 else TotalLength(lines[..|lines| - 1]) + |lines[|lines| - 1]|
  }

  /** The count is the old total length minus the new total length. */
  lemma {:induction false} RemovedCountIsShrinkage(lines: seq<string>)
    ensures TotalLength(Trimmed(lines)) + RemovedCount(lines) == TotalLength(lines)
    decreases |lines|
  {
    if |lines| > 0 {
      var n := |lines| - 1;
      assert Trimmed(lines)[..n] == Trimmed(lines[..n]);
      RemovedCountIsShrinkage(lines[..n]);
      RStripSpec(lines[n]);
    }
  }

  /** `draw_menu`'s test: some line differs from its right-strip. */
  predicate OffersTrim(lines: seq<string>) {
    exists i :: 0 <= i < |lines| && RStrip(lines[i]) != lines[i]
  }

  /** The menu entry is offered exactly when trimming would report a positive count. */
  lemma {:induction false} OffersTrimIffRemoves(lines: seq<string>)
    ensures OffersTrim(lines) <==> RemovedCount(lines) > 0
    decreases |lines|
  {
    if |lines| > 0 {
      var n := |lines| - 1;
      OffersTrimIffRemoves(lines[..n]);
      RStripSpec(lines[n]);
      if OffersTrim(lines) {
        var i :| 0 <= i < |lines| && RStrip(lines[i]) != lines[i];
        if i < n {
          assert lines[..n][i] == lines[i];
        } else {
          assert RStrip(lines[n]) < lines[n];
        }
      }
      if OffersTrim(lines[..n]) {
        var i :| 0 <= i < n && RStrip(lines[..n][i]) != lines[..n][i];
        assert lines[i] == lines[..n][i];
      }
      if RStrip(lines[n]) != lines[n] {
        assert RStrip(lines[n]) < lines[n];
      }
    }
  }

  /** Every trimmed line is a prefix of the old one and is empty or ends in a
      non-whitespace character. */
  lemma TrimmedLinesSpec(lines: seq<string>, i: nat)
    requires i < |lines|
    ensures Trimmed(lines)[i] <= lines[i]
    ensures |Trimmed(lines)[i]| == 0 || !IsSpace(Trimmed(lines)[i][|Trimmed(lines)[i]| - 1])
  {
    RStripSpec(lines[i]);
  }

  /** Trimming twice is trimming once, and the second run removes nothing. */
  lemma TrimIdempotent(lines: seq<string>)
    ensures Trimmed(Trimmed(lines)) == Trimmed(lines)
    ensures RemovedCount(Trimmed(lines)) == 0
    ensures !OffersTrim(Trimmed(lines))
  {
    forall i | 0 <= i < |lines| ensures RStrip(RStrip(lines[i])) == RStrip(lines[i]) {
      RStripIdempotent(lines[i]);
    }
    OffersTrimIffRemoves(Trimmed(lines));
  }

  /** The message the operator reports. */
  datatype Report = RemovedChars(count: nat) | NothingToRemove

  /** `TEXT_OT_trim_whitespaces.execute`: every line is replaced by its right-strip in
      place and the removed characters are counted. */
  method TrimWhitespaces(lines: array<string>) returns (removed: nat, report: Report)
    modifies lines
    ensures lines[..] == Trimmed(old(lines[..]))
    ensures removed == RemovedCount(old(lines[..]))
    ensures report == if removed > 0 then RemovedChars(removed) else NothingToRemove
  {
    ghost var before := lines[..];
    removed := 0;
    var i := 0;
    while i < lines.Length
      invariant 0 <= i <= lines.Length
      invariant lines[..i] == Trimmed(before[..i])
      invariant lines[i..] == before[i..]
      invariant removed == RemovedCount(before[..i])
    {
      var originalLength := |lines[i]|;
      assert lines[i] == before[i];
      RStripSpec(lines[i]);
      lines[i] := RStrip(lines[i]);
      removed := removed + (originalLength - |lines[i]|);
      assert before[..i + 1][..i] == before[..i];
      i := i + 1;
    }
    assert before[..i] == before;
    if removed > 0 {
      report := RemovedChars(removed);
    } else {
      report := NothingToRemove;
    }
  }
}
