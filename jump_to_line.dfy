/**
 * Jump-to-line: the scene property `line_number`, whose update handler clamps
 * the requested line to the text's line count and asks the host to jump there.
 */
module JumpToLine {
  import opened Common
  import opened PyStr

  /** `len(text.split('\n'))`: one more than the number of newlines, so at least 1. */
  function LineCount(text: string): (n: nat)
    ensures n == CountChar(text, '\n') + 1
    ensures n >= 1
  {
    SplitLength(text, '\n');
    |Split(text, '\n')|
  }

  /** The line the handler jumps to: none for a request of 0 or below, the request itself
      when it is in range, and the last line when it is past the end. */
  function JumpTarget(requested: int, lineCount: nat): (r: Option<int>)
    requires lineCount >= 1
    ensures r.None? <==> requested <= 0
    ensures r.Some? ==> 1 <= r.value <= lineCount
    ensures 1 <= requested <= lineCount ==> r == Some(requested)
    ensures requested > lineCount ==> r == Some(lineCount)
  {
    if requested <= 0 then None
    else if requested > lineCount then Some(lineCount)
    else Some(requested)
  }

  /** Clamping is idempotent: jumping to the line a jump landed on lands there again. */
  lemma JumpTargetStable(requested: int, lineCount: nat)
    requires lineCount >= 1 && requested > 0
    ensures JumpTarget(JumpTarget(requested, lineCount).value, lineCount) == JumpTarget(requested, lineCount)
  {
  }

  /** The scene the property lives on. */
  class Scene {
    var lineNumber: int

    constructor (lineNumber: int)
      ensures this.lineNumber == lineNumber
    {
      this.lineNumber := lineNumber;
    }

    /** `update_line_number`: with a text open and a positive request, a request past the
        end is written back as the line count, and the jump goes to the clamped line. */
    method UpdateLineNumber(text: Option<string>) returns (jump: Option<int>)
      modifies this
      ensures text.None? ==> jump.None? && lineNumber == old(lineNumber)
      ensures text.Some? ==> jump == JumpTarget(old(lineNumber), LineCount(text.value))
      ensures text.Some? && old(lineNumber) > LineCount(text.value) ==> lineNumber == LineCount(text.value)
      ensures text.None? || old(lineNumber) <= LineCount(text.value) ==> lineNumber == old(lineNumber)
    {
      jump := None;
      if text.Some? {
        var lines := Split(text.value, '\n');
        var n := lineNumber;
        if n > 0 {
          var maxLineNumber := |lines|;
          if n > maxLineNumber {
            n := maxLineNumber;
            lineNumber := n;
          }
          jump := Some(n);
        }
      }
    }
  }
}
