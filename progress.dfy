/**
 * The progress-line formatter of the bootstrap script
 * (git-utils.gradle.kts, `handleProgressUpdate`): git's transient progress
 * lines are redrawn in place, every other line is printed as is.
 */
module Progress {
  /** Carriage return followed by "erase to end of line". */
  const ClearLine := "\r\U{1B}[K"

  /** The line beginnings git uses for its in-place progress counters. */
  const ProgressPrefixes: seq<string> :=
    ["remote: Counting objects:", "remote: Compressing objects:", "Receiving objects:", "Resolving deltas:"]

  /** A line is a progress line when it starts with one of the known prefixes. */
  predicate IsProgressLine(line: string) {
    exists p :: p in ProgressPrefixes && p <= line
  }

  function Max(a: int, b: int): int {
    if a < b then b else a
  }

  /** `k` spaces. */
  function Spaces(k: nat): (r: string)
    ensures |r| == k
    ensures forall i :: 0 <= i < k ==> r[i] == ' '
  {
    if k == 0 then "" else Spaces(k - 1) + " "
  }

  /** Kotlin's `padEnd(length, ' ')`. */
  function PadEnd(s: string, length: nat): (r: string)
    ensures |r| == Max(|s|, length)
    ensures r[..|s|] == s
    ensures forall i :: |s| <= i < |r| ==> r[i] == ' '
  {
    if |s| >= length then s else s + Spaces(length - |s|)
  }

  /** What one call of `handleProgressUpdate` returns and writes to the console. */
  datatype Update = Update(carried: nat, written: string)

  /** `handleProgressUpdate(line, previousLineLength)`. */
  function HandleProgressUpdate(line: string, previousLineLength: nat): Update {
    if IsProgressLine(line) then Update(|line|, ClearLine + PadEnd(line, previousLineLength))
    else Update(0, line + "\n")
  }

  /**
   * A progress line is written after `ClearLine`, padded with spaces to the
   * previous progress line's length so that no stale character stays
   * visible, and its length is carried to the next call; any other line is
   * printed with a newline and the carried length drops to 0.
   */
  lemma HandleProgressUpdateSpec(line: string, previousLineLength: nat)
    ensures var u := HandleProgressUpdate(line, previousLineLength);
      && (IsProgressLine(line) ==>
          && u.carried == |line|
          && |u.written| == |ClearLine| + Max(|line|, previousLineLength)
          && u.written[..|ClearLine|] == ClearLine
          && u.written[|ClearLine|..|ClearLine| + |line|] == line
          && (forall i :: |ClearLine| + |line| <= i < |u.written| ==> u.written[i] == ' '))
      && (!IsProgressLine(line) ==> u.carried == 0 && u.written == line + "\n")
  {
    if IsProgressLine(line) {
      AppendParts(ClearLine, PadEnd(line, previousLineLength), |line|);
    }
  }

  /** Where the two parts of a concatenation sit in it. */
  lemma AppendParts(a: string, b: string, k: nat)
    requires k <= |b|
    ensures (a + b)[..|a|] == a
    ensures (a + b)[|a|..|a| + k] == b[..k]
    ensures forall i :: |a| <= i < |a| + |b| ==> (a + b)[i] == b[i - |a|]
  {
  }

  /**
   * A progress line no longer than the previous one is redrawn as exactly
   * that line followed by `previousLineLength - |line|` spaces.
   */
  lemma RedrawPadding(line: string, previousLineLength: nat)
    requires IsProgressLine(line) && |line| <= previousLineLength
    ensures HandleProgressUpdate(line, previousLineLength).written
         == ClearLine + line + Spaces(previousLineLength - |line|)
  {
    if |line| == previousLineLength {
      assert line + Spaces(0) == line;
    }
  }

  /** A progress line longer than the previous one needs no padding at all. */
  lemma RedrawNoPadding(line: string, previousLineLength: nat)
    requires IsProgressLine(line) && previousLineLength <= |line|
    ensures HandleProgressUpdate(line, previousLineLength).written == ClearLine + line
  {
  }

  /** The two example lines: a receive counter is progress, the clone banner is not. */
  lemma ClassificationExamples()
    ensures IsProgressLine("Receiving objects:  50% (5/10)")
    ensures !IsProgressLine("Cloning into 'x'...")
  {
    var line, p := "Receiving objects:  50% (5/10)", ProgressPrefixes[2];
    assert p in ProgressPrefixes;
    assert p <= line by { assert line[..|p|] == p; }
    forall p | p in ProgressPrefixes ensures !(p <= "Cloning into 'x'...") {
      assert p[0] != 'C';
    }
  }

  /** With 40 characters carried, a 25-character progress line gets 15 trailing spaces. */
  lemma PaddingExample(line: string)
    requires IsProgressLine(line) && |line| == 25
    ensures HandleProgressUpdate(line, 40).written == ClearLine + line + Spaces(15)
  {
    RedrawPadding(line, 40);
  }
}
