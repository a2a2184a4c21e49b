/**
 * The read loop and exit classification of `cloneOrPullModule`
 * (git-utils.gradle.kts): every line git prints is appended to a transcript
 * and passed through the progress formatter, which threads the carried
 * progress-line length from one line to the next.
 */
module Sync {
  import opened Progress
  import opened Console

  /** The loop's variables: `previousLineLength`, the `output` builder, and what was written. */
  datatype PumpState = PumpState(carried: nat, transcript: string, shown: seq<Write>)

  /** One iteration of the read loop. */
  function Step(st: PumpState, line: string): PumpState {
    var u := HandleProgressUpdate(line, st.carried);
    PumpState(u.carried, st.transcript + line + "\n", st.shown + [Print(u.written)])
  }

  /** The loop's state after reading the first `n` of `lines`, starting from `previousLineLength = 0`. */
  function Pump(lines: seq<string>, n: nat): PumpState
    requires n <= |lines|
  {
    if n == 0 then PumpState(0, "", [])
    else Step(Pump(lines, n - 1), lines[n - 1])
  }

  /** Every line followed by a newline, in order. */
  function Transcript(lines: seq<string>): string
    decreases |lines|
  {
    if lines == [] then "" else lines[0] + "\n" + Transcript(lines[1..])
  }

  lemma {:induction false} TranscriptAppend(lines: seq<string>, line: string)
    ensures Transcript(lines + [line]) == Transcript(lines) + line + "\n"
    decreases |lines|
  {
    if lines == [] {
      assert [line][1..] == [];
    } else {
      assert (lines + [line])[1..] == lines[1..] + [line];
      TranscriptAppend(lines[1..], line);
    }
  }

  /** The `output` builder holds exactly the transcript of the lines read so far. */
  lemma {:induction false} PumpTranscript(lines: seq<string>, n: nat)
    requires n <= |lines|
    ensures Pump(lines, n).transcript == Transcript(lines[..n])
  {
    if n > 0 {
      PumpTranscript(lines, n - 1);
      TranscriptAppend(lines[..n - 1], lines[n - 1]);
      assert lines[..n - 1] + [lines[n - 1]] == lines[..n];
    }
  }

  /**
   * The carried length depends on the last line read alone: its length if it
   * is a progress line, 0 otherwise (and 0 before the first line).
   */
  lemma PumpCarried(lines: seq<string>, n: nat)
    requires n <= |lines|
    ensures Pump(lines, n).carried == if n > 0 && IsProgressLine(lines[n - 1]) then |lines[n - 1]| else 0
  {
  }

  /**
   * The i-th console write is `handleProgressUpdate` of the i-th line with the
   * length carried out of the lines before it.
   */
  lemma {:induction false} PumpShown(lines: seq<string>, n: nat, i: nat)
    requires i < n <= |lines|
    ensures |Pump(lines, n).shown| == n
    ensures Pump(lines, n).shown[i] == Print(HandleProgressUpdate(lines[i], Pump(lines, i).carried).written)
  {
    if i < n - 1 {
      PumpShown(lines, n - 1, i);
    } else {
      PumpShownLength(lines, n - 1);
    }
  }

  lemma {:induction false} PumpShownLength(lines: seq<string>, n: nat)
    requires n <= |lines|
    ensures |Pump(lines, n).shown| == n
  {
    if n > 0 {
      PumpShownLength(lines, n - 1);
    }
  }

  /** `text` split at every `\n` into lines without it, with `current` already read of the first one. */
  function SplitLines(text: string, current: string): seq<string>
    decreases |text|
  {
    if text == [] then (if current == [] then [] else [current])
    else if text[0] == '\n' then [current] + SplitLines(text[1..], [])
    else SplitLines(text[1..], current + [text[0]])
  }

  lemma {:induction false} SplitOneLine(line: string, rest: string, current: string)
    requires '\n' !in line
    ensures SplitLines(line + "\n" + rest, current) == [current + line] + SplitLines(rest, [])
    decreases |line|
  {
    if line == [] {
      assert (line + "\n" + rest)[1..] == rest;
      assert current + line == current;
    } else {
      assert (line + "\n" + rest)[1..] == line[1..] + "\n" + rest;
      SplitOneLine(line[1..], rest, current + [line[0]]);
      assert current + [line[0]] + line[1..] == current + line;
    }
  }

  /** Reading the transcript back line by line gives the lines git printed. */
  lemma {:induction false} TranscriptLines(lines: seq<string>)
    requires forall i :: 0 <= i < |lines| ==> '\n' !in lines[i]
    ensures SplitLines(Transcript(lines), []) == lines
    decreases |lines|
  {
    if lines != [] {
      SplitOneLine(lines[0], Transcript(lines[1..]), []);
      TranscriptLines(lines[1..]);
      assert [] + lines[0] == lines[0];
    }
  }

  /**
   * The `while (line != null)` loop of `cloneOrPullModule`: reads `lines`,
   * returning the transcript, the final carried length and the console writes.
   */
  method ReadOutput(lines: seq<string>) returns (transcript: string, carried: nat, shown: seq<Write>)
    ensures PumpState(carried, transcript, shown) == Pump(lines, |lines|)
    ensures transcript == Transcript(lines)
  {
    var previousLineLength: nat := 0;
    var output := "";
    shown := [];
    var i := 0;
    while i < |lines|
      invariant 0 <= i <= |lines|
      invariant PumpState(previousLineLength, output, shown) == Pump(lines, i)
    {
      var line := lines[i];
      output := output + line + "\n";
      var u := HandleProgressUpdate(line, previousLineLength);
      shown := shown + [Print(u.written)];
      previousLineLength := u.carried;
      i := i + 1;
    }
    transcript, carried := output, previousLineLength;
    PumpTranscript(lines, |lines|);
    assert lines[..|lines|] == lines;
  }

  /** How the process ended, with the message handed to the callback. */
  datatype Outcome = Success(message: string) | Failure(message: string)

  function SuccessMessage(name: string): string {
    "Operation completed successfully for module " + name + "."
  }

  function FailureHeader(name: string): string {
    "Operation failed for module " + name + ". See output for details:\n"
  }

  /**
   * `waitFor() == 0` decides the outcome; a failure reports the whole
   * transcript after a header naming the module.
   */
  function Complete(name: string, transcript: string, exitCode: int): (o: Outcome)
    ensures o.Success? <==> exitCode == 0
    ensures o.Success? ==> o.message == SuccessMessage(name)
    ensures o.Failure? ==> FailureHeader(name) <= o.message
    ensures o.Failure? ==> o.message[|FailureHeader(name)|..] == transcript
  {
    if exitCode == 0 then Success(SuccessMessage(name))
    else
      var m := FailureHeader(name) + transcript;
      assert m[..|FailureHeader(name)|] == FailureHeader(name);
      Failure(m)
  }
}
