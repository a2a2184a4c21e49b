/**
 * The console writes of the bootstrap script (git-utils.gradle.kts,
 * `println`, `System.out.print` and the coloured notices). The console is
 * modelled as a sequence of writes; `Text` gives the exact characters each
 * one puts on the terminal.
 */
module Console {
  import opened Ansi

  /** `modulePath.split("/").last()`: the text after the last `/`. */
  function LastSegment(path: string): string
    decreases |path|
  {
    if path == [] then ""
    else if path[|path| - 1] == '/' then ""
    else LastSegment(path[..|path| - 1]) + [path[|path| - 1]]
  }

  /**
   * The last segment is a slash-free suffix of the path, preceded by a slash
   * unless it is the whole path.
   */
  lemma {:induction false} LastSegmentIsSuffix(path: string)
    ensures var r := LastSegment(path);
      && '/' !in r
      && |r| <= |path| && r == path[|path| - |r|..]
      && (|r| < |path| ==> path[|path| - |r| - 1] == '/')
    decreases |path|
  {
    if path != [] && path[|path| - 1] != '/' {
      var init := path[..|path| - 1];
      LastSegmentIsSuffix(init);
      var r0 := LastSegment(init);
      assert path[|path| - |r0| - 1..] == init[|init| - |r0|..] + [path[|path| - 1]];
    }
  }

  /** One write to standard output. */
  datatype Write =
    | Print(text: string)                              // System.out.print(text), no newline
    | Line(text: string)                               // println(text)
    | Notice(text: string, color: AnsiColor)           // println(text.colorize(color))
    | Attached(parentPath: string, modulePath: string) // the module-attached notice
    | AttachFailed(name: string)                       // the failed-to-attach notice
    | DefaultAttached(name: string)                    // the attached-by-default notice
  {
    /** The characters the write puts on the terminal. */
    function Text(): string {
      match this
      case Print(t) => t
      case Line(t) => Println(t)
      case Notice(t, c) => Println(Colorize(t, c))
      case Attached(parent, path) =>
        Println(Colorize("Module '" + LastSegment(path) + "' successfully attached at '" + parent + "'", Magenta))
      case AttachFailed(name) =>
        Println(Colorize("\nFailed to attach module '" + name + "'. Please ensure the module configuration is correct and try again. If issues persist, consider syncing Gradle manually.\n", Red))
      case DefaultAttached(name) =>
        Println(Colorize("No specific configuration for module '" + name + "', attached by default.", Yellow))
    }
  }

  /** Everything a sequence of writes puts on the terminal, in order. */
  function Rendered(ws: seq<Write>): string
    decreases |ws|
  {
    if ws == [] then "" else ws[0].Text() + Rendered(ws[1..])
  }

  /** The terminal shows the writes of one stretch followed by those of the next. */
  lemma {:induction false} RenderedAppend(ws: seq<Write>, vs: seq<Write>)
    ensures Rendered(ws + vs) == Rendered(ws) + Rendered(vs)
    decreases |ws|
  {
    if ws != [] {
      assert (ws + vs)[1..] == ws[1..] + vs;
      RenderedAppend(ws[1..], vs);
    } else {
      assert ws + vs == vs;
    }
  }

  /** A prefix of the writes shows a prefix of the text. */
  lemma RenderedPrefix(ws: seq<Write>, vs: seq<Write>)
    requires ws <= vs
    ensures Rendered(ws) <= Rendered(vs)
  {
    assert vs == ws + vs[|ws|..];
    RenderedAppend(ws, vs[|ws|..]);
  }
}
