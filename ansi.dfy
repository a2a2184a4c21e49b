/**
 * The terminal colours of the bootstrap script and the `colorize` extension
 * (git-utils.gradle.kts, `AnsiColor` and `String.colorize`).
 */
module Ansi {
  import opened Nullable

  const Escape: char := '\U{1B}'

  datatype AnsiColor = Reset | Blue | Green | Red | MagentaBold | Magenta | Yellow {
    /** The SGR escape sequence each colour stands for. */
    function Code(): (r: string)
      ensures |r| >= 4 && r[0] == Escape && r[1] == '[' && r[|r| - 1] == 'm'
      ensures 'm' !in r[..|r| - 1]
    {
      match this
      case Reset => "\U{1B}[0m"
      case Blue => "\U{1B}[94m"
      case Green => "\U{1B}[92m"
      case Red => "\U{1B}[91m"
      case MagentaBold => "\U{1B}[1;35m"
      case Magenta => "\U{1B}[38;2;255;0;191m"
      case Yellow => "\U{1B}[93m"
    }
  }

  /** `s.colorize(c)`: `s` wrapped between the colour's code and the reset code. */
  function Colorize(s: string, c: AnsiColor): (r: string)
    ensures |r| == |c.Code()| + |s| + |Reset.Code()|
    ensures r[..|c.Code()|] == c.Code()
    ensures r[|c.Code()|..|c.Code()| + |s|] == s
    ensures r[|c.Code()| + |s|..] == Reset.Code()
  {
    c.Code() + s + Reset.Code()
  }

  /** Recovers the uncoloured text from a line coloured with `c`, if it is one. */
  function Uncolorize(r: string, c: AnsiColor): (s: Option<string>)
    ensures s.Some? ==> Colorize(s.value, c) == r
  {
    var open, close := c.Code(), Reset.Code();
    if |r| >= |open| + |close| && r[..|open|] == open && r[|r| - |close|..] == close then
      var s := r[|open|..|r| - |close|];
      assert r == open + s + close;
      Some(s)
    else
      None
  }

  /** Colouring loses nothing: the text comes back out unchanged. */
  lemma UncolorizeColorize(s: string, c: AnsiColor)
    ensures Uncolorize(Colorize(s, c), c) == Some(s)
  {
    var r := Colorize(s, c);
    assert r[|c.Code()|..|r| - |Reset.Code()|] == s;
  }

  /** What `println(s)` writes to the console. */
  function Println(s: string): (r: string)
    ensures |r| == |s| + 1 && r[..|s|] == s && r[|s|] == '\n'
  {
    s + "\n"
  }
}
