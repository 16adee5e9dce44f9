/**
 * The part of `createFrame` after `codeFrameColumns` has rendered the
 * excerpt: split it on '\n', indent every line by two spaces, and join the
 * lines with the host line ending.
 */
module CodeFrame {
  import opened JsStrings

  function Indented(lines: seq<string>): (r: seq<string>)
    ensures |r| == |lines|
  {
    seq(|lines|, i requires 0 <= i < |lines| => "  " + lines[i])
  }

  /** The output has as many lines as the rendered excerpt, and line i is
      line i of the excerpt after two spaces (followed by "\r" before each
      '\n' when the host line ending is "\r\n"). */
  function IndentFrame(rawFrame: string, eol: Eol): (r: string)
    ensures var lines := Split(rawFrame, '\n');
            var out := Split(r, '\n');
            |out| == |lines| &&
            forall i :: 0 <= i < |lines| ==>
              out[i] == "  " + lines[i] + (if i < |lines| - 1 then eol.BeforeNewline() else "")
  {
    var lines := Split(rawFrame, '\n');
    var indented := Indented(lines);
    assert forall i :: 0 <= i < |indented| ==> '\n' !in indented[i] by {
      forall i | 0 <= i < |indented| ensures '\n' !in indented[i] {
        assert indented[i] == "  " + lines[i];
      }
    }
    LinesOfEolJoin(indented, eol);
    Join(indented, eol.Text())
  }
}
