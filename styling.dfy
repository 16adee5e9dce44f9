/**
 * Terminal styling (the `chalk` library) as tagged text. A styled string is a
 * sequence of spans, each either plain or carrying one style; the ANSI bytes a
 * style stands for are not modelled. `chalk` returns "" for an empty input,
 * so a text is empty exactly when its unstyled characters are.
 */
module Styling {
  datatype Background = RedBright | YellowBright | BlueBright | CyanBright

  /** `chalk.red`, `chalk.yellow`, `chalk.green`, and
      `chalk.bold.rgb(0, 0, 0).bg<Colour>Bright`. */
  datatype Style = Red | Yellow | Green | BoldBlackOn(background: Background)

  datatype Span = Plain(text: string) | Styled(style: Style, text: string)

  type Text = seq<Span>

  /** The characters of a text with its styling removed. */
  function Unstyled(t: Text): string
    decreases |t|
  {
    if |t| == 0 then "" else t[0].text + Unstyled(t[1..])
  }

  lemma {:induction false} UnstyledAppend(a: Text, b: Text)
    ensures Unstyled(a + b) == Unstyled(a) + Unstyled(b)
    decreases |a|
  {
    if |a| > 0 {
      assert (a + b)[0] == a[0] && (a + b)[1..] == a[1..] + b;
      UnstyledAppend(a[1..], b);
    } else {
      assert a + b == b;
    }
  }

  /** JavaScript truthiness of the string the text stands for. */
  predicate Truthy(t: Text) {
    Unstyled(t) != ""
  }
}
