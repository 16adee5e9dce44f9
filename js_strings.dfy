/**
 * The JavaScript string operations the logger relies on, with their
 * JavaScript meaning: `Array.prototype.join`, `String.prototype.split` on a
 * single character, the host line ending `os.EOL`, and the decimal text of
 * an integral number.
 */
module JsStrings {
  import opened Wrappers

  /** `parts.join(sep)`: the parts with one copy of `sep` between neighbours. */
  function Join<T>(parts: seq<seq<T>>, sep: seq<T>): seq<T>
    decreases |parts|
  {
    if |parts| == 0 then []
    else if |parts| == 1 then parts[0]
    else parts[0] + sep + Join(parts[1..], sep)
  }

  lemma JoinCons<T>(head: seq<T>, rest: seq<seq<T>>, sep: seq<T>)
    requires |rest| >= 1
    ensures Join([head] + rest, sep) == head + sep + Join(rest, sep)
  {
    assert ([head] + rest)[1..] == rest;
  }

  /** `s.split(c)`: the maximal pieces of `s` between occurrences of `c`;
      never empty (`"".split(c)` is `[""]`). */
  function Split(s: string, c: char): (r: seq<string>)
    ensures |r| >= 1
    ensures forall i :: 0 <= i < |r| ==> c !in r[i]
    decreases |s|
  {
    if |s| == 0 then [""]
    else
      var rest := Split(s[1..], c);
      if s[0] == c then [""] + rest
      else [[s[0]] + rest[0]] + rest[1..]
  }

  /** Joining the pieces of a split with the same character gives the text back. */
  lemma {:induction false} JoinOfSplit(s: string, c: char)
    ensures Join(Split(s, c), [c]) == s
    decreases |s|
  {
    if |s| > 0 {
      var rest := Split(s[1..], c);
      JoinOfSplit(s[1..], c);
      if s[0] == c {
        JoinCons("", rest, [c]);
      } else {
        var head := [s[0]] + rest[0];
        if |rest| > 1 {
          JoinCons(head, rest[1..], [c]);
          JoinCons(rest[0], rest[1..], [c]);
          assert rest == [rest[0]] + rest[1..];
        }
      }
    }
  }

  lemma {:induction false} SplitAfterPlainPrefix(p: string, rest: string, c: char)
    requires c !in p
    ensures Split(p + rest, c) == [p + Split(rest, c)[0]] + Split(rest, c)[1..]
    decreases |p|
  {
    if |p| == 0 {
      assert p + rest == rest;
      var r := Split(rest, c);
      assert p + r[0] == r[0];
      assert [r[0]] + r[1..] == r;
    } else {
      var r := Split(rest, c);
      assert (p + rest)[0] == p[0] && (p + rest)[1..] == p[1..] + rest;
      SplitAfterPlainPrefix(p[1..], rest, c);
      var r' := Split(p[1..] + rest, c);
      assert r' == [p[1..] + r[0]] + r[1..];
      assert Split(p + rest, c) == [[p[0]] + r'[0]] + r'[1..];
      assert [p[0]] + (p[1..] + r[0]) == p + r[0];
    }
  }

  /** Splitting a join of separator-free pieces gives the pieces back. */
  lemma {:induction false} SplitOfJoin(parts: seq<string>, c: char)
    requires |parts| >= 1
    requires forall i :: 0 <= i < |parts| ==> c !in parts[i]
    ensures Split(Join(parts, [c]), c) == parts
    decreases |parts|
  {
    if |parts| == 1 {
      SplitAfterPlainPrefix(parts[0], "", c);
      assert parts[0] + "" == parts[0];
    } else {
      var tail := Join(parts[1..], [c]);
      SplitOfJoin(parts[1..], c);
      JoinCons(parts[0], parts[1..], [c]);
      assert Join(parts, [c]) == parts[0] + ([c] + tail);
      SplitAfterPlainPrefix(parts[0], [c] + tail, c);
      assert ([c] + tail)[0] == c && ([c] + tail)[1..] == tail;
      var after := Split([c] + tail, c);
      assert after == [""] + Split(tail, c);
      assert after[0] == "" && after[1..] == parts[1..];
      assert parts[0] + "" == parts[0];
      assert parts == [parts[0]] + parts[1..];
    }
  }

  /** The host line ending `os.EOL`: "\n" on POSIX hosts, "\r\n" on Windows. */
  datatype Eol = Lf | CrLf {
    function Text(): (r: string)
      ensures |r| >= 1 && r[|r| - 1] == '\n' && '\n' !in r[..|r| - 1]
    {
      if Lf? then "\n" else "\r\n"
    }

    /** What precedes the final newline of the line ending. */
    function BeforeNewline(): (r: string)
      ensures Text() == r + "\n"
    {
      if Lf? then "" else "\r"
    }
  }

  /** Every piece but the last followed by `pre`. */
  function Suffixed(parts: seq<string>, pre: string): (r: seq<string>)
  {
    seq(|parts|, i requires 0 <= i < |parts| => parts[i] + (if i < |parts| - 1 then pre else ""))
  }

  lemma {:induction false} JoinBeforeNewline(parts: seq<string>, pre: string)
    requires |parts| >= 1
    ensures Join(parts, pre + "\n") == Join(Suffixed(parts, pre), "\n")
    decreases |parts|
  {
    var sp := Suffixed(parts, pre);
    if |parts| == 1 {
      assert sp == [parts[0] + ""];
      assert parts[0] + "" == parts[0];
    } else {
      JoinBeforeNewline(parts[1..], pre);
      assert sp == [parts[0] + pre] + Suffixed(parts[1..], pre);
      JoinCons(parts[0] + pre, Suffixed(parts[1..], pre), "\n");
      assert parts == [parts[0]] + parts[1..];
      JoinCons(parts[0], parts[1..], pre + "\n");
    }
  }

  /** Splitting on '\n' a text whose lines were joined with the host line
      ending gives each line back, the ones before the last followed by
      whatever the line ending puts before its '\n' ("" or "\r"). */
  lemma LinesOfEolJoin(parts: seq<string>, eol: Eol)
    requires |parts| >= 1
    requires forall i :: 0 <= i < |parts| ==> '\n' !in parts[i]
    ensures Split(Join(parts, eol.Text()), '\n') == Suffixed(parts, eol.BeforeNewline())
  {
    var pre := eol.BeforeNewline();
    JoinBeforeNewline(parts, pre);
    var sp := Suffixed(parts, pre);
    forall i | 0 <= i < |sp| ensures '\n' !in sp[i] {
      assert '\n' !in pre;
      assert sp[i] == parts[i] + (if i < |parts| - 1 then pre else "");
    }
    SplitOfJoin(sp, '\n');
  }

  /* ---------------------------- numbers as text ---------------------------- */

  predicate IsDigit(ch: char) {
    '0' <= ch <= '9'
  }

  function DigitChar(d: nat): (ch: char)
    requires d < 10
    ensures IsDigit(ch)
  {
    ('0' as int + d) as char
  }

  /** Decimal digits of `n`, without leading zeros. */
  function NatToDecimal(n: nat): (r: string)
    ensures |r| >= 1
    ensures forall i :: 0 <= i < |r| ==> IsDigit(r[i])
    ensures r[0] == '0' ==> n == 0
  {
    if n < 10 then [DigitChar(n)]
    else NatToDecimal(n / 10) + [DigitChar(n % 10)]
  }

  /** The value of a string of decimal digits. */
  function DecimalValue(s: string): nat
    requires forall i :: 0 <= i < |s| ==> IsDigit(s[i])
  {
    if |s| == 0 then 0
    else DecimalValue(s[..|s| - 1]) * 10 + DigitValue(s[|s| - 1])
  }

  function DigitValue(ch: char): nat
    requires IsDigit(ch)
  {
    ch as int - '0' as int
  }

  lemma {:induction false} DecimalRoundTrip(n: nat)
    ensures DecimalValue(NatToDecimal(n)) == n
  {
    var s := NatToDecimal(n);
    if n >= 10 {
      DecimalRoundTrip(n / 10);
      assert s[..|s| - 1] == NatToDecimal(n / 10);
    }
  }

  /** `String(n)` (or `${n}`) for an integral number: an optional minus sign
      followed by the decimal digits. */
  function NumberToString(n: int): (r: string)
    ensures |r| >= 1
    ensures forall i :: 0 <= i < |r| ==> IsDigit(r[i]) || (i == 0 && r[i] == '-')
    ensures (r[0] == '-') == (n < 0)
  {
    if n < 0 then "-" + NatToDecimal(-n) else NatToDecimal(n)
  }

  /** The number a string produced by `NumberToString` denotes. */
  function NumberValue(s: string): int
    requires |s| >= 1
    requires forall i :: 0 <= i < |s| ==> IsDigit(s[i]) || (i == 0 && s[i] == '-')
  {
    if s[0] == '-' then 0 - DecimalValue(s[1..]) as int else DecimalValue(s)
  }

  /** The decimal text of a number denotes that number, so distinct numbers
      print differently. */
  lemma NumberToStringRoundTrip(n: int)
    ensures NumberValue(NumberToString(n)) == n
  {
    if n < 0 {
      assert NumberToString(n)[1..] == NatToDecimal(-n);
      DecimalRoundTrip(-n);
    } else {
      DecimalRoundTrip(n);
    }
  }

  lemma NumberToStringInjective(a: int, b: int)
    requires NumberToString(a) == NumberToString(b)
    ensures a == b
  {
    NumberToStringRoundTrip(a);
    NumberToStringRoundTrip(b);
  }
}
