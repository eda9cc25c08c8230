/** The string operations the report is built from: Python's `sep.join(parts)`,
    its inverse `s.split('\n')`, and `str(n)` of a natural number. */
module Text {

  /** `sep.join(parts)`: the parts with one separator between neighbours. */
  function JoinWith(parts: seq<string>, sep: string): string
  {
    if |parts| == 0 then ""
    else if |parts| == 1 then parts[0]
    else parts[0] + sep + JoinWith(parts[1..], sep)
  }

  /** Joining a part in front of the others adds it and a separator. */
  lemma JoinWithFront(parts: seq<string>, sep: string, tail: string)
    requires |parts| >= 2 && JoinWith(parts[1..], sep) == tail
    ensures JoinWith(parts, sep) == parts[0] + sep + tail
  {
  }

  /** A join whose last part is empty ends with the separator after the join of the
      other parts. */
  lemma {:induction false} JoinWithLastEmpty(parts: seq<string>, sep: string)
    requires |parts| >= 2 && parts[|parts| - 1] == ""
    ensures JoinWith(parts, sep) == JoinWith(parts[..|parts| - 1], sep) + sep
  {
    var n := |parts| - 1;
    if n == 1 {
      assert parts[1..] == [""];
      assert parts[..n] == [parts[0]];
    } else {
      JoinWithLastEmpty(parts[1..], sep);
      assert parts[1..][..n - 1] == parts[..n][1..];
    }
  }

  /** With a non-empty separator the join is empty exactly for no parts or a single
      empty part, so `', '.join(images)` is falsy for `[]` and for `[""]` only. */
  lemma JoinWithEmpty(parts: seq<string>, sep: string)
    requires sep != ""
    ensures JoinWith(parts, sep) == "" <==> (parts == [] || parts == [""])
  {
    if |parts| >= 2 {
      assert |JoinWith(parts, sep)| >= |sep|;
    }
  }

  /** `s.split('\n')`: the maximal newline-free pieces of `s`, so never empty. */
  function SplitLines(s: string): (r: seq<string>)
    ensures |r| >= 1
    ensures forall k :: 0 <= k < |r| ==> '\n' !in r[k]
  {
    if s == [] then [""]
    else
      var rest := SplitLines(s[1..]);
      if s[0] == '\n' then [""] + rest
      else [[s[0]] + rest[0]] + rest[1..]
  }

  predicate NoNewlines(lines: seq<string>) {
    forall k :: 0 <= k < |lines| ==> '\n' !in lines[k]
  }

  lemma {:induction false} SplitWithoutNewline(x: string)
    requires '\n' !in x
    ensures SplitLines(x) == [x]
  {
    if x != [] {
      SplitWithoutNewline(x[1..]);
      assert [x[0]] + x[1..] == x;
    }
  }

  lemma {:induction false} SplitAtFirstNewline(x: string, y: string)
    requires '\n' !in x
    ensures SplitLines(x + "\n" + y) == [x] + SplitLines(y)
  {
    if x == [] {
      assert x + "\n" + y == "\n" + y;
      assert ("\n" + y)[1..] == y;
    } else {
      assert (x + "\n" + y)[1..] == x[1..] + "\n" + y;
      SplitAtFirstNewline(x[1..], y);
      assert [x[0]] + x[1..] == x;
    }
  }

  /** Splitting the newline-join of newline-free lines gives the lines back. */
  lemma {:induction false} SplitJoinLines(lines: seq<string>)
    requires |lines| >= 1 && NoNewlines(lines)
    ensures SplitLines(JoinWith(lines, "\n")) == lines
  {
    if |lines| == 1 {
      SplitWithoutNewline(lines[0]);
    } else {
      SplitJoinLines(lines[1..]);
      SplitAtFirstNewline(lines[0], JoinWith(lines[1..], "\n"));
      assert [lines[0]] + lines[1..] == lines;
    }
  }

  /** The decimal digit of `d`. */
  function Digit(d: nat): (c: char)
    requires d < 10
    ensures '0' <= c <= '9' && DigitValue(c) == d
  {
    ('0' as int + d) as char
  }

  /** The value of a decimal digit. */
  function DigitValue(c: char): nat
    requires '0' <= c <= '9'
  {
    c as int - '0' as int
  }

  predicate IsDecimal(s: string) {
    forall k :: 0 <= k < |s| ==> '0' <= s[k] <= '9'
  }

  /** The number a string of decimal digits denotes, most significant digit first. */
  function DecimalValue(s: string): nat
    requires IsDecimal(s)
  {
    if s == [] then 0 else DecimalValue(s[..|s| - 1]) * 10 + DigitValue(s[|s| - 1])
  }

  /** `str(n)` for a natural number: its decimal digits, most significant first, with no
      leading zero. */
  function DecimalString(n: nat): (r: string)
    ensures |r| >= 1 && IsDecimal(r)
    ensures DecimalValue(r) == n
    ensures r[0] == '0' <==> n == 0
    ensures |r| > 1 ==> r[0] != '0'
  {
    if n < 10 then [Digit(n)]
    else
      var front := DecimalString(n / 10);
      assert (front + [Digit(n % 10)])[..|front|] == front;
      front + [Digit(n % 10)]
  }
}
