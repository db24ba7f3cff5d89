/** The few string operations of the Go standard library that the handlers
    rely on: splitting on newlines, decimal formatting and ASCII lower-casing.
    Go strings are byte strings; a `char` here stands for one byte. */
module Text {

  /** strings.Split(s, "\n"): the pieces between newlines, in order. An empty
      string gives one empty piece, and empty lines are kept. */
  function SplitLines(s: string): (lines: seq<string>)
    ensures |lines| >= 1
    decreases |s|
  {
    if s == [] then [""]
    else
      var rest := SplitLines(s[1..]);
      if s[0] == '\n' then [""] + rest
      else [[s[0]] + rest[0]] + rest[1..]
  }

  /** strings.Join(lines, "\n"). */
  function JoinLines(lines: seq<string>): string
    requires |lines| >= 1
  {
    if |lines| == 1 then lines[0] else lines[0] + "\n" + JoinLines(lines[1..])
  }

  function NewlineCount(s: string): nat
  {
    if s == [] then 0 else (if s[0] == '\n' then 1 else 0) + NewlineCount(s[1..])
  }

  /** Splitting loses nothing: joining the pieces back with newlines gives
      the original text. */
  lemma {:induction false} SplitLinesRoundTrip(s: string)
    ensures JoinLines(SplitLines(s)) == s
  {
    if s != [] {
      var rest := SplitLines(s[1..]);
      SplitLinesRoundTrip(s[1..]);
      if s[0] == '\n' {
        JoinLinesCons("", rest);
      } else {
        JoinLinesPrepend(s[0], rest);
      }
      assert s == [s[0]] + s[1..];
    }
  }

  lemma JoinLinesCons(head: string, tail: seq<string>)
    requires |tail| >= 1
    ensures JoinLines([head] + tail) == head + "\n" + JoinLines(tail)
  {
  }

  /** Prepending a character to the first piece prepends it to the join. */
  lemma JoinLinesPrepend(c: char, lines: seq<string>)
    requires |lines| >= 1
    ensures JoinLines([[c] + lines[0]] + lines[1..]) == [c] + JoinLines(lines)
  {
  }


  /** There is one more piece than there are newlines, and no piece holds a
      newline. */
  lemma {:induction false} SplitLinesPieces(s: string)
    ensures |SplitLines(s)| == NewlineCount(s) + 1
    ensures forall i :: 0 <= i < |SplitLines(s)| ==> '\n' !in SplitLines(s)[i]
  {
    if s != [] {
      var rest := SplitLines(s[1..]);
      SplitLinesPieces(s[1..]);
      var lines := SplitLines(s);
      if s[0] != '\n' {
        forall i | 0 <= i < |lines| ensures '\n' !in lines[i] {
          if i == 0 {
            assert '\n' !in rest[0];
          } else {
            assert lines[i] == rest[i];
          }
        }
      }
    }
  }


  function Digit(d: nat): (c: char)
    requires d < 10
  {
    ('0' as int + d) as char
  }

  /** strconv.Itoa on a non-negative number: its decimal digits, no leading
      zero. */
  function Decimal(n: nat): (s: string)
    ensures 1 <= |s|
    ensures n >= 10 ==> 2 <= |s|
    ensures forall i :: 0 <= i < |s| ==> '0' <= s[i] <= '9'
    decreases n
  {
    if n < 10 then [Digit(n)] else Decimal(n / 10) + [Digit(n % 10)]
  }

  /** Different numbers never print the same: Decimal is injective. */
  lemma {:induction false} DecimalInjective(a: nat, b: nat)
    requires Decimal(a) == Decimal(b)
    ensures a == b
    decreases a
  {
    if a >= 10 && b >= 10 {
      var da, db := Decimal(a), Decimal(b);
      assert da[|da| - 1] == Digit(a % 10);
      assert db[|db| - 1] == Digit(b % 10);
      assert da[..|da| - 1] == Decimal(a / 10);
      assert db[..|db| - 1] == Decimal(b / 10);
      DecimalInjective(a / 10, b / 10);
    } else if a < 10 && b < 10 {
      assert Decimal(a)[0] == Digit(a);
      assert Decimal(b)[0] == Digit(b);
    }
  }

  /** fmt's %d on a signed number. */
  function SignedDecimal(i: int): string
  {
    if i < 0 then "-" + Decimal(-i) else Decimal(i)
  }

  function LowerChar(c: char): char
  {
    if 'A' <= c <= 'Z' then (c as int + 32) as char else c
  }

  /** strings.ToLower, on the ASCII letters. */
  function Lower(s: string): (r: string)
    ensures |r| == |s|
    ensures forall i :: 0 <= i < |r| ==> !('A' <= r[i] <= 'Z')
    ensures forall i :: 0 <= i < |s| && !('A' <= s[i] <= 'Z') ==> r[i] == s[i]
    ensures forall i :: 0 <= i < |s| && 'A' <= s[i] <= 'Z' ==> r[i] as int == s[i] as int + 32
  {
    seq(|s|, i requires 0 <= i < |s| => LowerChar(s[i]))
  }
}
