/**
 * Text helpers the plugin takes from Go's `strings` and `fmt` packages:
 * substring search, decimal formatting, splitting on a separator and joining.
 */
module Text {

  /** `strings.Contains`: `sub` occurs somewhere in `s` (the empty string occurs everywhere). */
  predicate Contains(s: string, sub: string)
    ensures |sub| <= |s| && s[..|sub|] == sub ==> Contains(s, sub)
    ensures |sub| <= |s| && s[|s| - |sub|..] == sub ==> Contains(s, sub)
    ensures Contains(s, sub) ==> |sub| <= |s|
  {
    assert |sub| <= |s| && s[..|sub|] == sub ==> OccursAt(s, sub, 0);
    assert |sub| <= |s| && s[|s| - |sub|..] == sub ==> OccursAt(s, sub, |s| - |sub|);
    exists i | 0 <= i <= |s| - |sub| :: OccursAt(s, sub, i)
  }

  /** `sub` starts at position `i` of `s`. */
  predicate OccursAt(s: string, sub: string, i: int) {
    0 <= i && i + |sub| <= |s| && s[i..i + |sub|] == sub
  }

  predicate IsDigit(c: char) {
    '0' <= c <= '9'
  }

  predicate IsDecimal(s: string) {
    forall k | 0 <= k < |s| :: IsDigit(s[k])
  }

  function DigitChar(d: nat): (c: char)
    requires d < 10
    ensures IsDigit(c) && c as int - '0' as int == d
  {
    ['0', '1', '2', '3', '4', '5', '6', '7', '8', '9'][d]
  }

  /** `%d` of a non-negative integer: decimal digits, most significant first, no leading zero. */
  function NatToDecimal(n: nat): (s: string)
    ensures |s| >= 1 && IsDecimal(s)
    ensures s[0] == '0' <==> n == 0
    ensures n == 0 ==> s == "0"
    decreases n
  {
    if n < 10 then [DigitChar(n)] else NatToDecimal(n / 10) + [DigitChar(n % 10)]
  }

  /** The number a string of decimal digits denotes. */
  function DecimalValue(s: string): (n: nat)
    requires IsDecimal(s)
  {
    if s == [] then 0 else DecimalValue(s[..|s| - 1]) * 10 + (s[|s| - 1] as int - '0' as int)
  }

  /** Reading back what `NatToDecimal` wrote gives the number again. */
  lemma {:induction false} DecimalRoundTrip(n: nat)
    ensures DecimalValue(NatToDecimal(n)) == n
    decreases n
  {
    var s := NatToDecimal(n);
    if n >= 10 {
      DecimalRoundTrip(n / 10);
      assert s[..|s| - 1] == NatToDecimal(n / 10);
    }
  }

  /** Two numbers with the same decimal text are equal. */
  lemma DecimalInjective(m: nat, n: nat)
    requires NatToDecimal(m) == NatToDecimal(n)
    ensures m == n
  {
    DecimalRoundTrip(m);
    DecimalRoundTrip(n);
  }

  /** `strings.Join`: the parts with `sep` between neighbours; no parts give "". */
  function Join(parts: seq<string>, sep: string): (s: string)
    ensures parts == [] ==> s == ""
    ensures parts != [] ==> |parts[0]| <= |s| && s[..|parts[0]|] == parts[0]
    decreases |parts|
  {
    if parts == [] then ""
    else if |parts| == 1 then parts[0]
    else parts[0] + sep + Join(parts[1..], sep)
  }

  /** Every part of a join can be found in the joined text. */
  lemma {:induction false} JoinContainsPart(parts: seq<string>, sep: string, k: nat)
    requires k < |parts|
    ensures Contains(Join(parts, sep), parts[k])
    decreases |parts|
  {
    var s := Join(parts, sep);
    if k == 0 {
      assert OccursAt(s, parts[0], 0);
    } else {
      var rest := Join(parts[1..], sep);
      JoinContainsPart(parts[1..], sep, k - 1);
      var i :| 0 <= i <= |rest| - |parts[k]| && OccursAt(rest, parts[k], i);
      var off := |parts[0] + sep|;
      assert s == parts[0] + sep + rest;
      assert s[off + i..off + i + |parts[k]|] == rest[i..i + |parts[k]|];
      assert OccursAt(s, parts[k], off + i);
    }
  }

  /** Joined length: all the parts plus one separator between each neighbouring pair. */
  lemma {:induction false} JoinLength(parts: seq<string>, sep: string)
    requires parts != []
    ensures |Join(parts, sep)| == TotalLength(parts) + (|parts| - 1) * |sep|
    decreases |parts|
  {
    if |parts| > 1 {
      JoinLength(parts[1..], sep);
    }
  }

  function TotalLength(parts: seq<string>): (total: nat)
    decreases |parts|
  {
    if parts == [] then 0 else |parts[0]| + TotalLength(parts[1..])
  }

  /** `strings.Split(s, "\n")`: the pieces between line feeds; "" gives [""]. */
  function SplitLines(s: string): (lines: seq<string>)
    ensures |lines| >= 1
    ensures forall k | 0 <= k < |lines| :: '\n' !in lines[k]
    ensures Join(lines, "\n") == s
    decreases |s|
  {
    if s == [] then [""]
    else if s[0] == '\n' then [""] + SplitLines(s[1..])
    else
      var rest := SplitLines(s[1..]);
      [[s[0]] + rest[0]] + rest[1..]
  }

  /** Splitting a join of line-feed-free pieces gives the pieces back. */
  lemma {:induction false} SplitJoinLines(lines: seq<string>)
    requires |lines| >= 1
    requires forall k | 0 <= k < |lines| :: '\n' !in lines[k]
    ensures SplitLines(Join(lines, "\n")) == lines
    decreases |lines|, |lines[0]|
  {
    var s := Join(lines, "\n");
    if lines[0] == [] {
      if |lines| > 1 {
        assert s == "\n" + Join(lines[1..], "\n");
        SplitJoinLines(lines[1..]);
        assert s[1..] == Join(lines[1..], "\n");
        assert lines == [""] + lines[1..];
      }
    } else {
      var tail := [lines[0][1..]] + lines[1..];
      assert tail[1..] == lines[1..];
      assert Join(tail, "\n") == s[1..];
      assert s[0] == lines[0][0];
      SplitJoinLines(tail);
      assert lines[0] == [s[0]] + tail[0];
      assert lines == [[s[0]] + tail[0]] + tail[1..];
    }
  }
}
