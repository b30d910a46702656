/** Text shared by every component: splitting and joining on one separator
    character, and unsigned decimal numbers. Strings stand for byte strings,
    one `char` per byte. */
module Text {
  type Bytes = string

  datatype Option<+T> = None | Some(value: T)

  /** Cuts `s` at every `sep`; the result is never empty. */
  function Split(s: string, sep: char): (parts: seq<string>)
    ensures |parts| >= 1
    ensures sep !in s ==> parts == [s]
    ensures forall part :: part in parts ==> sep !in part
  {
    if s == "" then [""]
    else
      assert s == [s[0]] + s[1..];
      var rest := Split(s[1..], sep);
      if s[0] == sep then [""] + rest else [[s[0]] + rest[0]] + rest[1..]
  }

  function Join(parts: seq<string>, sep: char): string {
    if |parts| == 0 then ""
    else if |parts| == 1 then parts[0]
    else parts[0] + [sep] + Join(parts[1..], sep)
  }

  ghost predicate Free(s: string, sep: char) {
    sep !in s
  }

  ghost predicate AllFree(parts: seq<string>, sep: char) {
    forall part :: part in parts ==> Free(part, sep)
  }

  /** The first separator ends the first part. */
  lemma {:induction false} SplitAtFirst(a: string, sep: char, b: string)
    requires sep !in a
    ensures Split(a + [sep] + b, sep) == [a] + Split(b, sep)
  {
    var s := a + [sep] + b;
    if a == "" {
      assert s[1..] == b;
    } else {
      SplitAtFirst(a[1..], sep, b);
      assert s[1..] == a[1..] + [sep] + b;
      assert [a[0]] + a[1..] == a;
    }
  }

  /** Splitting undoes joining. */
  lemma {:induction false} SplitJoin(parts: seq<string>, sep: char)
    requires |parts| >= 1 && AllFree(parts, sep)
    ensures Split(Join(parts, sep), sep) == parts
  {
    assert Free(parts[0], sep);
    if |parts| > 1 {
      SplitJoin(parts[1..], sep);
      SplitAtFirst(parts[0], sep, Join(parts[1..], sep));
    }
  }

  /** Joining undoes splitting. */
  lemma {:induction false} JoinSplit(s: string, sep: char)
    ensures Join(Split(s, sep), sep) == s
  {
    if s != "" {
      JoinSplit(s[1..], sep);
      var rest := Split(s[1..], sep);
      assert s == [s[0]] + s[1..];
      if s[0] == sep {
        assert ([""] + rest)[1..] == rest;
      } else {
        var parts := [[s[0]] + rest[0]] + rest[1..];
        assert parts[1..] == rest[1..];
      }
    }
  }

  lemma {:induction false} JoinConcat(x: seq<string>, y: seq<string>, sep: char)
    requires |x| >= 1 && |y| >= 1
    ensures Join(x + y, sep) == Join(x, sep) + [sep] + Join(y, sep)
  {
    assert (x + y)[1..] == x[1..] + y;
    if |x| > 1 {
      JoinConcat(x[1..], y, sep);
    }
  }

  /** A joined list splits into the pieces of its parts, left to right. */
  lemma SplitAppend(a: string, sep: char, b: string)
    ensures Split(a + [sep] + b, sep) == Split(a, sep) + Split(b, sep)
  {
    var x, y := Split(a, sep), Split(b, sep);
    JoinSplit(a, sep);
    JoinSplit(b, sep);
    JoinConcat(x, y, sep);
    SplitJoin(x + y, sep);
  }

  /** Parts hold no character that the whole text does not hold. */
  lemma {:induction false} SplitKeepsFree(s: string, sep: char, other: char)
    requires Free(s, other)
    ensures AllFree(Split(s, sep), other)
  {
    if s != "" {
      SplitKeepsFree(s[1..], sep, other);
      var rest := Split(s[1..], sep);
      assert Free(rest[0], other);
    }
  }

  // ----- unsigned decimal numbers -----

  const UINT64_LIMIT: nat := 0x1_0000_0000_0000_0000

  predicate IsDigit(c: char) {
    '0' <= c <= '9'
  }

  predicate AllDigits(s: string) {
    forall c :: c in s ==> IsDigit(c)
  }

  function Digit(d: nat): (c: char)
    requires d < 10
    ensures IsDigit(c)
  {
    '0' + d as char
  }

  function Format(n: nat): (s: string)
    ensures s != "" && AllDigits(s)
  {
    if n < 10 then [Digit(n)] else Format(n / 10) + [Digit(n % 10)]
  }

  function Value(s: string): nat
    requires AllDigits(s)
  {
    if s == "" then 0
    else
      assert s[|s| - 1] in s;
      10 * Value(s[..|s| - 1]) + (s[|s| - 1] - '0') as nat
  }

  /** A 64-bit unsigned decimal: rejects the empty text, any character that is
      not a digit, and values of 2^64 and above. */
  function ParseUint(s: string): Option<nat> {
    if s == "" || !AllDigits(s) || Value(s) >= UINT64_LIMIT then None else Some(Value(s))
  }

  lemma {:induction false} ValueFormat(n: nat)
    ensures Value(Format(n)) == n
  {
    if n >= 10 {
      ValueFormat(n / 10);
      var s := Format(n);
      assert s[..|s| - 1] == Format(n / 10);
    }
  }

  lemma ParseFormat(n: nat)
    ensures ParseUint(Format(n)) == if n < UINT64_LIMIT then Some(n) else None
  {
    ValueFormat(n);
  }

  /** A leading zero makes no difference. */
  lemma {:induction false} LeadingZero(s: string)
    requires AllDigits(s)
    ensures Value("0" + s) == Value(s)
  {
    assert AllDigits("0" + s);
    if s != "" {
      var front, last := s[..|s| - 1], s[|s| - 1];
      assert ("0" + s)[..|s|] == "0" + front && ("0" + s)[|s|] == last;
      LeadingZero(front);
    } else {
      assert "0" + s == "0" && "0"[..0] == "";
    }
  }
}
