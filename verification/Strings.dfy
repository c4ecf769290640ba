/** Splitting, joining and trimming text, and decimal numbers in it. */
module Strings {
  import opened Options

  // The characters `trim` removes.
  predicate IsSpace(c: char) {
    var n := c as int;
    (9 <= n <= 13) || n == 32 || n == 0xA0 || n == 0x1680 || (0x2000 <= n <= 0x200A)
    || n == 0x2028 || n == 0x2029 || n == 0x202F || n == 0x205F || n == 0x3000 || n == 0xFEFF
  }

  function TrimStart(s: string): string {
    if s != "" && IsSpace(s[0]) then TrimStart(s[1..]) else s
  }

  function TrimEnd(s: string): string {
    if s != "" && IsSpace(s[|s| - 1]) then TrimEnd(s[..|s| - 1]) else s
  }

  function Trim(s: string): string {
    TrimEnd(TrimStart(s))
  }

  function Split(s: string, sep: char): (parts: seq<string>)
    ensures parts != []
  {
    if s == "" then [""]
    else
      var rest := Split(s[1..], sep);
      if s[0] == sep then [""] + rest else [[s[0]] + rest[0]] + rest[1..]
  }

  function Join(parts: seq<string>, sep: char): string {
    if parts == [] then ""
    else if |parts| == 1 then parts[0]
    else parts[0] + [sep] + Join(parts[1..], sep)
  }

  predicate IsDigit(c: char) {
    '0' <= c <= '9'
  }

  function DigitsPrefix(s: string): nat {
    if s == "" || !IsDigit(s[0]) then 0 else 1 + DigitsPrefix(s[1..])
  }

  // The number spelled by the digits at the front of `s`, after the digits already read.
  function ReadDigits(s: string, soFar: nat): nat {
    if s == "" || !IsDigit(s[0]) then soFar
    else ReadDigits(s[1..], soFar * 10 + (s[0] as int - '0' as int))
  }

  // `parseInt(s, 10)`: None for NaN.
  function ParseInt(s: string): Option<int> {
    var t := TrimStart(s);
    var negative := t != "" && t[0] == '-';
    var digits := if t != "" && (t[0] == '-' || t[0] == '+') then t[1..] else t;
    if DigitsPrefix(digits) == 0 then None
    else
      var n: int := ReadDigits(digits, 0);
      Some(if negative then -n else n)
  }

  function Digits(n: nat): string {
    if n < 10 then [('0' as int + n) as char] else Digits(n / 10) + [('0' as int + n % 10) as char]
  }

  /** A separator cuts off everything before it. */
  lemma {:induction false} SplitAt(a: string, b: string, sep: char)
    requires sep !in a
    ensures Split(a + [sep] + b, sep) == [a] + Split(b, sep)
  {
    var s := a + [sep] + b;
    if a == "" {
      assert s[1..] == b;
    } else {
      assert s[0] == a[0] && a[0] in a;
      SplitAt(a[1..], b, sep);
      assert s[1..] == a[1..] + [sep] + b;
      assert [a[0]] + a[1..] == a;
      assert ([a[1..]] + Split(b, sep))[1..] == Split(b, sep);
    }
  }

  function Occurrences(s: string, c: char): nat {
    if s == "" then 0 else (if s[0] == c then 1 else 0) + Occurrences(s[1..], c)
  }

  lemma {:induction false} PartsAreCounted(s: string, sep: char)
    ensures |Split(s, sep)| == 1 + Occurrences(s, sep)
  {
    if s != "" {
      PartsAreCounted(s[1..], sep);
    }
  }

  lemma {:induction false} SplitWhole(s: string, sep: char)
    requires sep !in s
    ensures Split(s, sep) == [s]
  {
    if s != "" {
      assert s[0] in s;
      SplitWhole(s[1..], sep);
      assert [s[0]] + s[1..] == s;
    }
  }

  lemma {:induction false} SplitOfJoin(parts: seq<string>, sep: char)
    requires parts != [] && forall p | p in parts :: sep !in p
    ensures Split(Join(parts, sep), sep) == parts
  {
    if |parts| == 1 {
      SplitWhole(parts[0], sep);
    } else {
      SplitOfJoin(parts[1..], sep);
      SplitAt(parts[0], Join(parts[1..], sep), sep);
    }
  }

  lemma JoinWithFront(c: char, parts: seq<string>, sep: char)
    requires parts != []
    ensures Join([[c] + parts[0]] + parts[1..], sep) == [c] + Join(parts, sep)
  {
    if |parts| > 1 {
      var tail := Join(parts[1..], sep);
      assert ([[c] + parts[0]] + parts[1..])[1..] == parts[1..];
      assert ([c] + parts[0]) + [sep] + tail == [c] + (parts[0] + [sep] + tail);
    }
  }

  lemma {:induction false} JoinOfSplit(s: string, sep: char)
    ensures Join(Split(s, sep), sep) == s
  {
    if s != "" {
      var rest := Split(s[1..], sep);
      JoinOfSplit(s[1..], sep);
      assert s == [s[0]] + s[1..];
      if s[0] == sep {
        assert ([""] + rest)[1..] == rest;
        assert "" + [sep] + Join(rest, sep) == s;
      } else {
        JoinWithFront(s[0], rest, sep);
      }
    }
  }

  /** Reading the printed number and going on is going on from that number. */
  lemma {:induction false} ReadsBack(n: nat, more: string)
    ensures ReadDigits(Digits(n) + more, 0) == ReadDigits(more, n)
  {
    if n < 10 {
      assert (Digits(n) + more)[1..] == more;
    } else {
      var last := [('0' as int + n % 10) as char];
      ReadsBack(n / 10, last + more);
      assert Digits(n) + more == Digits(n / 10) + (last + more);
      assert (last + more)[1..] == more;
    }
  }

  lemma {:induction false} DigitsAreDigits(n: nat)
    ensures Digits(n) != "" && forall c | c in Digits(n) :: IsDigit(c)
  {
    if n >= 10 {
      DigitsAreDigits(n / 10);
    }
  }

  lemma TrimFixed(s: string)
    requires s != "" && !IsSpace(s[0]) && !IsSpace(s[|s| - 1])
    ensures Trim(s) == s
  {
  }

  /** Trimming takes spaces off both ends and nothing else. */
  lemma {:induction false} TrimTakesSpaces(s: string) returns (a: string, b: string)
    ensures s == a + Trim(s) + b && (forall c | c in a :: IsSpace(c)) && (forall c | c in b :: IsSpace(c))
    ensures Trim(s) != "" ==> !IsSpace(Trim(s)[0]) && !IsSpace(Trim(s)[|Trim(s)| - 1])
  {
    a := StartTakesSpaces(s);
    b := EndTakesSpaces(TrimStart(s));
    assert s == a + (Trim(s) + b);
  }

  lemma {:induction false} StartTakesSpaces(s: string) returns (a: string)
    ensures s == a + TrimStart(s) && forall c | c in a :: IsSpace(c)
    ensures TrimStart(s) != "" ==> !IsSpace(TrimStart(s)[0])
  {
    a := "";
    if s != "" && IsSpace(s[0]) {
      var more := StartTakesSpaces(s[1..]);
      a := [s[0]] + more;
    }
  }

  lemma {:induction false} EndTakesSpaces(s: string) returns (b: string)
    ensures s == TrimEnd(s) + b && forall c | c in b :: IsSpace(c)
    ensures TrimEnd(s) != "" ==> !IsSpace(TrimEnd(s)[|TrimEnd(s)| - 1]) && TrimEnd(s)[0] == s[0]
  {
    b := "";
    if s != "" && IsSpace(s[|s| - 1]) {
      var more := EndTakesSpaces(s[..|s| - 1]);
      b := more + [s[|s| - 1]];
    }
  }
}
