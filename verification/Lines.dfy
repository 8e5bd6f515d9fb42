/** Separator-framed text: `bytes.Split`, `strings.Join`, LF-terminated lines and decimal printing. */
module Lines {
  const LF := '\n'

  function Split<T(==)>(s: seq<T>, sep: T): (parts: seq<seq<T>>)
    ensures |parts| >= 1
    ensures forall p :: p in parts ==> sep !in p
    ensures Join(parts, sep) == s
  {
    if s == [] then
      assert forall p :: p in [s] ==> sep !in p;
      [[]]
    else
      var rest := Split(s[1..], sep);
      if s[0] == sep then
        var parts := [[]] + rest;
        assert parts[1..] == rest;
        parts
      else
        var parts := [[s[0]] + rest[0]] + rest[1..];
        assert parts[1..] == rest[1..];
        assert forall p :: p in parts ==> p == parts[0] || p in rest;
        parts
  }

  function Join<T>(parts: seq<seq<T>>, sep: T): seq<T>
    requires |parts| >= 1
  {
    if |parts| == 1 then parts[0] else parts[0] + [sep] + Join(parts[1..], sep)
  }

  /** Split is the only inverse of Join on separator-free parts. */
  lemma {:induction false} SplitOfJoin<T>(parts: seq<seq<T>>, sep: T)
    requires |parts| >= 1
    requires forall p :: p in parts ==> sep !in p
    ensures Split(Join(parts, sep), sep) == parts
    decreases |parts|, |parts[0]|
  {
    var s := Join(parts, sep);
    if parts[0] != [] {
      var shorter := [parts[0][1..]] + parts[1..];
      assert shorter[1..] == parts[1..];
      forall p | p in shorter ensures sep !in p {
        if p == shorter[0] { assert parts[0] in parts; } else { assert p in parts; }
      }
      SplitOfJoin(shorter, sep);
      assert s[1..] == Join(shorter, sep);
      assert parts[0] in parts && s[0] == parts[0][0] && s[0] in parts[0];
      assert [s[0]] + shorter[0] == parts[0];
      assert Split(s, sep) == [parts[0]] + parts[1..];
    } else if |parts| == 1 {
      assert parts == [[]];
    } else {
      SplitOfJoin(parts[1..], sep);
      assert s[1..] == Join(parts[1..], sep);
      assert parts == [[]] + parts[1..];
    }
  }

  /** Each line followed by LF. */
  function Terminate(lines: seq<string>): string {
    if lines == [] then "" else lines[0] + [LF] + Terminate(lines[1..])
  }

  lemma {:induction false} TerminateIsJoin(lines: seq<string>)
    requires |lines| >= 1
    ensures Terminate(lines) == Join(lines, LF) + [LF]
  {
    if |lines| > 1 {
      TerminateIsJoin(lines[1..]);
    } else {
      assert Terminate(lines[1..]) == "";
    }
  }

  lemma {:induction false} TerminateConcat(a: seq<string>, b: seq<string>)
    ensures Terminate(a + b) == Terminate(a) + Terminate(b)
  {
    if a == [] {
      assert a + b == b;
    } else {
      assert (a + b)[1..] == a[1..] + b;
      TerminateConcat(a[1..], b);
    }
  }

  lemma {:induction false} TerminateAtLeastOnePerLine(lines: seq<string>)
    ensures |Terminate(lines)| >= |lines|
  {
    if lines != [] {
      TerminateAtLeastOnePerLine(lines[1..]);
    }
  }

  /** The lines of a text that is empty or ends in LF. */
  function LinesOf(data: string): (lines: seq<string>)
    requires data == "" || data[|data| - 1] == LF
    ensures Terminate(lines) == data
    ensures forall l :: l in lines ==> LF !in l
  {
    if data == "" then []
    else
      var lines := Split(data[..|data| - 1], LF);
      TerminateIsJoin(lines);
      assert data == data[..|data| - 1] + [LF];
      lines
  }

  lemma {:induction false} LinesOfTerminate(lines: seq<string>)
    requires forall l :: l in lines ==> LF !in l
    ensures Terminate(lines) == "" || Terminate(lines)[|Terminate(lines)| - 1] == LF
    ensures LinesOf(Terminate(lines)) == lines
  {
    if lines != [] {
      TerminateIsJoin(lines);
      var data := Terminate(lines);
      assert data[..|data| - 1] == Join(lines, LF);
      SplitOfJoin(lines, LF);
    }
  }

  /** LF-terminated texts of LF-free lines are equal only when the lines are. */
  lemma {:induction false} TerminateInjective(a: seq<string>, b: seq<string>)
    requires forall l :: l in a ==> LF !in l
    requires forall l :: l in b ==> LF !in l
    requires Terminate(a) == Terminate(b)
    ensures a == b
  {
    LinesOfTerminate(a);
    LinesOfTerminate(b);
  }

  // ---------------------------------------------------------------- decimal

  predicate IsDigits(s: string) {
    forall i :: 0 <= i < |s| ==> '0' <= s[i] <= '9'
  }

  function Digit(d: nat): (c: char)
    requires d < 10
  {
    '0' + d as char
  }

  /** `strconv.FormatUint(n, 10)`. */
  function Decimal(n: nat): (s: string)
    ensures |s| >= 1 && IsDigits(s) && Value(s) == n
  {
    if n < 10 then
      assert [Digit(n)][..0] == "";
      [Digit(n)]
    else
      var s := Decimal(n / 10) + [Digit(n % 10)];
      assert s[..|s| - 1] == Decimal(n / 10);
      s
  }

  function Value(s: string): nat
    requires IsDigits(s)
  {
    if s == "" then 0 else 10 * Value(s[..|s| - 1]) + (s[|s| - 1] - '0') as nat
  }

  lemma {:induction false} DecimalInjective(m: nat, n: nat)
    requires Decimal(m) == Decimal(n)
    ensures m == n
  {
    assert Value(Decimal(m)) == m;
  }

  lemma {:induction false} DecimalHasNoLF(n: nat)
    ensures LF !in Decimal(n)
  {
    assert IsDigits(Decimal(n));
  }

  function Zeros(k: nat): (z: string)
    ensures |z| == k && IsDigits(z)
  {
    seq(k, i => '0')
  }

  /** `%0<width>d`: zero padding on the left, never truncating. */
  function Padded(n: nat, width: nat): (s: string)
    ensures |s| >= width && IsDigits(s) && Value(s) == n
  {
    var d := Decimal(n);
    if |d| >= width then d
    else
      var z := Zeros(width - |d|);
      ValueOfPadding(width - |d|, d);
      z + d
  }

  lemma {:induction false} ValueOfPadding(k: nat, d: string)
    requires IsDigits(d)
    ensures IsDigits(Zeros(k) + d) && Value(Zeros(k) + d) == Value(d)
    decreases |d|, k
  {
    var s := Zeros(k) + d;
    if d != "" {
      ValueOfPadding(k, d[..|d| - 1]);
      assert s[..|s| - 1] == Zeros(k) + d[..|d| - 1];
    } else if k > 0 {
      ValueOfPadding(k - 1, d);
      assert s[..|s| - 1] == Zeros(k - 1) + d;
    }
  }
}
