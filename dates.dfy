/** The `DateTime` fields the descriptor codec uses, and the text it writes
    for a date (VersionChecker/src/VersionChecker/ApplicationVersion.cs:44-48). */
module Dates {

  /** A .NET `DateTime` by its calendar fields; `subSecondTicks` is the part
      below one second (milliseconds and finer), which the codec never writes. */
  datatype DateTime = DateTime(year: nat, month: nat, day: nat,
                               hour: nat, minute: nat, second: nat, subSecondTicks: nat)

  /** `DateTime.MinValue`, 1 January of year 1 at midnight: the "no date" sentinel. */
  const MinValue := DateTime(1, 1, 1, 0, 0, 0, 0)

  predicate IsDigit(c: char) {
    '0' <= c <= '9'
  }

  predicate AllDigits(s: string) {
    forall i :: 0 <= i < |s| ==> IsDigit(s[i])
  }

  /** The character of a decimal digit. */
  function Digit(k: nat): (c: char)
    requires k < 10
    ensures IsDigit(c)
  {
    ('0' as int + k) as char
  }

  /** The number a decimal digit stands for. */
  function DigitValue(c: char): nat
    requires IsDigit(c)
  {
    c as int - '0' as int
  }

  /** The number a string of decimal digits stands for, read left to right. */
  function DecimalValue(s: string): nat
    requires AllDigits(s)
  {
    if s == [] then 0 else 10 * DecimalValue(s[..|s| - 1]) + DigitValue(s[|s| - 1])
  }

  /** `int.ToString()` for a non-negative value: decimal, no padding. */
  function NatToString(n: nat): (r: string)
    ensures |r| >= 1 && AllDigits(r)
    ensures DecimalValue(r) == n
    ensures (|r| == 1) <==> n < 10
    ensures r[0] == '0' ==> n == 0
  {
    if n < 10 then [Digit(n)]
    else
      var r := NatToString(n / 10) + [Digit(n % 10)];
      assert r[..|r| - 1] == NatToString(n / 10);
      r
  }

  /** Distinct numbers print differently. */
  lemma NatToStringInjective(a: nat, b: nat)
    requires NatToString(a) == NatToString(b)
    ensures a == b
  {
    assert a == DecimalValue(NatToString(a)) == DecimalValue(NatToString(b)) == b;
  }

  /** The text written for a date: Day/Month/Year Hour:Minute:Second, unpadded.
      Read back as digit runs and the characters between them, it gives the six
      fields in that order, each written as `NatToString` writes it (so with no
      leading zero), and the separators `/`, `/`, space, `:`, `:`. */
  function FormatDate(d: DateTime): (r: string)
    ensures Runs(r) == [NatToString(d.day), NatToString(d.month), NatToString(d.year),
                        NatToString(d.hour), NatToString(d.minute), NatToString(d.second)]
    ensures Numbers(r) == [d.day, d.month, d.year, d.hour, d.minute, d.second]
    ensures Separators(r) == "// ::"
  {
    var fields := [NatToString(d.day), NatToString(d.month), NatToString(d.year),
                   NatToString(d.hour), NatToString(d.minute), NatToString(d.second)];
    JoinedRead(fields, [d.day, d.month, d.year, d.hour, d.minute, d.second], "// ::");
    Joined(fields, "// ::")
  }

  /** The date of the descriptor tests. */
  lemma FormatDateExample(d: DateTime)
    requires d == DateTime(2009, 12, 9, 9, 45, 30, 0)
    ensures FormatDate(d) == "9/12/2009 9:45:30"
  {
    assert NatToString(9) == "9" && NatToString(12) == "12" && NatToString(2009) == "2009";
    assert NatToString(45) == "45" && NatToString(30) == "30";
    JoinedExample();
  }

  /** The joining step of the example above, on the printed fields. */
  lemma JoinedExample()
    ensures Joined(["9", "12", "2009", "9", "45", "30"], "// ::") == "9/12/2009 9:45:30"
  {
  }

  /** Length of the leading run of digits. */
  function DigitRun(s: string): (k: nat)
    ensures k <= |s| && AllDigits(s[..k])
    ensures k < |s| ==> !IsDigit(s[k])
    ensures |s| > 0 && IsDigit(s[0]) ==> k >= 1
  {
    if s == [] || !IsDigit(s[0]) then 0
    else
      var k := 1 + DigitRun(s[1..]);
      assert s[..k] == [s[0]] + s[1..][..k - 1];
      k
  }

  /** A reader independent of the writer: the value of every maximal run of
      digits, left to right. */
  function Numbers(s: string): seq<nat>
    decreases |s|
  {
    if s == [] then []
    else if !IsDigit(s[0]) then Numbers(s[1..])
    else [DecimalValue(s[..DigitRun(s)])] + Numbers(s[DigitRun(s)..])
  }

  /** The same reader, giving each maximal run of digits as written. */
  function Runs(s: string): seq<string>
    decreases |s|
  {
    if s == [] then []
    else if !IsDigit(s[0]) then Runs(s[1..])
    else [s[..DigitRun(s)]] + Runs(s[DigitRun(s)..])
  }

  /** The characters that are not digits, left to right. */
  function Separators(s: string): string {
    if s == [] then [] else (if IsDigit(s[0]) then [] else [s[0]]) + Separators(s[1..])
  }

  lemma {:induction false} DigitsThenSeparator(x: string, sep: char, r: string)
    requires AllDigits(x) && !IsDigit(sep)
    ensures DigitRun(x + [sep] + r) == |x|
  {
    if x == [] {
      assert (x + [sep] + r)[0] == sep;
    } else {
      assert (x + [sep] + r)[1..] == x[1..] + [sep] + r;
      DigitsThenSeparator(x[1..], sep, r);
    }
  }

  /** A digit run followed by a separator is read as one number. */
  lemma NumbersStep(x: string, sep: char, r: string)
    requires |x| >= 1 && AllDigits(x) && !IsDigit(sep)
    ensures Numbers(x + [sep] + r) == [DecimalValue(x)] + Numbers(r)
  {
    var s := x + [sep] + r;
    DigitsThenSeparator(x, sep, r);
    assert s[..|x|] == x;
    assert s[|x|..] == [sep] + r;
    assert ([sep] + r)[1..] == r;
  }

  /** A digit run followed by a separator is read as one run. */
  lemma RunsStep(x: string, sep: char, r: string)
    requires |x| >= 1 && AllDigits(x) && !IsDigit(sep)
    ensures Runs(x + [sep] + r) == [x] + Runs(r)
  {
    var s := x + [sep] + r;
    DigitsThenSeparator(x, sep, r);
    assert s[..|x|] == x;
    assert s[|x|..] == [sep] + r;
    assert ([sep] + r)[1..] == r;
  }

  lemma RunsOfDigits(x: string)
    requires |x| >= 1 && AllDigits(x)
    ensures Runs(x) == [x]
  {
    var k := DigitRun(x);
    assert IsDigit(x[0]);
    assert k == |x|;
    assert x[..k] == x && x[k..] == [];
    assert Runs(x) == [x[..k]] + Runs(x[k..]);
  }

  lemma NumbersOfDigits(x: string)
    requires |x| >= 1 && AllDigits(x)
    ensures Numbers(x) == [DecimalValue(x)]
  {
    var k := DigitRun(x);
    assert IsDigit(x[0]);
    assert k == |x|;
    assert x[..k] == x && x[k..] == [];
    assert Numbers(x) == [DecimalValue(x[..k])] + Numbers(x[k..]);
  }

  lemma {:induction false} SeparatorsStep(x: string, sep: char, r: string)
    requires AllDigits(x) && !IsDigit(sep)
    ensures Separators(x + [sep] + r) == [sep] + Separators(r)
  {
    if x == [] {
      assert (x + [sep] + r)[1..] == r;
    } else {
      assert (x + [sep] + r)[1..] == x[1..] + [sep] + r;
      SeparatorsStep(x[1..], sep, r);
    }
  }

  lemma {:induction false} SeparatorsOfDigits(x: string)
    requires AllDigits(x)
    ensures Separators(x) == []
  {
    if x != [] {
      SeparatorsOfDigits(x[1..]);
    }
  }

  /** Fields written one after the other, each followed by its own separator
      except the last. */
  function Joined(fields: seq<string>, separators: string): string
    requires |fields| == |separators| + 1
    decreases |separators|
  {
    if separators == [] then fields[0]
    else fields[0] + [separators[0]] + Joined(fields[1..], separators[1..])
  }

  /** Non-empty digit fields joined by non-digit separators read back as
      those fields, their values and those separators. */
  lemma {:induction false} JoinedRead(fields: seq<string>, values: seq<nat>, separators: string)
    requires |fields| == |separators| + 1 && |values| == |fields|
    requires forall i :: 0 <= i < |fields| ==> |fields[i]| >= 1 && AllDigits(fields[i]) && DecimalValue(fields[i]) == values[i]
    requires forall i :: 0 <= i < |separators| ==> !IsDigit(separators[i])
    ensures Runs(Joined(fields, separators)) == fields
    ensures Numbers(Joined(fields, separators)) == values
    ensures Separators(Joined(fields, separators)) == separators
    decreases |separators|
  {
    if separators == [] {
      RunsOfDigits(fields[0]);
      NumbersOfDigits(fields[0]);
      SeparatorsOfDigits(fields[0]);
      assert fields == [fields[0]] && values == [values[0]];
    } else {
      var rest := Joined(fields[1..], separators[1..]);
      JoinedRead(fields[1..], values[1..], separators[1..]);
      RunsStep(fields[0], separators[0], rest);
      NumbersStep(fields[0], separators[0], rest);
      SeparatorsStep(fields[0], separators[0], rest);
      assert fields == [fields[0]] + fields[1..] && values == [values[0]] + values[1..];
      assert separators == [separators[0]] + separators[1..];
    }
  }

  /** The written text determines every field except the part below one second,
      so a parser can give back exactly the date that was written. */
  lemma FormatDateInjective(a: DateTime, b: DateTime)
    requires FormatDate(a) == FormatDate(b)
    ensures a.(subSecondTicks := 0) == b.(subSecondTicks := 0)
  {
    assert Numbers(FormatDate(a)) == Numbers(FormatDate(b));
  }
}
