/** Normalisation of version identifiers (`StandardizedString`, private to each
    of the three `ApplicationVersion` classes, which all have the same body). */
module Identifiers {

  /** `Regex.Replace(original, @"\r\n?|\n", "")`: a left-to-right scan that
      removes a CR together with the LF after it, a lone CR and a lone LF. */
  function RemoveLineBreaks(s: string): string
    decreases |s|
  {
    if s == [] then ""
    else if s[0] == '\r' then
      if |s| >= 2 && s[1] == '\n' then RemoveLineBreaks(s[2..]) else RemoveLineBreaks(s[1..])
    else if s[0] == '\n' then RemoveLineBreaks(s[1..])
    else [s[0]] + RemoveLineBreaks(s[1..])
  }

  /** `String.Replace(" ", "")`. */
  function RemoveSpaces(s: string): string {
    if s == [] then ""
    else if s[0] == ' ' then RemoveSpaces(s[1..])
    else [s[0]] + RemoveSpaces(s[1..])
  }

  /** The characters normalisation removes: carriage return, line feed and space. */
  predicate Removed(c: char) {
    c == '\r' || c == '\n' || c == ' '
  }

  /** Reference definition: every other character (tabs included) kept, in order. */
  function KeepOthers(s: string): string {
    if s == [] then "" else (if Removed(s[0]) then "" else [s[0]]) + KeepOthers(s[1..])
  }

  /** `StandardizedString`: line breaks removed first, then spaces. */
  function StandardizedString(original: string): (r: string)
    ensures r == KeepOthers(original)
    ensures forall i :: 0 <= i < |r| ==> !Removed(r[i])
    ensures |r| <= |original|
  {
    StandardizedIsKeepOthers(original);
    KeepOthersClean(original);
    RemoveSpaces(RemoveLineBreaks(original))
  }

  lemma {:induction false} StandardizedIsKeepOthers(s: string)
    ensures RemoveSpaces(RemoveLineBreaks(s)) == KeepOthers(s)
    decreases |s|
  {
    if s == [] {
    } else if s[0] == '\r' && |s| >= 2 && s[1] == '\n' {
      StandardizedIsKeepOthers(s[2..]);
      assert s[1..][1..] == s[2..];
    } else if s[0] == '\r' || s[0] == '\n' {
      StandardizedIsKeepOthers(s[1..]);
    } else {
      StandardizedIsKeepOthers(s[1..]);
      var t := RemoveLineBreaks(s[1..]);
      assert ([s[0]] + t)[0] == s[0];
      assert ([s[0]] + t)[1..] == t;
    }
  }

  lemma {:induction false} KeepOthersClean(s: string)
    ensures forall i :: 0 <= i < |KeepOthers(s)| ==> !Removed(KeepOthers(s)[i])
    ensures |KeepOthers(s)| <= |s|
  {
    if s != [] {
      KeepOthersClean(s[1..]);
    }
  }

  /** A string without CR, LF or space is its own normal form. */
  lemma {:induction false} KeepOthersIdentity(s: string)
    requires forall i :: 0 <= i < |s| ==> !Removed(s[i])
    ensures KeepOthers(s) == s
  {
    if s != [] {
      KeepOthersIdentity(s[1..]);
    }
  }

  /** Normalisation is the identity exactly on strings without CR, LF or space. */
  lemma StandardizedIdentity(s: string)
    ensures StandardizedString(s) == s <==> forall i :: 0 <= i < |s| ==> !Removed(s[i])
  {
    if forall i :: 0 <= i < |s| ==> !Removed(s[i]) {
      KeepOthersIdentity(s);
    }
  }

  /** Normalising twice is normalising once. */
  lemma StandardizedIdempotent(s: string)
    ensures StandardizedString(StandardizedString(s)) == StandardizedString(s)
  {
    StandardizedIdentity(StandardizedString(s));
  }

  /** Normalising a concatenation normalises each part. */
  lemma {:induction false} KeepOthersAppend(s: string, t: string)
    ensures KeepOthers(s + t) == KeepOthers(s) + KeepOthers(t)
  {
    if s == [] {
      assert s + t == t;
    } else {
      assert (s + t)[0] == s[0];
      assert (s + t)[1..] == s[1..] + t;
      KeepOthersAppend(s[1..], t);
    }
  }

  /** Spaces inside an id. */
  lemma StandardizedExampleSpaces()
    ensures StandardizedString(" 1. 2") == "1.2"
  {
  }

  /** A line feed inside an id. */
  lemma StandardizedExampleLineFeed()
    ensures StandardizedString("1\n.2") == "1.2"
  {
  }

  /** A CR LF pair and a lone CR go, a tab stays. */
  lemma StandardizedExampleCarriageReturn()
    ensures StandardizedString("1.\r\n2\r\t") == "1.2\t"
  {
  }
}
