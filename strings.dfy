/**
 * String helpers used by the tool-badge labels and the order alert text:
 * JavaScript's `String.prototype.split` and `Array.prototype.join` for a
 * one-character separator, the text after the last separator, and the
 * decimal rendering of integers that template strings perform.
 */
module Strings {

  /** The pieces of `s` between occurrences of `sep`, as `s.split(sep)` gives them.
      Like JavaScript, the empty string splits into one empty piece. */
  function Split(s: string, sep: char): (r: seq<string>)
    ensures |r| >= 1
    decreases |s|
  {
    if |s| == 0 then [""]
    else
      var init := Split(s[..|s| - 1], sep);
      var c := s[|s| - 1];
      if c == sep then init + [""]
      else init[..|init| - 1] + [init[|init| - 1] + [c]]
  }

  /** `parts.join(sep)`: the parts with one separator between neighbours. */
  function JoinWith(parts: seq<string>, sep: char): string
  {
    if |parts| == 0 then ""
    else if |parts| == 1 then parts[0]
    else JoinWith(parts[..|parts| - 1], sep) + [sep] + parts[|parts| - 1]
  }

  /** The last element of a non-empty sequence. */
  function Last<T>(s: seq<T>): T
    requires |s| > 0
  {
    s[|s| - 1]
  }

  /** The text after the last occurrence of `sep` (all of `s` when there is none). */
  function AfterLast(s: string, sep: char): (r: string)
    ensures sep !in r
    ensures |r| <= |s| && r == s[|s| - |r|..]
    ensures |r| < |s| ==> s[|s| - |r| - 1] == sep
    ensures sep !in s ==> r == s
    decreases |s|
  {
    if |s| == 0 then ""
    else if s[|s| - 1] == sep then ""
    else
      var init := s[..|s| - 1];
      var c := s[|s| - 1];
      var rest := AfterLast(init, sep);
      SuffixStep(init, c, rest, sep);
      rest + [c]
  }

  /** One step of `AfterLast`: appending a non-separator to `init` extends its
      separator-free suffix `rest` by that character. */
  lemma SuffixStep(init: string, c: char, rest: string, sep: char)
    requires c != sep && sep !in rest
    requires |rest| <= |init| && rest == init[|init| - |rest|..]
    requires |rest| < |init| ==> init[|init| - |rest| - 1] == sep
    requires sep !in init ==> rest == init
    ensures var s := init + [c]; var r := rest + [c];
      sep !in r && |r| <= |s| && r == s[|s| - |r|..]
      && (|r| < |s| ==> s[|s| - |r| - 1] == sep) && (sep !in s ==> r == s)
  {
    var s := init + [c];
    assert s[|s| - |rest| - 1..] == init[|init| - |rest|..] + [c];
  }

  /** No piece of a split contains the separator. */
  lemma {:induction false} SplitPiecesAvoidSeparator(s: string, sep: char)
    ensures forall k :: 0 <= k < |Split(s, sep)| ==> sep !in Split(s, sep)[k]
    decreases |s|
  {
    if |s| > 0 {
      SplitPiecesAvoidSeparator(s[..|s| - 1], sep);
    }
  }

  /** Joining the pieces of a split gives back the original string. */
  lemma {:induction false} JoinOfSplit(s: string, sep: char)
    ensures JoinWith(Split(s, sep), sep) == s
    decreases |s|
  {
    if |s| > 0 {
      var prefix := s[..|s| - 1];
      var init := Split(prefix, sep);
      var c := s[|s| - 1];
      JoinOfSplit(prefix, sep);
      assert s == prefix + [c];
      if c == sep {
        assert Split(s, sep) == init + [""];
        JoinAppendEmpty(init, sep);
      } else {
        var k := |init| - 1;
        assert Split(s, sep) == init[..k] + [init[k] + [c]];
        JoinExtendLast(init, c, sep);
      }
    }
  }

  /** Appending an empty part appends one separator to the join. */
  lemma JoinAppendEmpty(parts: seq<string>, sep: char)
    requires |parts| >= 1
    ensures JoinWith(parts + [""], sep) == JoinWith(parts, sep) + [sep]
  {
    var r := parts + [""];
    assert r[..|parts|] == parts;
  }

  /** Extending the last part by `c` appends `c` to the join. */
  lemma JoinExtendLast(parts: seq<string>, c: char, sep: char)
    requires |parts| >= 1
    ensures var k := |parts| - 1;
      JoinWith(parts[..k] + [parts[k] + [c]], sep) == JoinWith(parts, sep) + [c]
  {
    var k := |parts| - 1;
    var r := parts[..k] + [parts[k] + [c]];
    if k > 0 {
      assert r[..k] == parts[..k];
      assert JoinWith(r, sep) == JoinWith(parts[..k], sep) + [sep] + (parts[k] + [c]);
    }
  }

  /** A string without the separator splits into itself alone. */
  lemma {:induction false} SplitWithoutSeparator(s: string, sep: char)
    requires sep !in s
    ensures Split(s, sep) == [s]
    decreases |s|
  {
    if |s| > 0 {
      var prefix := s[..|s| - 1];
      assert sep !in prefix;
      SplitWithoutSeparator(prefix, sep);
      assert s == prefix + [s[|s| - 1]];
    }
  }

  /** Splitting `a`, a separator and a separator-free `b` splits `a` and then adds `b`. */
  lemma {:induction false} SplitAppend(a: string, b: string, sep: char)
    requires sep !in b
    ensures Split(a + [sep] + b, sep) == Split(a, sep) + [b]
    decreases |b|
  {
    var s := a + [sep] + b;
    if |b| == 0 {
      assert s[..|s| - 1] == a;
    } else {
      var b' := b[..|b| - 1];
      assert s[..|s| - 1] == a + [sep] + b';
      assert sep !in b';
      SplitAppend(a, b', sep);
      assert b == b' + [b[|b| - 1]];
    }
  }

  /** Splitting a join of separator-free parts gives back the parts. */
  lemma {:induction false} SplitOfJoin(parts: seq<string>, sep: char)
    requires |parts| >= 1
    requires forall k :: 0 <= k < |parts| ==> sep !in parts[k]
    ensures Split(JoinWith(parts, sep), sep) == parts
    decreases |parts|
  {
    if |parts| == 1 {
      SplitWithoutSeparator(parts[0], sep);
    } else {
      var init := parts[..|parts| - 1];
      SplitOfJoin(init, sep);
      SplitAppend(JoinWith(init, sep), parts[|parts| - 1], sep);
      assert parts == init + [parts[|parts| - 1]];
    }
  }

  /** Joining `[a] + rest` puts `a` and one separator in front of the join of `rest`. */
  lemma {:induction false} JoinWithCons(a: string, rest: seq<string>, sep: char)
    requires |rest| >= 1
    ensures JoinWith([a] + rest, sep) == a + [sep] + JoinWith(rest, sep)
    decreases |rest|
  {
    var parts := [a] + rest;
    if |rest| == 1 {
      assert parts[..1] == [a];
    } else {
      var init := rest[..|rest| - 1];
      JoinWithCons(a, init, sep);
      assert parts[..|parts| - 1] == [a] + init;
    }
  }

  /** A join of parts starts with the first part and ends with the last. */
  lemma {:induction false} JoinWithEnds(parts: seq<string>, sep: char)
    requires |parts| > 0
    ensures parts[0] <= JoinWith(parts, sep)
    ensures var last := parts[|parts| - 1]; var r := JoinWith(parts, sep);
      |last| <= |r| && r[|r| - |last|..] == last
    decreases |parts|
  {
    if |parts| > 1 {
      var init := parts[..|parts| - 1];
      JoinWithEnds(init, sep);
      var j := JoinWith(init, sep);
      assert JoinWith(parts, sep) == j + ([sep] + parts[|parts| - 1]);
      assert init[0] == parts[0];
    }
  }

  /** How the text after the last separator relates to the end of `s`: empty
      exactly when `s` is empty or ends in the separator, and shorter than `s`
      whenever `s` holds a separator. */
  lemma AfterLastCases(s: string, sep: char)
    ensures AfterLast(s, sep) == "" <==> |s| == 0 || s[|s| - 1] == sep
    ensures sep in s ==> |AfterLast(s, sep)| < |s|
  {
  }

  /** The last piece of a split is the text after the last separator. */
  lemma {:induction false} LastPieceIsAfterLast(s: string, sep: char)
    ensures Last(Split(s, sep)) == AfterLast(s, sep)
    decreases |s|
  {
    if |s| > 0 {
      LastPieceIsAfterLast(s[..|s| - 1], sep);
    }
  }

  /** Where the middle part of a concatenation sits in it. */
  lemma SliceOfConcat(a: string, b: string, c: string)
    ensures (a + b + c)[|a|..|a| + |b|] == b
  {
    assert a + b + c == a + (b + c);
    assert (b + c)[..|b|] == b;
  }

  /** Where each of three parts sits in their concatenation. */
  lemma PartsOfConcat(a: string, b: string, c: string)
    ensures var s := a + b + c;
      s[..|a|] == a && s[|a|..|s| - |c|] == b && s[|s| - |c|..] == c
  {
    var s := a + b + c;
    assert s == a + (b + c);
    assert (b + c)[..|b|] == b;
  }

  /** A character in neither part is not in the concatenation. */
  lemma NoneInConcat(a: string, b: string, c: char)
    ensures c !in a && c !in b ==> c !in a + b
  {
    if c in a + b {
      var k :| 0 <= k < |a + b| && (a + b)[k] == c;
      if k < |a| { assert a[k] == c; } else { assert b[k - |a|] == c; }
    }
  }

  /** A slice inside the first part of a concatenation is a slice of that part. */
  lemma SliceOfLeft(a: string, b: string, i: nat, j: nat)
    requires i <= j <= |a|
    ensures (a + b)[i..j] == a[i..j]
  {
    assert forall k :: 0 <= k < j - i ==> (a + b)[i..j][k] == a[i..j][k];
  }

  /** Dropping a prefix of the first part of a concatenation. */
  lemma DropOfConcat(a: string, b: string, i: nat)
    requires i <= |a|
    ensures (a + b)[i..] == a[i..] + b
  {
    assert forall k :: 0 <= k < |a| + |b| - i ==> (a + b)[i..][k] == (a[i..] + b)[k];
  }

  // ------------------------------------------------------------------
  // Decimal rendering of integers, as `${n}` does for an integral Number.

  predicate IsDigit(c: char)
  {
    '0' <= c <= '9'
  }

  predicate AllDigits(s: string)
  {
    forall k :: 0 <= k < |s| ==> IsDigit(s[k])
  }

  function DigitChar(d: nat): (c: char)
    requires d < 10
    ensures IsDigit(c) && c as int - '0' as int == d
  {
    "0123456789"[d]
  }

  /** The value of a string of decimal digits (the reference reading of a numeral). */
  function DecimalValue(s: string): nat
    requires AllDigits(s)
  {
    if |s| == 0 then 0
    else DecimalValue(s[..|s| - 1]) * 10 + (s[|s| - 1] as int - '0' as int)
  }

  /** The shortest decimal numeral of `n`: digits only, no leading zero except for 0 itself. */
  function NatToDecimal(n: nat): (s: string)
    ensures |s| >= 1 && AllDigits(s)
    ensures s[0] == '0' ==> n == 0 && s == "0"
    decreases n
  {
    if n < 10 then [DigitChar(n)]
    else NatToDecimal(n / 10) + [DigitChar(n % 10)]
  }

  /** Reading the numeral back gives the number. */
  lemma {:induction false} DecimalRoundTrip(n: nat)
    ensures DecimalValue(NatToDecimal(n)) == n
    decreases n
  {
    if n >= 10 {
      DecimalRoundTrip(n / 10);
      var s := NatToDecimal(n);
      assert s[..|s| - 1] == NatToDecimal(n / 10);
    }
  }

  /** Distinct numbers have distinct numerals. */
  lemma NatToDecimalInjective(m: nat, n: nat)
    requires NatToDecimal(m) == NatToDecimal(n)
    ensures m == n
  {
    DecimalRoundTrip(m);
    DecimalRoundTrip(n);
  }

  /** The decimal numeral of an integer, with a leading minus sign when
      negative and no leading zero except for 0 itself. */
  function IntToDecimal(i: int): (s: string)
    ensures i >= 0 ==> AllDigits(s) && DecimalValue(s) == i
    ensures forall k :: 0 <= k < |s| ==> IsDigit(s[k]) || (k == 0 && s[k] == '-' && i < 0)
    ensures i < 0 ==> |s| >= 2 && s[0] == '-' && AllDigits(s[1..]) && DecimalValue(s[1..]) == -i
    ensures |s| >= 1 && (s[0] == '0' ==> s == "0") && (i < 0 ==> s[1] != '0')
  {
    if i < 0 then
      DecimalRoundTrip(-i);
      var digits := NatToDecimal(-i);
      assert ("-" + digits)[1..] == digits;
      "-" + digits
    else
      DecimalRoundTrip(i);
      NatToDecimal(i)
  }

  /** The longest run of digits at the start of `s`: where a reader of the
      text finds a numeral. */
  function LeadingDigits(s: string): (d: string)
    ensures AllDigits(d) && |d| <= |s| && d == s[..|d|]
    ensures |d| < |s| ==> !IsDigit(s[|d|])
    decreases |s|
  {
    if |s| == 0 || !IsDigit(s[0]) then ""
    else
      var rest := LeadingDigits(s[1..]);
      assert s[..|rest| + 1] == [s[0]] + s[1..][..|rest|];
      [s[0]] + rest
  }

  /** A numeral followed by a non-digit is exactly the leading run of digits. */
  lemma {:induction false} LeadingDigitsOfNumeral(d: string, rest: string)
    requires AllDigits(d)
    requires |rest| == 0 || !IsDigit(rest[0])
    ensures LeadingDigits(d + rest) == d
    decreases |d|
  {
    if |d| > 0 {
      assert (d + rest)[1..] == d[1..] + rest;
      LeadingDigitsOfNumeral(d[1..], rest);
      assert d == [d[0]] + d[1..];
    }
  }

  /** In `lead + n + tail + rest`, with `n` a numeral and `tail` starting with
      a non-digit, the digits read right after `lead` are exactly `n`. */
  lemma NumeralAfterLead(lead: string, n: string, tail: string, rest: string)
    requires AllDigits(n)
    requires |tail| > 0 && !IsDigit(tail[0])
    ensures var s := lead + n + tail + rest;
      |lead| <= |s| && s[..|lead|] == lead && LeadingDigits(s[|lead|..]) == n
  {
    var s := lead + n + tail + rest;
    assert s == lead + (n + (tail + rest));
    assert s[|lead|..] == n + (tail + rest);
    LeadingDigitsOfNumeral(n, tail + rest);
  }
}
