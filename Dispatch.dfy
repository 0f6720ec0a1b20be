/** The small pieces of string matching and status folding the elements use when a
    parameter name is routed to the object that owns it. */
module Dispatch {

  /** C `strstr(s, p) != 0`: p occurs in s as a contiguous substring. */
  predicate Contains(s: string, p: string)
    decreases |s|
  {
    |p| <= |s| && (s[..|p|] == p || Contains(s[1..], p))
  }

  /** p occurs in s at offset i. */
  predicate OccursAt(s: string, p: string, i: int)
  {
    0 <= i <= |s| - |p| && s[i..i + |p|] == p
  }

  /** Contains means an occurrence at some offset. */
  lemma {:induction false} ContainsIff(s: string, p: string)
    ensures Contains(s, p) <==> exists i :: OccursAt(s, p, i)
    decreases |s|
  {
    if |p| <= |s| && |s| > 0 {
      ContainsIff(s[1..], p);
      forall i | OccursAt(s, p, i)
        ensures Contains(s, p)
      {
        if i > 0 {
          assert s[1..][i - 1..i - 1 + |p|] == s[i..i + |p|];
          assert OccursAt(s[1..], p, i - 1);
        }
      }
      if Contains(s, p) {
        if s[..|p|] == p {
          assert OccursAt(s, p, 0);
        } else {
          var i :| OccursAt(s[1..], p, i);
          assert s[i + 1..i + 1 + |p|] == s[1..][i..i + |p|];
          assert OccursAt(s, p, i + 1);
        }
      }
    } else if |p| <= |s| {
      assert OccursAt(s, p, 0);
    }
  }

  /** Whatever contains p contains every prefix of p: a name matching "sectionX" also
      matches "section". */
  lemma {:induction false} ContainsPrefix(s: string, p: string, q: string)
    requires q <= p && Contains(s, p)
    ensures Contains(s, q)
    decreases |s|
  {
    if s[..|p|] == p {
      assert s[..|q|] == p[..|q|];
    } else {
      ContainsPrefix(s[1..], p, q);
    }
  }

  /** The status a broadcast reports: the last status that is not -1 ("not mine"),
      or -1 when no recipient claimed the parameter. */
  function LastAccepted(statuses: seq<int>): int
  {
    if |statuses| == 0 then -1
    else if statuses[|statuses| - 1] != -1 then statuses[|statuses| - 1]
    else LastAccepted(statuses[..|statuses| - 1])
  }

  /** LastAccepted is -1 exactly when every recipient declined, and otherwise the
      status of a recipient after which every one declined. */
  lemma {:induction false} LastAcceptedIsLastClaim(statuses: seq<int>)
    ensures LastAccepted(statuses) == -1 <==> forall i :: 0 <= i < |statuses| ==> statuses[i] == -1
    ensures LastAccepted(statuses) != -1 ==>
              exists i :: 0 <= i < |statuses| && statuses[i] == LastAccepted(statuses) &&
                forall j :: i < j < |statuses| ==> statuses[j] == -1
  {
    var n := |statuses|;
    if n > 0 {
      if statuses[n - 1] != -1 {
        assert 0 <= n - 1 < n && statuses[n - 1] == LastAccepted(statuses);
      } else {
        var p := statuses[..n - 1];
        LastAcceptedIsLastClaim(p);
        assert forall i :: 0 <= i < n - 1 ==> p[i] == statuses[i];
        if LastAccepted(statuses) != -1 {
          var i :| 0 <= i < |p| && p[i] == LastAccepted(p) && forall j :: i < j < |p| ==> p[j] == -1;
          assert statuses[i] == LastAccepted(statuses);
        }
      }
    }
  }

  function Abs(x: real): real
  {
    if x < 0.0 then -x else x
  }

  /** The nearest of the first n locations to loc; on ties, the first. */
  function FirstNearest(xs: seq<real>, loc: real, n: nat): (k: nat)
    requires 0 < n <= |xs|
    ensures k < n
  {
    if n == 1 then 0
    else
      var k := FirstNearest(xs, loc, n - 1);
      if Abs(xs[n - 1] - loc) < Abs(xs[k] - loc) then n - 1 else k
  }

  /** FirstNearest is the first index of minimal distance. */
  lemma {:induction false} FirstNearestIsFirstMinimum(xs: seq<real>, loc: real, n: nat)
    requires 0 < n <= |xs|
    ensures forall j :: 0 <= j < n ==> Abs(xs[FirstNearest(xs, loc, n)] - loc) <= Abs(xs[j] - loc)
    ensures forall j :: 0 <= j < FirstNearest(xs, loc, n) ==> Abs(xs[FirstNearest(xs, loc, n)] - loc) < Abs(xs[j] - loc)
  {
    if n > 1 {
      FirstNearestIsFirstMinimum(xs, loc, n - 1);
    }
  }

  /** Appending one status: it wins unless it is -1. */
  lemma LastAcceptedAppend(statuses: seq<int>, x: int)
    ensures LastAccepted(statuses + [x]) == if x != -1 then x else LastAccepted(statuses)
  {
    assert (statuses + [x])[..|statuses|] == statuses;
  }

  predicate IsDigit(c: char)
  {
    '0' <= c <= '9'
  }

  /** C isspace in the "C" locale. */
  predicate IsSpace(c: char)
  {
    c == ' ' || c == '\t' || c == '\n' || c == '\r' || c == '\U{000C}' || c == '\U{000B}'
  }

  function SkipSpaces(s: string): (t: string)
    ensures |t| <= |s| && t == s[|s| - |t|..]
    ensures |t| > 0 ==> !IsSpace(t[0])
  {
    if |s| > 0 && IsSpace(s[0]) then SkipSpaces(s[1..]) else s
  }

  /** The longest prefix of s made of decimal digits. */
  function LeadingDigits(s: string): (d: string)
    ensures d <= s
    ensures forall i :: 0 <= i < |d| ==> IsDigit(d[i])
    ensures |d| < |s| ==> !IsDigit(s[|d|])
  {
    if |s| == 0 || !IsDigit(s[0]) then [] else [s[0]] + LeadingDigits(s[1..])
  }

  /** The value of a string of decimal digits, most significant first. */
  function DigitsValue(d: string): nat
    requires forall i :: 0 <= i < |d| ==> IsDigit(d[i])
  {
    if |d| == 0 then 0
    else
      assert IsDigit(d[|d| - 1]);
      DigitsValue(d[..|d| - 1]) * 10 + (d[|d| - 1] as int - '0' as int)
  }

  /** C atoi: leading white space is skipped, then the rest is read. */
  function Atoi(s: string): int
  {
    AtoiUnspaced(SkipSpaces(s))
  }

  /** atoi after the white space: one sign is read, then the longest run of digits;
      a string with no digits there yields 0. */
  function AtoiUnspaced(t: string): int
  {
    if |t| > 0 && (t[0] == '-' || t[0] == '+') then
      var v := DigitsValue(LeadingDigits(t[1..]));
      if t[0] == '-' then -(v as int) else v
    else
      DigitsValue(LeadingDigits(t))
  }

  /** The decimal rendering of n, without leading zeros. */
  function Decimal(n: nat): (d: string)
    ensures 0 < |d| && forall i :: 0 <= i < |d| ==> IsDigit(d[i])
  {
    var c := ('0' as int + n % 10) as char;
    if n < 10 then [c] else Decimal(n / 10) + [c]
  }

  lemma {:induction false} DecimalValue(n: nat)
    ensures DigitsValue(Decimal(n)) == n
  {
    var d := Decimal(n);
    if n >= 10 {
      DecimalValue(n / 10);
      assert d[..|d| - 1] == Decimal(n / 10);
    }
  }

  lemma {:induction false} LeadingDigitsOfDigits(d: string)
    requires forall i :: 0 <= i < |d| ==> IsDigit(d[i])
    ensures LeadingDigits(d) == d
  {
    if |d| > 0 {
      LeadingDigitsOfDigits(d[1..]);
    }
  }

  /** atoi reads back the decimal rendering of any natural number after white space. */
  lemma AtoiDecimal(n: nat, spaces: string)
    requires forall i :: 0 <= i < |spaces| ==> IsSpace(spaces[i])
    ensures Atoi(spaces + Decimal(n)) == n
  {
    var d := Decimal(n);
    SkipLeadingSpaces(spaces, d);
    LeadingDigitsOfDigits(d);
    DecimalValue(n);
  }

  /** ... and with an explicit sign in front of the digits. */
  lemma AtoiSignedDecimal(n: nat, spaces: string, sign: char)
    requires forall i :: 0 <= i < |spaces| ==> IsSpace(spaces[i])
    requires sign == '+' || sign == '-'
    ensures Atoi(spaces + [sign] + Decimal(n)) == if sign == '-' then -(n as int) else n
  {
    var d := Decimal(n);
    var t := [sign] + d;
    assert spaces + [sign] + d == spaces + t;
    SkipLeadingSpaces(spaces, t);
    assert t[1..] == d;
    LeadingDigitsOfDigits(d);
    DecimalValue(n);
  }

  lemma {:induction false} SkipLeadingSpaces(spaces: string, s: string)
    requires forall i :: 0 <= i < |spaces| ==> IsSpace(spaces[i])
    requires |s| > 0 && !IsSpace(s[0])
    ensures SkipSpaces(spaces + s) == s
  {
    if |spaces| > 0 {
      assert (spaces + s)[1..] == spaces[1..] + s;
      SkipLeadingSpaces(spaces[1..], s);
    }
  }
}
