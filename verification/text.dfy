/**
 The few string operations the application relies on: trimming, lower-casing and
 the byte order that Go's `<` uses on strings.
 */
module Text {

  /** The characters that Go's strings.TrimSpace removes. */
  predicate IsSpace(c: char) {
    || '\t' <= c <= '\r'
    || c == ' '
    || c == '\U{85}' || c == '\U{A0}' || c == '\U{1680}'
    || '\U{2000}' <= c <= '\U{200A}'
    || c == '\U{2028}' || c == '\U{2029}' || c == '\U{202F}' || c == '\U{205F}' || c == '\U{3000}'
  }

  /** No white space at either end. */
  predicate Trimmed(s: string) {
    s == "" || (!IsSpace(s[0]) && !IsSpace(s[|s| - 1]))
  }

  function Trim(s: string): (r: string)
    ensures Trimmed(r)
    ensures Trimmed(s) ==> r == s
    ensures r == "" <==> forall i | 0 <= i < |s| :: IsSpace(s[i])
  {
    if s == "" then s
    else if IsSpace(s[0]) then Trim(s[1..])
    else if IsSpace(s[|s| - 1]) then Trim(s[..|s| - 1])
    else s
  }

  predicate IsBlank(s: string) { Trim(s) == "" }

  /**
   Lower case. Of all characters outside ASCII only two have a lower-case form inside ASCII
   (the Kelvin sign and the dotted capital I); the others are left as they are.
   */
  function LowerChar(c: char): char {
    if 'A' <= c <= 'Z' then c - 'A' + 'a'
    else if c == '\U{212A}' then 'k'
    else if c == '\U{130}' then 'i'
    else c
  }

  function Lower(s: string): (r: string)
    ensures |r| == |s|
    ensures forall i | 0 <= i < |s| :: r[i] == LowerChar(s[i])
  {
    seq(|s|, i requires 0 <= i < |s| => LowerChar(s[i]))
  }

  /** strings.TrimSpace(strings.ToLower(s)), the normal form of every enumerated field. */
  function Token(s: string): string {
    Trim(Lower(s))
  }

  /** A letter up to case; the long s and the Kelvin sign are the only letters outside ASCII that fold into it. */
  function FoldChar(c: char): char {
    if 'A' <= c <= 'Z' then c - 'A' + 'a'
    else if c == '\U{17F}' then 's'
    else if c == '\U{212A}' then 'k'
    else c
  }

  /** strings.EqualFold, against a text of lower-case ASCII letters. */
  predicate EqualFold(s: string, lower: string) {
    |s| == |lower| && forall i | 0 <= i < |s| :: FoldChar(s[i]) == lower[i]
  }

  /** Lexicographic order on characters. */
  predicate Less(a: string, b: string) {
    if b == "" then false
    else if a == "" then true
    else a[0] < b[0] || (a[0] == b[0] && Less(a[1..], b[1..]))
  }

  lemma {:induction false} LessIrreflexive(a: string)
    ensures !Less(a, a)
  {
    if a == "" {
    } else {
      LessIrreflexive(a[1..]);
    }
  }

  lemma {:induction false} LessTransitive(a: string, b: string, c: string)
    requires Less(a, b) && Less(b, c)
    ensures Less(a, c)
  {
    if a != "" && a[0] == b[0] && b[0] == c[0] {
      LessTransitive(a[1..], b[1..], c[1..]);
    }
  }

  lemma {:induction false} LessConnected(a: string, b: string)
    requires a != b
    ensures Less(a, b) || Less(b, a)
  {
    if a != "" && b != "" && a[0] == b[0] {
      assert a[1..] != b[1..] by {
        assert a == [a[0]] + a[1..] && b == [b[0]] + b[1..];
      }
      LessConnected(a[1..], b[1..]);
    }
  }

  lemma LessNegativelyTransitive(a: string, b: string, c: string)
    requires !Less(a, b) && !Less(b, c)
    ensures !Less(a, c)
  {
    if Less(a, c) {
      LessIrreflexive(a);
      if a != b {
        LessConnected(a, b);
        if b != c {
          LessConnected(b, c);
          LessTransitive(c, b, a);
        }
        LessTransitive(a, c, a);
      }
    }
  }

  /** Order by a number first and break ties by a string. */
  predicate KeyLess(i: int, a: string, j: int, b: string) {
    i < j || (i == j && Less(a, b))
  }

  lemma KeyOrder()
    ensures forall i, a :: !KeyLess(i, a, i, a)
    ensures forall i, a, j, b, k, c :: KeyLess(i, a, j, b) && KeyLess(j, b, k, c) ==> KeyLess(i, a, k, c)
    ensures forall i, a, j, b, k, c :: !KeyLess(i, a, j, b) && !KeyLess(j, b, k, c) ==> !KeyLess(i, a, k, c)
    ensures forall i, a, j, b :: a != b ==> KeyLess(i, a, j, b) || KeyLess(j, b, i, a)
  {
    forall i: int, a ensures !KeyLess(i, a, i, a) { LessIrreflexive(a); }
    forall i, a, j, b, k, c | KeyLess(i, a, j, b) && KeyLess(j, b, k, c) ensures KeyLess(i, a, k, c) {
      if i == j == k { LessTransitive(a, b, c); }
    }
    forall i, a, j, b, k, c | !KeyLess(i, a, j, b) && !KeyLess(j, b, k, c) ensures !KeyLess(i, a, k, c) {
      if i == j == k { LessNegativelyTransitive(a, b, c); }
    }
    forall i, a, j, b | a != b ensures KeyLess(i, a, j, b) || KeyLess(j, b, i, a) { LessConnected(a, b); }
  }

  /** `r` is what is left of `s` between two places; what is cut off at either end is white space. */
  predicate Cut(s: string, i: nat, j: nat, r: string) {
    i <= j <= |s| && r == s[i..j] && forall n | 0 <= n < |s| && !(i <= n < j) :: IsSpace(s[n])
  }

  lemma CutLeft(s: string, i: nat, j: nat, r: string)
    requires s != "" && IsSpace(s[0]) && Cut(s[1..], i, j, r)
    ensures Cut(s, i + 1, j + 1, r)
  {
    assert forall n | 1 <= n < |s| :: s[n] == s[1..][n - 1];
  }

  lemma CutRight(s: string, i: nat, j: nat, r: string)
    requires s != "" && IsSpace(s[|s| - 1]) && Cut(s[..|s| - 1], i, j, r)
    ensures Cut(s, i, j, r)
  {
    assert forall n | 0 <= n < |s| - 1 :: s[n] == s[..|s| - 1][n];
  }

  /** Trimming cuts off white space at both ends, and all of it. */
  lemma {:induction false} TrimExactly(s: string) returns (i: nat, j: nat)
    ensures Cut(s, i, j, Trim(s)) && Trimmed(Trim(s))
  {
    if s == "" {
      i, j := 0, 0;
    } else if IsSpace(s[0]) {
      i, j := TrimExactly(s[1..]);
      CutLeft(s, i, j, Trim(s[1..]));
      i, j := i + 1, j + 1;
    } else if IsSpace(s[|s| - 1]) {
      i, j := TrimExactly(s[..|s| - 1]);
      CutRight(s, i, j, Trim(s[..|s| - 1]));
    } else {
      i, j := 0, |s|;
    }
  }

  /** One text comes before another exactly if it is a shorter beginning of it, or smaller where they first differ. */
  lemma {:induction false} LessExactly(a: string, b: string)
    ensures Less(a, b) <==>
            exists n | 0 <= n <= |a| && n < |b| :: a[..n] == b[..n] && (n == |a| || a[n] < b[n])
  {
    if a != "" && b != "" {
      var c, d := a[1..], b[1..];
      LessExactly(c, d);
      if n :| 0 <= n <= |c| && n < |d| && c[..n] == d[..n] && (n == |c| || c[n] < d[n]) {
        if a[0] == b[0] {
          assert a[..n + 1] == [a[0]] + c[..n] && b[..n + 1] == [b[0]] + d[..n];
        }
      }
      if a[0] < b[0] { assert a[..0] == b[..0]; }
      if n :| 0 <= n <= |a| && n < |b| && a[..n] == b[..n] && (n == |a| || a[n] < b[n]) {
        if n > 0 {
          assert a[0] == a[..n][0] && b[0] == b[..n][0];
          assert c[..n - 1] == a[..n][1..] && d[..n - 1] == b[..n][1..];
        }
      }
    } else if b != "" {
      assert a[..0] == b[..0];
    }
  }

  const CAPITALS := "ABCDEFGHIJKLMNOPQRSTUVWXYZ"
  const SMALL := "abcdefghijklmnopqrstuvwxyz"

  const DIGITS := "0123456789"

  lemma CapitalExactly(c: char)
    ensures c in CAPITALS <==> 'A' <= c <= 'Z'
  {
    if 'A' <= c <= 'Z' { assert CAPITALS[c as int - 'A' as int] == c; }
  }

  lemma SmallExactly(c: char)
    ensures c in SMALL <==> 'a' <= c <= 'z'
  {
    if 'a' <= c <= 'z' { assert SMALL[c as int - 'a' as int] == c; }
  }

  lemma DigitExactly(c: char)
    ensures c in DIGITS <==> '0' <= c <= '9'
  {
    if '0' <= c <= '9' { assert DIGITS[c as int - '0' as int] == c; }
  }

  /** Inside ASCII, white space is the space and the control characters 9 to 13. */
  lemma SpaceExactly(c: char)
    requires (c as int) < 128
    ensures IsSpace(c) <==> c as int in {9, 10, 11, 12, 13, 32}
  {
  }

  /** The letters of the two alphabets correspond, place by place. */
  lemma AlphabetsMatch(i: nat)
    requires i < 26
    ensures |CAPITALS| == |SMALL| == 26
    ensures LowerChar(CAPITALS[i]) == FoldChar(CAPITALS[i]) == SMALL[i]
    ensures LowerChar(SMALL[i]) == FoldChar(SMALL[i]) == SMALL[i]
  {
  }
}
