/** The password rules (PasswordCriteria.tsx): five criteria shown as a
    check list, and the registration pattern
    `^(?=.*[a-z])(?=.*[A-Z])(?=.*\d).{8,15}$` that both registration forms
    test before sending anything. */
module PasswordCriteria {

  import opened Text

  predicate IsUpper(c: char) { 'A' <= c <= 'Z' }
  predicate IsLower(c: char) { 'a' <= c <= 'z' }
  predicate IsDigit(c: char) { '0' <= c <= '9' }

  /** `/[A-Z]/.test(pw)` and its kin: the class occurs somewhere. */
  predicate Has(pw: string, kind: char -> bool) {
    exists i :: 0 <= i < |pw| && kind(pw[i])
  }

  /** `s.length` in JavaScript: UTF-16 code units, two for a character
      outside the Basic Multilingual Plane. */
  function Utf16Length(s: string): (r: nat)
    ensures |s| <= r <= 2 * |s|
    ensures (forall k :: 0 <= k < |s| ==> s[k] as int < 0x1_0000) ==> r == |s|
    decreases |s|
  {
    if s == [] then 0 else (if s[0] as int < 0x1_0000 then 1 else 2) + Utf16Length(s[1..])
  }

  /** The criteria in the order they are listed. */
  const Labels: seq<string> := [
    "At least 8 characters", "At most 15 characters", "At least one uppercase letter",
    "At least one lowercase letter", "At least one number"]

  predicate Criterion(index: nat, pw: string)
    requires index < 5
  {
    match index
    case 0 => Utf16Length(pw) >= 8
    case 1 => Utf16Length(pw) <= 15
    case 2 => Has(pw, IsUpper)
    case 3 => Has(pw, IsLower)
    case _ => Has(pw, IsDigit)
  }

  predicate AllCriteria(pw: string) {
    forall index :: 0 <= index < 5 ==> Criterion(index, pw)
  }

  /** The icon class of each listed criterion: a check exactly when the
      criterion holds. */
  function Marks(pw: string): (r: seq<string>)
    ensures |r| == |Labels|
    ensures forall index :: 0 <= index < 5 ==> (r[index] == "fa-check text-success" <==> Criterion(index, pw))
  {
    seq(5, index requires 0 <= index < 5 =>
      if Criterion(index, pw) then "fa-check text-success" else "fa-times text-danger")
  }

  /** `.` repeated over `s[i..j]`: no line terminator there. Without the
      `u` flag `.` matches one code unit, and neither half of a surrogate
      pair is a line terminator, so this is the same per character. */
  predicate DotsOver(s: string, i: nat, j: nat)
    requires i <= j <= |s|
  {
    forall k :: i <= k < j ==> !IsLineTerminator(s[k])
  }

  /** The lookahead `(?=.*[class])` at the start: some character of the
      class is reached without crossing a line terminator. */
  predicate LooksAhead(s: string, kind: char -> bool) {
    exists i :: 0 <= i < |s| && DotsOver(s, 0, i) && kind(s[i])
  }

  /** `^(?=.*[a-z])(?=.*[A-Z])(?=.*\d).{8,15}$` matched against `pw`, one
      regular-expression construct at a time. */
  predicate PasswordPattern(pw: string) {
    LooksAhead(pw, IsLower) && LooksAhead(pw, IsUpper) && LooksAhead(pw, IsDigit)
    && 8 <= Utf16Length(pw) <= 15 && DotsOver(pw, 0, |pw|)
  }

  /** On a password without line breaks the check list and the pattern
      agree: all five criteria hold exactly when the pattern matches. */
  lemma CriteriaMatchPattern(pw: string)
    requires forall k :: 0 <= k < |pw| ==> !IsLineTerminator(pw[k])
    ensures AllCriteria(pw) <==> PasswordPattern(pw)
  {
    assert Criterion(0, pw) && Criterion(1, pw) && Criterion(2, pw) && Criterion(3, pw) && Criterion(4, pw)
      <==> AllCriteria(pw);
    if Has(pw, IsLower) {
      var i :| 0 <= i < |pw| && IsLower(pw[i]);
      assert DotsOver(pw, 0, i);
    }
    if Has(pw, IsUpper) {
      var i :| 0 <= i < |pw| && IsUpper(pw[i]);
      assert DotsOver(pw, 0, i);
    }
    if Has(pw, IsDigit) {
      var i :| 0 <= i < |pw| && IsDigit(pw[i]);
      assert DotsOver(pw, 0, i);
    }
  }

  /** A line break defeats the pattern even when every criterion is met. */
  lemma LineBreakDefeatsPattern()
    ensures AllCriteria("Abcdef1\n") && !PasswordPattern("Abcdef1\n")
  {
    var pw := "Abcdef1\n";
    assert IsUpper(pw[0]) && IsLower(pw[1]) && IsDigit(pw[6]);
    assert Criterion(0, pw) && Criterion(1, pw) && Criterion(2, pw) && Criterion(3, pw) && Criterion(4, pw);
    assert IsLineTerminator(pw[7]);
  }

  /** The three character criteria are independent of each other and of
      the length: any combination is met by some password of any length
      long enough to hold the required characters. */
  lemma CriteriaIndependent(upper: bool, lower: bool, digit: bool, n: nat)
    requires n >= (if upper then 1 else 0) + (if lower then 1 else 0) + (if digit then 1 else 0)
    ensures exists pw :: Utf16Length(pw) == n && Has(pw, IsUpper) == upper && Has(pw, IsLower) == lower && Has(pw, IsDigit) == digit
  {
    var prefix := (if upper then "A" else "") + (if lower then "a" else "") + (if digit then "1" else "");
    var pw := prefix + seq(n - |prefix|, _ => '-');
    assert forall k :: |prefix| <= k < |pw| ==> pw[k] == '-';
    if upper { assert IsUpper(pw[0]); }
    if lower { assert IsLower(pw[if upper then 1 else 0]); }
    if digit { assert IsDigit(pw[|prefix| - 1]); }
    assert forall k :: 0 <= k < |pw| ==> pw[k] as int < 0x1_0000 by {
      forall k | 0 <= k < |pw| ensures pw[k] as int < 0x1_0000 {
        if k >= |prefix| { assert pw[k] == '-'; }
      }
    }
    assert Utf16Length(pw) == n && Has(pw, IsUpper) == upper && Has(pw, IsLower) == lower && Has(pw, IsDigit) == digit;
  }

  lemma {:induction false} Utf16LengthAppend(a: string, b: string)
    ensures Utf16Length(a + b) == Utf16Length(a) + Utf16Length(b)
    decreases |a|
  {
    if a != [] {
      var unit := if a[0] as int < 0x1_0000 then 1 else 2;
      assert (a + b)[0] == a[0] && (a + b)[1..] == a[1..] + b;
      Utf16LengthAppend(a[1..], b);
      assert Utf16Length(a + b) == unit + Utf16Length(a[1..] + b);
      assert Utf16Length(a) == unit + Utf16Length(a[1..]);
    } else {
      assert a + b == b;
    }
  }

  /** A character outside the Basic Multilingual Plane counts twice: six
      ASCII characters and U+1F600 are seven characters but eight code
      units, and pass both the check list and the pattern. */
  lemma AstralCountsTwice()
    ensures var pw := "Abcde1" + ['\U{1F600}'];
      |pw| == 7 && Utf16Length(pw) == 8 && AllCriteria(pw) && PasswordPattern(pw)
  {
    var pw := "Abcde1" + ['\U{1F600}'];
    AstralLength(pw);
    assert IsUpper(pw[0]) && IsLower(pw[1]) && IsDigit(pw[5]);
    assert Criterion(0, pw) && Criterion(1, pw) && Criterion(2, pw) && Criterion(3, pw) && Criterion(4, pw);
    assert DotsOver(pw, 0, 1) && DotsOver(pw, 0, 0) && DotsOver(pw, 0, 5);
  }

  lemma AstralLength(pw: string)
    requires pw == "Abcde1" + ['\U{1F600}']
    ensures Utf16Length(pw) == 8 && DotsOver(pw, 0, |pw|)
  {
    var ascii := "Abcde1";
    assert forall k :: 0 <= k < |ascii| ==> ascii[k] as int < 0x1_0000 && !IsLineTerminator(ascii[k]);
    Utf16LengthAppend(ascii, ['\U{1F600}']);
    assert forall k :: 0 <= k < |pw| ==> !IsLineTerminator(pw[k]) by {
      forall k | 0 <= k < |pw| ensures !IsLineTerminator(pw[k]) {
        if k < |ascii| { assert pw[k] == ascii[k]; }
      }
    }
  }
}
