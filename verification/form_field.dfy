/**
  The input mask of the form fields. The only mask the forms use is the
  semester mask `YYYY/N`: keep the digits, and once there are more than
  four, write the first four, a slash and the fifth.
 */
module FormField {
  import opened Common

  const SemesterMask: string := "YYYY/N"

  /** `value.replace(/\D/g, '')`: the digits of `s`, in order. */
  function Digits(s: string): (d: string)
    ensures AllDigits(d) && |d| <= |s|
    ensures AllDigits(s) ==> d == s
  {
    if |s| == 0 then ""
    else (if IsDigit(s[0]) then [s[0]] else "") + Digits(s[1..])
  }

  /** Removing non-digits distributes over concatenation. */
  lemma {:induction false} DigitsAppend(a: string, b: string)
    ensures Digits(a + b) == Digits(a) + Digits(b)
  {
    if |a| > 0 {
      assert (a + b)[1..] == a[1..] + b;
      DigitsAppend(a[1..], b);
    } else {
      assert a + b == b;
    }
  }

  /** The shape of a semester: up to four digits, or four digits, '/' and one digit. */
  predicate SemesterShape(r: string) {
    || (|r| <= 4 && AllDigits(r))
    || (|r| == 6 && AllDigits(r[..4]) && r[4] == '/' && IsDigit(r[5]))
  }

  /** `applyMask`: an empty mask or an unknown one leaves the value as typed. */
  function ApplyMask(value: string, mask: string): (r: string)
    ensures mask != SemesterMask ==> r == value
    ensures mask == SemesterMask ==> SemesterShape(r) && |r| <= 6
    ensures mask == SemesterMask && |Digits(value)| <= 4 ==> r == Digits(value)
    ensures mask == SemesterMask && |Digits(value)| > 4 ==>
      |r| == 6 && r[..4] == Digits(value)[..4] && r[4] == '/' && r[5] == Digits(value)[4]
  {
    if mask == "" then value
    else
      var numbers := Digits(value);
      if mask == SemesterMask then
        if |numbers| <= 4 then numbers else numbers[..4] + "/" + numbers[4..5]
      else value
  }

  /** The semester mask keeps exactly the first five digits typed, in order,
      and nothing else: its digits are a prefix of the input's digits. */
  lemma SemesterKeepsLeadingDigits(value: string)
    ensures var d := Digits(value);
      Digits(ApplyMask(value, SemesterMask)) == d[..if |d| < 5 then |d| else 5]
  {
    var d := Digits(value);
    if |d| > 4 {
      var r := ApplyMask(value, SemesterMask);
      assert r == d[..4] + ("/" + d[4..5]);
      DigitsAppend(d[..4], "/" + d[4..5]);
      DigitsAppend("/", d[4..5]);
      assert Digits("/") == "";
      assert d[..4] + d[4..5] == d[..5];
    }
  }

  /** Masking a masked value changes nothing. */
  lemma MaskIdempotent(value: string, mask: string)
    ensures ApplyMask(ApplyMask(value, mask), mask) == ApplyMask(value, mask)
  {
    if mask == SemesterMask {
      var r := ApplyMask(value, SemesterMask);
      var d := Digits(value);
      SemesterKeepsLeadingDigits(value);
      if |d| > 4 {
        assert |Digits(r)| == 5;
        assert Digits(r)[..4] == d[..4] == r[..4];
        assert Digits(r)[4] == d[4] == r[5];
        assert Digits(r)[..4] + "/" + Digits(r)[4..5] == r;
      }
    }
  }
}
