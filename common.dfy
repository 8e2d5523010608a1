/** Stand-ins for the Python and JavaScript string built-ins the booking code
    relies on (`str.isdigit`, `int()`, `str.strip` / `String.prototype.trim`,
    the `in` substring test, `replace(/\D/g, '')`), restricted to ASCII, and an
    Option type for lookups that may miss. */
module Common {

  datatype Option<+T> = None | Some(value: T)

  predicate IsDigit(c: char) { '0' <= c <= '9' }

  predicate AllDigits(s: string) { forall i :: 0 <= i < |s| ==> IsDigit(s[i]) }

  /** `str.isdigit()`: a non-empty run of digits. */
  predicate IsDigitString(s: string) { |s| > 0 && AllDigits(s) }

  /** The value `int()` gives a run of decimal digits. */
  function DecimalValue(s: string): (n: nat)
    requires AllDigits(s)
    ensures |s| == 1 ==> n == s[0] as int - '0' as int
  {
    if |s| == 0 then 0
    else 10 * DecimalValue(s[..|s| - 1]) + (s[|s| - 1] as int - '0' as int)
  }

  /** Appending a digit shifts the value one decimal place and adds the
      digit; leading zeros add nothing. */
  lemma DecimalValueDigits(s: string, c: char)
    requires AllDigits(s) && IsDigit(c)
    ensures DecimalValue(s + [c]) == 10 * DecimalValue(s) + (c as int - '0' as int)
    ensures DecimalValue("0" + s) == DecimalValue(s)
  {
    assert (s + [c])[..|s|] == s;
    LeadingZero(s);
  }

  lemma {:induction false} LeadingZero(s: string)
    requires AllDigits(s)
    ensures DecimalValue("0" + s) == DecimalValue(s)
  {
    if |s| > 0 {
      var t := s[..|s| - 1];
      LeadingZero(t);
      assert ("0" + s)[..|s|] == "0" + t;
    }
  }

  /** `int(s)` on a string that has already been stripped: an optional sign
      followed by digits; anything else raises, which is `None` here. */
  function ParseInt(s: string): (r: Option<int>)
    ensures r.Some? <==> IsDigitString(s) || (|s| >= 2 && (s[0] == '+' || s[0] == '-') && IsDigitString(s[1..]))
    ensures IsDigitString(s) ==> r == Some(DecimalValue(s))
    ensures |s| >= 2 && s[0] == '-' && IsDigitString(s[1..]) ==> r == Some(-(DecimalValue(s[1..]) as int))
    ensures |s| >= 2 && s[0] == '+' && IsDigitString(s[1..]) ==> r == Some(DecimalValue(s[1..]))
  {
    if IsDigitString(s) then Some(DecimalValue(s))
    else if |s| >= 2 && s[0] == '-' && IsDigitString(s[1..]) then Some(0 - DecimalValue(s[1..]))
    else if |s| >= 2 && s[0] == '+' && IsDigitString(s[1..]) then Some(DecimalValue(s[1..]))
    else None
  }

  /** The ASCII whitespace that both `str.strip()` and `trim()` remove. */
  predicate IsSpace(c: char) {
    c == ' ' || c == '\t' || c == '\n' || c == '\r' || c as int == 11 || c as int == 12
  }

  function TrimStart(s: string): (r: string)
    ensures |r| <= |s| && r == s[|s| - |r|..]
    ensures r == [] || !IsSpace(r[0])
    ensures forall i :: 0 <= i < |s| - |r| ==> IsSpace(s[i])
  {
    if |s| > 0 && IsSpace(s[0]) then TrimStart(s[1..]) else s
  }

  function TrimEnd(s: string): (r: string)
    ensures |r| <= |s| && r == s[..|r|]
    ensures r == [] || !IsSpace(r[|r| - 1])
    ensures forall i :: |r| <= i < |s| ==> IsSpace(s[i])
  {
    if |s| > 0 && IsSpace(s[|s| - 1]) then TrimEnd(s[..|s| - 1]) else s
  }

  /** `s.strip()` / `s.trim()`: empty exactly when `s` is all whitespace. */
  function Strip(s: string): (r: string)
    ensures r == [] <==> forall i :: 0 <= i < |s| ==> IsSpace(s[i])
    ensures r != [] ==> !IsSpace(r[0]) && !IsSpace(r[|r| - 1])
  {
    var t := TrimStart(s);
    assert t != [] ==> t[0] == s[|s| - |t|];
    TrimEnd(t)
  }

  /** A string with no whitespace at either end is its own strip. */
  lemma StripUnchanged(s: string)
    requires s != [] ==> !IsSpace(s[0]) && !IsSpace(s[|s| - 1])
    ensures Strip(s) == s
  {
    assert TrimStart(s) == s;
    assert TrimEnd(s) == s;
  }

  /** Python's `sub in s`: `sub` is a prefix of `s` or occurs in its tail. */
  predicate Contains(s: string, sub: string)
    decreases |s|
  {
    (|sub| <= |s| && s[..|sub|] == sub) || (|s| > 0 && Contains(s[1..], sub))
  }

  predicate OccursAt(s: string, sub: string, i: int)
    requires 0 <= i <= |s| - |sub|
  {
    s[i..i + |sub|] == sub
  }

  /** `sub in s` holds exactly when `sub` occurs at some position of `s`. */
  lemma {:induction false} ContainsOccurs(s: string, sub: string)
    ensures Contains(s, sub) <==> exists i :: 0 <= i <= |s| - |sub| && OccursAt(s, sub, i)
    decreases |s|
  {
    if |sub| <= |s| && s[..|sub|] == sub {
      assert OccursAt(s, sub, 0);
    }
    if exists i :: 0 <= i <= |s| - |sub| && OccursAt(s, sub, i) {
      var i :| 0 <= i <= |s| - |sub| && OccursAt(s, sub, i);
      if i == 0 {
        assert s[..|sub|] == sub;
      } else {
        ContainsOccurs(s[1..], sub);
        assert s[1..][i - 1..i - 1 + |sub|] == s[i..i + |sub|];
        assert OccursAt(s[1..], sub, i - 1);
      }
    }
    if |s| > 0 && Contains(s[1..], sub) {
      ContainsOccurs(s[1..], sub);
      var i :| 0 <= i <= |s| - 1 - |sub| && OccursAt(s[1..], sub, i);
      assert s[1..][i..i + |sub|] == s[i + 1..i + 1 + |sub|];
      assert OccursAt(s, sub, i + 1);
    }
  }

  /** `s.replace(/\D/g, '')`: the digits of `s`, in order. */
  function DigitsOf(s: string): (r: string)
    ensures AllDigits(r) && |r| <= |s|
    ensures (forall i :: 0 <= i < |s| ==> !IsDigit(s[i])) ==> r == []
  {
    if |s| == 0 then ""
    else (if IsDigit(s[0]) then [s[0]] else "") + DigitsOf(s[1..])
  }

  lemma {:induction false} DigitsOfConcat(a: string, b: string)
    ensures DigitsOf(a + b) == DigitsOf(a) + DigitsOf(b)
  {
    if |a| == 0 {
      assert a + b == b;
    } else {
      var head := if IsDigit(a[0]) then [a[0]] else "";
      assert (a + b)[0] == a[0];
      assert (a + b)[1..] == a[1..] + b;
      DigitsOfConcat(a[1..], b);
      calc {
        DigitsOf(a + b);
        head + DigitsOf(a[1..] + b);
        head + (DigitsOf(a[1..]) + DigitsOf(b));
        (head + DigitsOf(a[1..])) + DigitsOf(b);
        DigitsOf(a) + DigitsOf(b);
      }
    }
  }

  lemma {:induction false} DigitsOfDigits(s: string)
    requires AllDigits(s)
    ensures DigitsOf(s) == s
  {
    if |s| > 0 {
      DigitsOfDigits(s[1..]);
    }
  }
}
