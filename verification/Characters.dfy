/** Character ranges as the letters and digits they stand for. */
module Characters {
  const LOWER: string := "abcdefghijklmnopqrstuvwxyz"
  const UPPER: string := "ABCDEFGHIJKLMNOPQRSTUVWXYZ"
  const DIGITS: string := "0123456789"
  const LOWER_HEX: string := "0123456789abcdef"

  lemma DigitMeans(c: char)
    ensures '0' <= c <= '9' <==> c in DIGITS
  {
    if '0' <= c <= '9' { assert DIGITS[c as int - '0' as int] == c; }
  }

  lemma LowerMeans(c: char)
    ensures 'a' <= c <= 'z' <==> c in LOWER
  {
    var first, second := "abcdefghijklm", "nopqrstuvwxyz";
    assert LOWER == first + second;
    FirstLower(c);
    SecondLower(c);
    assert c in LOWER <==> c in first || c in second;
  }

  lemma FirstLower(c: char)
    ensures 'a' <= c <= 'm' <==> c in "abcdefghijklm"
  {
    if 'a' <= c <= 'm' { assert "abcdefghijklm"[c as int - 'a' as int] == c; }
  }

  lemma SecondLower(c: char)
    ensures 'n' <= c <= 'z' <==> c in "nopqrstuvwxyz"
  {
    if 'n' <= c <= 'z' { assert "nopqrstuvwxyz"[c as int - 'n' as int] == c; }
  }

  lemma UpperMeans(c: char)
    ensures 'A' <= c <= 'Z' <==> c in UPPER
  {
    var first, second := "ABCDEFGHIJKLM", "NOPQRSTUVWXYZ";
    assert UPPER == first + second;
    FirstUpper(c);
    SecondUpper(c);
    assert c in UPPER <==> c in first || c in second;
  }

  lemma FirstUpper(c: char)
    ensures 'A' <= c <= 'M' <==> c in "ABCDEFGHIJKLM"
  {
    if 'A' <= c <= 'M' { assert "ABCDEFGHIJKLM"[c as int - 'A' as int] == c; }
  }

  lemma SecondUpper(c: char)
    ensures 'N' <= c <= 'Z' <==> c in "NOPQRSTUVWXYZ"
  {
    if 'N' <= c <= 'Z' { assert "NOPQRSTUVWXYZ"[c as int - 'N' as int] == c; }
  }

  lemma HexMeans(c: char)
    ensures ('0' <= c <= '9' || 'a' <= c <= 'f') <==> c in LOWER_HEX
  {
    if '0' <= c <= '9' { assert LOWER_HEX[c as int - '0' as int] == c; }
    if 'a' <= c <= 'f' { assert LOWER_HEX[10 + c as int - 'a' as int] == c; }
  }
}
