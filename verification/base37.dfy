/** The base-37 call-sign codec of the modem firmware: `base37_encoder`
    reads a NUL-terminated string of spaces, digits and letters as a
    base-37 number, and `base37_decoder` writes the `len` base-37 digits of
    a number back as characters. */
module Base37 {
  import opened Wrappers
  import opened Bits

  /** The 37 symbols, in digit order. */
  const Alphabet: string := " 0123456789ABCDEFGHIJKLMNOPQRSTUVWXYZ"

  function Pow37(n: nat): (r: nat)
    ensures r >= 1
  {
    if n == 0 then 1 else 37 * Pow37(n - 1)
  }

  /** The digit `base37_encoder` adds for a character: 0 for a space, 1 to
      10 for `0` to `9`, and 11 to 36 for a letter of either case; none for
      anything else. */
  function Digit(c: char): (r: Option<nat>)
    ensures r.Some? ==> r.value < 37
  {
    if '0' <= c <= '9' then Some(c as int - '0' as int + 1)
    else if 'a' <= c <= 'z' then Some(c as int - 'a' as int + 11)
    else if 'A' <= c <= 'Z' then Some(c as int - 'A' as int + 11)
    else if c != ' ' then None
    else Some(0)
  }

  /** Lower-case letters in upper case; every other character unchanged. */
  function Upper(c: char): char
  {
    if 'a' <= c <= 'z' then (c as int - 'a' as int + 'A' as int) as char else c
  }

  /** A digit names its symbol, and the symbol of a character's digit is
      the character in upper case. */
  lemma DigitAlphabet(c: char, k: nat)
    requires k < 37
    ensures Digit(Alphabet[k]) == Some(k)
    ensures Digit(c).Some? ==> Alphabet[Digit(c).value] == Upper(c)
  {
    AlphabetDigit(k);
    DigitSymbol(c);
  }

  lemma AlphabetDigit(k: nat)
    requires k < 37
    ensures Digit(Alphabet[k]) == Some(k)
  {
  }

  lemma DigitSymbol(c: char)
    ensures Digit(c).Some? ==> Alphabet[Digit(c).value] == Upper(c)
  {
  }

  /** The last character is the least significant digit. */
  lemma ValueSnoc(t: string)
    requires Valid(t) && |t| > 0
    ensures Valid(t[..|t| - 1])
    ensures Value(Digits(t)) == Value(Digits(t[..|t| - 1])) * 37 + Digit(t[|t| - 1]).value
  {
    assert Digits(t)[..|t| - 1] == Digits(t[..|t| - 1]);
  }

  predicate Valid(t: string)
  {
    forall i :: 0 <= i < |t| ==> Digit(t[i]).Some?
  }

  function Digits(t: string): (ds: seq<nat>)
    requires Valid(t)
    ensures |ds| == |t| && forall i :: 0 <= i < |t| ==> ds[i] < 37
  {
    seq(|t|, i requires 0 <= i < |t| => Digit(t[i]).value)
  }

  /** The number whose base-37 digits, most significant first, are `ds`. */
  function Value(ds: seq<nat>): nat
  {
    if |ds| == 0 then 0 else Value(ds[..|ds| - 1]) * 37 + ds[|ds| - 1]
  }

  lemma {:induction false} ValueBound(ds: seq<nat>)
    requires forall i :: 0 <= i < |ds| ==> ds[i] < 37
    ensures Value(ds) < Pow37(|ds|)
  {
    if |ds| > 0 {
      ValueBound(ds[..|ds| - 1]);
      var v := Value(ds[..|ds| - 1]);
      assert v * 37 + ds[|ds| - 1] < (v + 1) * 37;
      assert (v + 1) * 37 <= Pow37(|ds| - 1) * 37;
    }
  }

  /** The index of the terminating NUL, or the length when there is none. */
  function FirstNul(s: string): (n: nat)
    ensures n <= |s|
    ensures forall j :: 0 <= j < n ==> s[j] != '\0'
    ensures n < |s| ==> s[n] == '\0'
  {
    if |s| == 0 || s[0] == '\0' then 0 else 1 + FirstNul(s[1..])
  }

  /** The C string `s` denotes: its characters up to the first NUL. */
  function Terminated(s: string): string
  {
    s[..FirstNul(s)]
  }

  /** `base37_encoder(str)`: -1 as soon as a character before the NUL is
      neither a space, a digit nor a letter; otherwise the base-37 value of
      the characters' digits. */
  method Encode(s: string) returns (acc: int)
    ensures acc == -1 <==> !Valid(Terminated(s))
    ensures Valid(Terminated(s)) ==> acc == Value(Digits(Terminated(s)))
  {
    var n := FirstNul(s);
    acc := 0;
    var i := 0;
    while i < |s| && s[i] != '\0'
      invariant 0 <= i <= n
      invariant Valid(s[..i]) && acc == Value(Digits(s[..i]))
    {
      acc := acc * 37;
      var d := Digit(s[i]);
      if d.None? {
        assert s[..n][i] == s[i];
        return -1;
      }
      assert s[..i + 1][..i] == s[..i];
      assert Digits(s[..i + 1])[..i] == Digits(s[..i]);
      acc := acc + d.value;
      i := i + 1;
    }
    assert i == n;
  }

  lemma DivDiv(x: nat, a: nat, b: nat)
    requires a > 0 && b > 0
    ensures x / a / b == x / (a * b)
  {
    var q := x / a / b;
    var r := (x / a) % b * a + x % a;
    assert x == (a * b) * q + r;
    assert r < a * b by {
      assert (x / a) % b <= b - 1;
      assert (x / a) % b * a <= (b - 1) * a;
    }
    assert (a * b) * (x / (a * b)) + x % (a * b) == x;
    DivModUnique(x, a * b, q, r);
  }

  /** `base37_decoder(str, val, len)` for a non-negative value: `len`
      symbols, the last one for the least significant digit. */
  function Decode(v: nat, len: nat): (r: string)
    ensures |r| == len
    ensures forall i :: 0 <= i < len ==> r[i] == Alphabet[(v / Pow37(len - 1 - i)) % 37]
  {
    if len == 0 then []
    else
      var r := Decode(v / 37, len - 1) + [Alphabet[v % 37]];
      forall i | 0 <= i < len - 1
        ensures r[i] == Alphabet[(v / Pow37(len - 1 - i)) % 37]
      {
        DivDiv(v, 37, Pow37(len - 2 - i));
      }
      r
  }

  function Spaces(n: nat): (r: string)
    ensures |r| == n && forall i :: 0 <= i < n ==> r[i] == ' '
  {
    seq(n, _ => ' ')
  }

  function UpperString(t: string): (r: string)
    ensures |r| == |t| && forall i :: 0 <= i < |t| ==> r[i] == Upper(t[i])
  {
    seq(|t|, i requires 0 <= i < |t| => Upper(t[i]))
  }

  lemma {:induction false} DecodeZero(len: nat)
    ensures Decode(0, len) == Spaces(len)
  {
    if len > 0 {
      DecodeZero(len - 1);
    }
  }

  /** Decoding the value of a valid string into at least as many symbols
      gives the string in upper case, padded on the left with spaces. */
  lemma {:induction false} DecodeValue(t: string, len: nat)
    requires Valid(t) && |t| <= len
    ensures Decode(Value(Digits(t)), len) == Spaces(len - |t|) + UpperString(t)
  {
    if |t| == 0 {
      DecodeZero(len);
    } else {
      var n := |t|;
      var p := t[..n - 1];
      ValueSnoc(t);
      var d := Digit(t[n - 1]).value;
      DivModUnique(Value(Digits(t)), 37, Value(Digits(p)), d);
      DecodeValue(p, len - 1);
      DigitSymbol(t[n - 1]);
      calc {
        Decode(Value(Digits(t)), len);
        Decode(Value(Digits(p)), len - 1) + [Alphabet[d]];
        Spaces(len - n) + UpperString(p) + [Upper(t[n - 1])];
        { assert UpperString(t) == UpperString(p) + [Upper(t[n - 1])]; }
        Spaces(len - n) + UpperString(t);
      }
    }
  }

  /** Every value below `37^len` is the value of its decoding, which is a
      valid string: the encoder reads back what the decoder writes. */
  lemma {:induction false} ValueDecode(v: nat, len: nat)
    requires v < Pow37(len)
    ensures Valid(Decode(v, len)) && Value(Digits(Decode(v, len))) == v
  {
    if len > 0 {
      var r := Decode(v, len);
      ValueDecode(v / 37, len - 1);
      AlphabetDigit(v % 37);
      assert r[..len - 1] == Decode(v / 37, len - 1);
      assert Valid(r);
      ValueSnoc(r);
    }
  }

  /** The call-sign round trip: a valid string of at most nine characters
      encodes below `37^9`, the bound `meta_data` checks, and nine-symbol
      decoding gives it back in upper case, left-padded with spaces. */
  lemma CallSignRoundTrip(t: string)
    requires Valid(t) && |t| <= 9
    ensures Value(Digits(t)) < Pow37(9) == 129961739795077
    ensures Decode(Value(Digits(t)), 9) == Spaces(9 - |t|) + UpperString(t)
  {
    ValueBound(Digits(t));
    assert Pow37(|t|) <= Pow37(9) by {
      Pow37Monotone(|t|, 9);
    }
    DecodeValue(t, 9);
  }

  lemma {:induction false} Pow37Monotone(a: nat, b: nat)
    requires a <= b
    ensures Pow37(a) <= Pow37(b)
  {
    if a < b {
      Pow37Monotone(a, b - 1);
    }
  }
}
