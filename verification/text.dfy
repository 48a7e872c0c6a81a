/** String predicates and conversions of the Kotlin and Android runtimes that the view models rely on. */
module Text {
  import opened Wrappers

  /** Kotlin's `Char.isWhitespace()` on the JVM: `Character.isWhitespace(c) || Character.isSpaceChar(c)`. */
  predicate IsWhitespace(c: char) {
    || ('\t' <= c <= '\r')
    || ('\U{1C}' <= c <= '\U{1F}')
    || c == ' '
    || c == '\U{A0}'
    || c == '\U{1680}'
    || ('\U{2000}' <= c <= '\U{200A}')
    || c == '\U{2028}'
    || c == '\U{2029}'
    || c == '\U{202F}'
    || c == '\U{205F}'
    || c == '\U{3000}'
  }

  /** Kotlin's `String.isBlank()`: empty, or whitespace only. */
  predicate IsBlank(s: string) {
    forall i :: 0 <= i < |s| ==> IsWhitespace(s[i])
  }

  /** Kotlin's `String?.isNullOrEmpty()`. */
  predicate IsNullOrEmpty(s: Option<string>) {
    s.None? || |s.value| == 0
  }

  /** Kotlin's `String?.isNullOrBlank()`. */
  predicate IsNullOrBlank(s: Option<string>) {
    s.None? || IsBlank(s.value)
  }

  /** A nullable value inside a Kotlin string template: `"${x}"` renders `null` as the text "null". */
  function Show(s: Option<string>): string {
    s.GetOr("null")
  }

  function Digit(d: nat): (c: char)
    requires d < 10
    ensures '0' <= c <= '9'
  {
    "0123456789"[d]
  }

  function DigitValue(c: char): nat
    requires '0' <= c <= '9'
  {
    c as int - '0' as int
  }

  /** Decimal rendering of a natural number without leading zeros. */
  function NatToString(n: nat): (r: string)
    ensures |r| > 0
    ensures forall i :: 0 <= i < |r| ==> '0' <= r[i] <= '9'
    ensures n > 0 ==> r[0] != '0'
  {
    if n < 10 then [Digit(n)] else NatToString(n / 10) + [Digit(n % 10)]
  }

  /** Kotlin's `Int.toString()`, as used by templates such as `"Signup failed: ${code}"`. */
  function IntToString(n: int): string {
    if n < 0 then "-" + NatToString(-n) else NatToString(n)
  }

  /** Reads a string of decimal digits back as a number. */
  function ParseDigits(s: string): nat
    requires forall i :: 0 <= i < |s| ==> '0' <= s[i] <= '9'
  {
    if |s| == 0 then 0 else 10 * ParseDigits(s[..|s| - 1]) + DigitValue(s[|s| - 1])
  }

  /** Reads the rendering of `IntToString` back: a leading '-' marks a negative number. */
  function ParseInt(s: string): Option<int> {
    if |s| > 0 && s[0] == '-' then
      var d := s[1..];
      if forall i :: 0 <= i < |d| ==> '0' <= d[i] <= '9' then Some(0 - ParseDigits(d) as int) else None
    else if forall i :: 0 <= i < |s| ==> '0' <= s[i] <= '9' then Some(ParseDigits(s))
    else None
  }

  lemma {:induction false} NatToStringRoundTrip(n: nat)
    ensures ParseDigits(NatToString(n)) == n
    decreases n
  {
    if n >= 10 {
      var s := NatToString(n);
      var prefix := NatToString(n / 10);
      assert s == prefix + [Digit(n % 10)];
      assert s[..|s| - 1] == prefix;
      NatToStringRoundTrip(n / 10);
    }
  }

  lemma NegativeRoundTrip(n: int)
    requires n < 0
    ensures ParseInt(IntToString(n)) == Some(n)
  {
    var t := NatToString(-n);
    NatToStringRoundTrip(-n);
    var s := "-" + t;
    assert s[1..] == t;
    assert ParseInt(s) == Some(0 - ParseDigits(t) as int);
  }

  lemma NonNegativeRoundTrip(n: nat)
    ensures ParseInt(IntToString(n)) == Some(n)
  {
    var t := NatToString(n);
    NatToStringRoundTrip(n);
    assert t[0] != '-';
    assert ParseInt(t) == Some(ParseDigits(t));
  }

  /** The status code in a message like "Signup failed: 404" can be read back, so distinct codes give distinct messages. */
  lemma IntToStringRoundTrip(n: int)
    ensures ParseInt(IntToString(n)) == Some(n)
  {
    if n < 0 {
      NegativeRoundTrip(n);
    } else {
      NonNegativeRoundTrip(n);
    }
  }

  lemma IntToStringInjective(a: int, b: int)
    ensures IntToString(a) == IntToString(b) ==> a == b
  {
    IntToStringRoundTrip(a);
    IntToStringRoundTrip(b);
  }

  // ---- Android's Patterns.EMAIL_ADDRESS ----
  // [a-zA-Z0-9+._%-]{1,256} @ [a-zA-Z0-9][a-zA-Z0-9-]{0,64} ( . [a-zA-Z0-9][a-zA-Z0-9-]{0,25} )+
  // matched against the whole string (`matcher(email).matches()`).

  predicate IsAlnum(c: char) {
    ('a' <= c <= 'z') || ('A' <= c <= 'Z') || ('0' <= c <= '9')
  }

  predicate IsLocalChar(c: char) {
    IsAlnum(c) || c == '+' || c == '.' || c == '_' || c == '%' || c == '-'
  }

  /** `[a-zA-Z0-9][a-zA-Z0-9-]{0,maxTail}` */
  predicate IsLabel(s: string, maxTail: nat) {
    && 1 <= |s| <= maxTail + 1
    && IsAlnum(s[0])
    && forall i :: 1 <= i < |s| ==> IsAlnum(s[i]) || s[i] == '-'
  }

  predicate IsLocalPart(s: string) {
    1 <= |s| <= 256 && forall i :: 0 <= i < |s| ==> IsLocalChar(s[i])
  }

  /** `( . [a-zA-Z0-9][a-zA-Z0-9-]{0,25} )+` */
  predicate IsSubdomains(t: string)
    decreases |t|
  {
    && |t| >= 2
    && t[0] == '.'
    && (|| IsLabel(t[1..], 25)
        || exists j :: 1 < j < |t| && t[j] == '.' && IsLabel(t[1..j], 25) && IsSubdomains(t[j..]))
  }

  predicate IsDomain(d: string) {
    exists i :: 0 < i < |d| && d[i] == '.' && IsLabel(d[..i], 64) && IsSubdomains(d[i..])
  }

  /** `android.util.Patterns.EMAIL_ADDRESS.matcher(s).matches()` */
  predicate EmailAddress(s: string) {
    exists i :: 0 <= i < |s| && s[i] == '@' && IsLocalPart(s[..i]) && IsDomain(s[i + 1..])
  }

  /** A blank string never matches the pattern, so the view models' separate blank check adds no rejections. */
  lemma BlankIsNotEmail(s: string)
    requires IsBlank(s)
    ensures !EmailAddress(s)
  {
  }

  lemma SampleAddresses()
    ensures EmailAddress("a@x.com")
    ensures !EmailAddress("a@xcom")
    ensures !EmailAddress("@x.com")
  {
    assert "a@x.com"[..1] == "a";
    assert "a@x.com"[2..] == "x.com";
    assert "x.com"[..1] == "x";
    assert "x.com"[1..] == ".com";
    assert ".com"[1..] == "com";
    assert IsDomain("x.com");
  }
}
