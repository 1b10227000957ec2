/**
 * The storage key the create page derives from a picked file: the file name
 * with every character outside `[a-zA-Z0-9._-]` replaced by `_`, prefixed by
 * the decimal millisecond timestamp and `_`.
 */
module FileName {
  import opened Wrappers

  /** The characters of the class `[a-zA-Z0-9._-]`. */
  predicate IsSafeChar(c: char)
  {
    ('a' <= c <= 'z') || ('A' <= c <= 'Z') || ('0' <= c <= '9') || c == '.' || c == '_' || c == '-'
  }

  predicate IsSafeName(s: string)
  {
    forall i :: 0 <= i < |s| ==> IsSafeChar(s[i])
  }

  /** One step of the global replacement: a safe character stays, any other becomes `_`. */
  function SanitizeChar(c: char): (r: char)
    ensures IsSafeChar(r)
    ensures r == c <==> IsSafeChar(c)
    ensures !IsSafeChar(c) ==> r == '_'
  {
    if IsSafeChar(c) then c else '_'
  }

  /** `name.replace(/[^a-zA-Z0-9._-]/g, "_")`: a character-for-character map. */
  function Sanitize(name: string): (r: string)
    ensures |r| == |name|
    ensures forall i :: 0 <= i < |name| ==> r[i] == SanitizeChar(name[i])
    ensures IsSafeName(r)
  {
    if name == [] then [] else [SanitizeChar(name[0])] + Sanitize(name[1..])
  }

  /** A name is left as it is exactly when it is already made of safe characters. */
  lemma SanitizeFixpoint(s: string)
    ensures Sanitize(s) == s <==> IsSafeName(s)
  {
  }

  /** Sanitising twice is sanitising once. */
  lemma SanitizeIdempotent(s: string)
    ensures Sanitize(Sanitize(s)) == Sanitize(s)
  {
  }

  predicate IsDigit(c: char)
  {
    '0' <= c <= '9'
  }

  predicate IsDigits(s: string)
  {
    forall i :: 0 <= i < |s| ==> IsDigit(s[i])
  }

  function DigitChar(d: nat): (c: char)
    requires d < 10
    ensures IsDigit(c)
  {
    ('0' as int + d) as char
  }

  function DigitValue(c: char): nat
    requires IsDigit(c)
  {
    c as int - '0' as int
  }

  /**
   * The decimal text of a non-negative integer, as a template literal renders
   * a number of milliseconds: digits only, no leading zero except for 0 itself.
   */
  function Decimal(n: nat): (r: string)
    ensures |r| >= 1 && IsDigits(r)
    ensures r[0] == '0' <==> n == 0
  {
    if n < 10 then [DigitChar(n)] else Decimal(n / 10) + [DigitChar(n % 10)]
  }

  /** The value of a string of decimal digits; the partner of `Decimal`. */
  function ParseDecimal(s: string): nat
    requires IsDigits(s)
  {
    if s == [] then 0 else ParseDecimal(s[..|s| - 1]) * 10 + DigitValue(s[|s| - 1])
  }

  lemma {:induction false} ParseDecimalOfDecimal(n: nat)
    ensures ParseDecimal(Decimal(n)) == n
  {
    if n >= 10 {
      var p := Decimal(n / 10);
      var s := p + [DigitChar(n % 10)];
      assert Decimal(n) == s;
      assert s[..|s| - 1] == p;
      ParseDecimalOfDecimal(n / 10);
    }
  }

  /** The first position of `c` in `s`, if any. */
  function IndexOf(s: string, c: char): (r: Option<nat>)
    ensures r.Some? ==> r.value < |s| && s[r.value] == c
    ensures forall j :: 0 <= j < |s| && (r.None? || j < r.value) ==> s[j] != c
  {
    if s == [] then None
    else if s[0] == c then Some(0)
    else match IndexOf(s[1..], c)
      case None => None
      case Some(k) => Some(k + 1)
  }

  /** The storage key `${timestamp}_${safeName}` for a file picked under `name`. */
  function UploadName(timestamp: nat, name: string): (r: string)
    ensures |r| == |Decimal(timestamp)| + 1 + |name|
    ensures IsSafeName(r)
  {
    Decimal(timestamp) + "_" + Sanitize(name)
  }

  /** Splits a storage key at its first `_` into a timestamp and a name; the partner of `UploadName`. */
  function ParseUploadName(s: string): Option<(nat, string)>
  {
    match IndexOf(s, '_')
    case None => None
    case Some(k) =>
      if 0 < k && IsDigits(s[..k]) then Some((ParseDecimal(s[..k]), s[k + 1..])) else None
  }

  /** The timestamp and the sanitised name can be read back from the storage key. */
  lemma UploadNameRoundTrip(timestamp: nat, name: string)
    ensures ParseUploadName(UploadName(timestamp, name)) == Some((timestamp, Sanitize(name)))
  {
    var d := Decimal(timestamp);
    var s := UploadName(timestamp, name);
    assert s[|d|] == '_';
    assert forall j :: 0 <= j < |d| ==> s[j] == d[j];
    var k := IndexOf(s, '_');
    assert k == Some(|d|);
    assert s[..|d|] == d;
    assert s[|d| + 1..] == Sanitize(name);
    ParseDecimalOfDecimal(timestamp);
  }

  /** Two uploads get the same key only when their timestamps and sanitised names agree. */
  lemma UploadNameInjective(t1: nat, n1: string, t2: nat, n2: string)
    requires UploadName(t1, n1) == UploadName(t2, n2)
    ensures t1 == t2 && Sanitize(n1) == Sanitize(n2)
  {
    UploadNameRoundTrip(t1, n1);
    UploadNameRoundTrip(t2, n2);
  }
}
