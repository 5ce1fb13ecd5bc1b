/** C strings as values: NUL-terminated text, the libc scanners the mapper relies on,
    and the option type that stands for a nullable pointer. */
module CText {

  /** A nullable C pointer (or an unset environment variable). */
  datatype Option<+T> = None | Some(value: T) {
    function GetOr(default: T): T {
      match this
      case Some(v) => v
      case None => default
    }
  }

  /** No terminator inside. */
  predicate NulFree(s: string) {
    forall k :: 0 <= k < |s| ==> s[k] != '\0'
  }

  /** The text of a `char *`: it never contains its own terminator. */
  type CString = s: string | NulFree(s) witness ""

  /** What a reader of a NUL-terminated buffer sees (`c_str()`, `%s`, `strlen`). */
  function CStr(s: string): (r: CString)
    ensures r <= s
    ensures |r| < |s| ==> s[|r|] == '\0'
  {
    if s == "" || s[0] == '\0' then "" else [s[0]] + CStr(s[1..])
  }

  /** The contract of CStr determines its result. */
  lemma {:induction false} CStrUnique(s: string, r: CString)
    requires r <= s
    requires |r| < |s| ==> s[|r|] == '\0'
    ensures CStr(s) == r
  {
    if s != "" && s[0] != '\0' {
      CStrUnique(s[1..], r[1..]);
    }
  }

  lemma {:induction false} CStrStops(s: string)
    requires '\0' in s
    ensures |CStr(s)| < |s| && s[|CStr(s)|] == '\0'
  {
    if s[0] != '\0' {
      assert s == [s[0]] + s[1..];
      CStrStops(s[1..]);
    }
  }

  /** `isspace` in the C locale. */
  predicate IsSpace(c: char) {
    c == ' ' || '\t' <= c <= '\r'
  }

  predicate IsDigit(c: char) {
    '0' <= c <= '9'
  }

  function ToLower(c: char): char {
    if 'A' <= c <= 'Z' then (c as int + 32) as char else c
  }

  /** Equality under `strcasecmp`. */
  predicate SameIgnoringCase(a: string, b: string) {
    |a| == |b| && forall i :: 0 <= i < |a| ==> ToLower(a[i]) == ToLower(b[i])
  }

  function SkipSpace(s: string): (r: string)
    ensures |r| <= |s|
    ensures forall c :: c in r ==> c in s
  {
    if s != "" && IsSpace(s[0]) then SkipSpace(s[1..]) else s
  }

  function DigitsValue(s: string, acc: int): int {
    if s != "" && IsDigit(s[0])
    then DigitsValue(s[1..], 10 * acc + (s[0] as int - '0' as int))
    else acc
  }

  const LONG_MAX := 0x7fff_ffff_ffff_ffff
  const LONG_MIN := -0x8000_0000_0000_0000

  /** `strtol(s, NULL, 10)`, saturating at 64 bits. */
  function Strtol(s: string): int {
    var t := SkipSpace(s);
    var v: int := if t != "" && t[0] == '-' then -DigitsValue(t[1..], 0)
             else if t != "" && t[0] == '+' then DigitsValue(t[1..], 0)
             else DigitsValue(t, 0);
    if v > LONG_MAX then LONG_MAX else if v < LONG_MIN then LONG_MIN else v
  }

  /** glibc's `atoi`: `strtol` cut down to 32 bits. */
  function Atoi(s: string): (n: int)
    ensures -0x8000_0000 <= n <= 0x7fff_ffff
  {
    (Strtol(s) + 0x8000_0000) % 0x1_0000_0000 - 0x8000_0000
  }

  /** `"%d"`. */
  function Decimal(n: int): string
    decreases n < 0, if n < 0 then -n else n
  {
    if n < 0 then "-" + Decimal(-n)
    else (if n < 10 then "" else Decimal(n / 10)) + ['0' + (n % 10) as char]
  }

  /** What `snprintf(buf, size, "%s", s)` leaves in `buf`. */
  function Cut(s: string, size: nat): (r: string)
    requires size > 0
    ensures r <= s && |r| < size
    ensures |s| < size ==> r == s
    ensures |s| >= size ==> |r| == size - 1
  {
    if |s| < size then s else s[..size - 1]
  }
}
