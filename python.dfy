/** Python-level values and string operations the face detection core relies on:
    truthiness versus identity with `True`, f-string rendering, `str.lower`,
    `str.endswith` with a tuple of suffixes. */
module PyValues {

  /** The dynamically typed values that flow through flags, menu selections and
      constructor arguments. Floats never reach the modelled code, so there is no
      float case. */
  datatype PyValue = PyNone | PyBool(b: bool) | PyInt(i: int) | PyStr(s: string)

  /** The exceptions the core raises or catches. */
  datatype PyError =
    | TypeError       // a call with the wrong number of positional arguments
    | ValueError      // an invalid file extension
    | AttributeError  // an attribute looked up on `None` or on an object without it
    | CvError         // an OpenCV assertion (empty image)

  datatype Result<+T> = Ok(value: T) | Err(error: PyError)

  datatype Option<+T> = None | Some(value: T)

  /** `if v:` */
  predicate Truthy(v: PyValue) {
    match v
    case PyNone => false
    case PyBool(b) => b
    case PyInt(i) => i != 0
    case PyStr(s) => s != ""
  }

  /** `v is True`: only the boolean singleton passes, not `1` or `'Blur'`. */
  predicate IsTrue(v: PyValue) {
    v == PyBool(true)
  }

  /** `v is True` is strictly stronger than truthiness. */
  lemma IsTrueIsTruthy(v: PyValue)
    ensures IsTrue(v) ==> Truthy(v)
    ensures Truthy(PyStr("Blur")) && !IsTrue(PyStr("Blur"))
    ensures Truthy(PyInt(1)) && !IsTrue(PyInt(1))
  {
  }

  /** Decimal digits of a natural number, most significant first, no leading zero. */
  function NatToString(n: nat): (s: string)
    ensures |s| >= 1
    ensures forall k :: 0 <= k < |s| ==> '0' <= s[k] <= '9'
    ensures n > 0 ==> s[0] != '0'
    ensures n == 0 <==> s == "0"
    decreases n
  {
    if n < 10 then [Digit(n)] else NatToString(n / 10) + [Digit(n % 10)]
  }

  function Digit(d: nat): (c: char)
    requires d < 10
    ensures '0' <= c <= '9' && c as int - '0' as int == d
  {
    (d + '0' as int) as char
  }

  /** The value of a string of decimal digits, read most significant first. */
  function DigitsValue(s: string): int
  {
    if s == [] then 0 else DigitsValue(s[..|s| - 1]) * 10 + (s[|s| - 1] as int - '0' as int)
  }

  /** Reading the digits back gives the number: the rendering loses nothing. */
  lemma {:induction false} NatToStringRoundTrip(n: nat)
    ensures DigitsValue(NatToString(n)) == n
    decreases n
  {
    if n >= 10 {
      NatToStringRoundTrip(n / 10);
      var s := NatToString(n);
      assert s[..|s| - 1] == NatToString(n / 10);
    }
  }

  /** Two different counts never render to the same text. */
  lemma NatToStringInjective(m: nat, n: nat)
    ensures NatToString(m) == NatToString(n) ==> m == n
  {
    NatToStringRoundTrip(m);
    NatToStringRoundTrip(n);
  }

  /** `str(i)` for an int. */
  function IntToString(i: int): string {
    if i < 0 then "-" + NatToString(-i) else NatToString(i)
  }

  /** Two different ints never render to the same text: a minus sign is never a digit. */
  lemma IntToStringInjective(i: int, j: int)
    ensures IntToString(i) == IntToString(j) ==> i == j
  {
    if IntToString(i) == IntToString(j) {
      if i < 0 && j < 0 {
        assert IntToString(i)[1..] == NatToString(-i);
        assert IntToString(j)[1..] == NatToString(-j);
        NatToStringInjective(-i, -j);
      } else if i >= 0 && j >= 0 {
        NatToStringInjective(i, j);
      }
    }
  }

  /** What an f-string placeholder `{v}` renders. */
  function Str(v: PyValue): (s: string)
    ensures v == PyBool(true) ==> s == "True"
    ensures v == PyBool(false) ==> s == "False"
  {
    match v
    case PyNone => "None"
    case PyBool(b) => if b then "True" else "False"
    case PyInt(i) => IntToString(i)
    case PyStr(t) => t
  }

  /** `str.lower` on one character; only ASCII letters are mapped. */
  function LowerChar(c: char): char {
    if 'A' <= c <= 'Z' then (c as int - 'A' as int + 'a' as int) as char else c
  }

  /** `str.lower`, restricted to ASCII case mapping. */
  function Lower(s: string): (r: string)
    ensures |r| == |s|
    ensures forall k :: 0 <= k < |s| ==> r[k] == LowerChar(s[k])
  {
    if s == [] then [] else [LowerChar(s[0])] + Lower(s[1..])
  }

  /** Lower-casing twice is lower-casing once. */
  lemma LowerIdempotent(s: string)
    ensures Lower(Lower(s)) == Lower(s)
  {
    var l := Lower(s);
    assert forall k :: 0 <= k < |s| ==> LowerChar(l[k]) == l[k];
  }

  /** Lower-casing commutes with taking a suffix. */
  lemma LowerSuffix(s: string, k: nat)
    requires k <= |s|
    ensures Lower(s)[k..] == Lower(s[k..])
  {
  }

  /** `s.endswith(suffix)` */
  predicate EndsWith(s: string, suffix: string) {
    |suffix| <= |s| && s[|s| - |suffix|..] == suffix
  }

  /** `s.endswith(suffixes)` for a tuple of suffixes. */
  predicate EndsWithAny(s: string, suffixes: seq<string>) {
    exists k :: 0 <= k < |suffixes| && EndsWith(s, suffixes[k])
  }
}
