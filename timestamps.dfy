/** The three renderings of `datetime.now()` the core uses: the file-name stamp
    `strftime("%Y%m%d_%H%M%S")`, and the overlay's `strftime("%d %b %Y")` and
    `strftime("%H:%M:%S")`. The clock itself is an input. */
module Timestamps {
  import opened PyValues

  datatype DateTime = DateTime(year: int, month: int, day: int, hour: int, minute: int, second: int) {
    /** A real calendar instant. Years are four-digit: below 1000 `%Y` is not zero-padded on every platform. */
    predicate Valid() {
      && 1000 <= year <= 9999
      && 1 <= month <= 12
      && 1 <= day <= DaysInMonth(year, month)
      && 0 <= hour < 24 && 0 <= minute < 60 && 0 <= second < 60
    }
  }

  type Instant = t: DateTime | t.Valid() witness DateTime(2023, 10, 2, 0, 0, 0)

  predicate IsLeapYear(y: int) {
    (y % 4 == 0 && y % 100 != 0) || y % 400 == 0
  }

  function DaysInMonth(y: int, m: int): int {
    if m == 2 then (if IsLeapYear(y) then 29 else 28)
    else if m == 4 || m == 6 || m == 9 || m == 11 then 30
    else 31
  }

  function Pow10(w: nat): (p: nat)
    ensures p >= 1
  {
    if w == 0 then 1 else 10 * Pow10(w - 1)
  }

  /** `n` written with exactly `w` digits, zero-padded on the left (`%02d`, `%04d`). */
  function Pad(n: nat, w: nat): (s: string)
    ensures |s| == w
    ensures forall k :: 0 <= k < |s| ==> '0' <= s[k] <= '9'
  {
    if w == 0 then "" else Pad(n / 10, w - 1) + [Digit(n % 10)]
  }

  /** Reading a padded field back gives the number, when it fits in the width. */
  lemma {:induction false} PadValue(n: nat, w: nat)
    requires n < Pow10(w)
    ensures DigitsValue(Pad(n, w)) == n
  {
    if w > 0 {
      PadValue(n / 10, w - 1);
      var s := Pad(n, w);
      assert s[..|s| - 1] == Pad(n / 10, w - 1);
    }
  }

  /** `%Y%m%d_%H%M%S`, the stamp in every output file name. */
  function Stamp(t: Instant): (s: string)
    ensures |s| == 15 && s[8] == '_'
    ensures forall k :: 0 <= k < 15 && k != 8 ==> '0' <= s[k] <= '9'
  {
    Pad(t.year, 4) + Pad(t.month, 2) + Pad(t.day, 2) + "_" + Pad(t.hour, 2) + Pad(t.minute, 2) + Pad(t.second, 2)
  }

  predicate AllDigits(s: string) {
    forall k :: 0 <= k < |s| ==> '0' <= s[k] <= '9'
  }

  /** Reads a stamp back; `None` for anything not of the stamp's form or not a real instant. */
  function ParseStamp(s: string): Option<Instant>
  {
    if |s| == 15 && s[8] == '_' && AllDigits(s[..8]) && AllDigits(s[9..]) then
      var t := DateTime(DigitsValue(s[0..4]), DigitsValue(s[4..6]), DigitsValue(s[6..8]),
                        DigitsValue(s[9..11]), DigitsValue(s[11..13]), DigitsValue(s[13..15]));
      if t.Valid() then Some(t) else None
    else None
  }

  lemma StampFields(t: Instant)
    ensures Stamp(t)[0..4] == Pad(t.year, 4) && Stamp(t)[4..6] == Pad(t.month, 2) && Stamp(t)[6..8] == Pad(t.day, 2)
    ensures Stamp(t)[9..11] == Pad(t.hour, 2) && Stamp(t)[11..13] == Pad(t.minute, 2) && Stamp(t)[13..15] == Pad(t.second, 2)
  {
    var y, mo, d := Pad(t.year, 4), Pad(t.month, 2), Pad(t.day, 2);
    var h, mi, se := Pad(t.hour, 2), Pad(t.minute, 2), Pad(t.second, 2);
    var s := Stamp(t);
    assert s == y + mo + d + "_" + h + mi + se;
    assert s[0..4] == y;
    assert s[4..6] == mo;
    assert s[6..8] == d;
    assert s[9..11] == h;
    assert s[11..13] == mi;
    assert s[13..15] == se;
  }

  /** Every field of an instant fits the width it is written with. */
  lemma FieldsFit(t: Instant)
    ensures t.year < Pow10(4) && t.month < Pow10(2) && t.day < Pow10(2)
    ensures t.hour < Pow10(2) && t.minute < Pow10(2) && t.second < Pow10(2)
  {
    assert Pow10(2) == 100;
    assert Pow10(4) == 10000;
  }

  lemma StampDigits(t: Instant)
    ensures AllDigits(Stamp(t)[..8]) && AllDigits(Stamp(t)[9..])
  {
    var s := Stamp(t);
    assert forall k :: 0 <= k < 8 ==> s[..8][k] == s[k];
    assert forall k :: 0 <= k < 6 ==> s[9..][k] == s[9 + k];
  }

  /** A string of the stamp's form whose fields read as `t` parses to `t`. */
  lemma ParseFields(s: string, t: Instant)
    requires |s| == 15 && s[8] == '_' && AllDigits(s[..8]) && AllDigits(s[9..])
    requires DigitsValue(s[0..4]) == t.year && DigitsValue(s[4..6]) == t.month && DigitsValue(s[6..8]) == t.day
    requires DigitsValue(s[9..11]) == t.hour && DigitsValue(s[11..13]) == t.minute && DigitsValue(s[13..15]) == t.second
    ensures ParseStamp(s) == Some(t)
  {
  }

  /** The stamp loses nothing: every instant is read back from its stamp. */
  lemma StampRoundTrip(t: Instant)
    ensures ParseStamp(Stamp(t)) == Some(t)
  {
    StampFields(t);
    FieldsFit(t);
    PadValue(t.year, 4);
    PadValue(t.month, 2);
    PadValue(t.day, 2);
    PadValue(t.hour, 2);
    PadValue(t.minute, 2);
    PadValue(t.second, 2);
    StampDigits(t);
    ParseFields(Stamp(t), t);
  }

  /** Distinct instants give distinct stamps, so two runs never share an output name. */
  lemma StampInjective(t: Instant, u: Instant)
    ensures Stamp(t) == Stamp(u) ==> t == u
  {
    StampRoundTrip(t);
    StampRoundTrip(u);
  }

  /** `%b` in the C locale. */
  function MonthAbbrev(m: int): (s: string)
    requires 1 <= m <= 12
    ensures |s| == 3
  {
    ["Jan", "Feb", "Mar", "Apr", "May", "Jun", "Jul", "Aug", "Sep", "Oct", "Nov", "Dec"][m - 1]
  }

  /** `%d %b %Y`, the overlay's date line, e.g. `02 Oct 2023`. */
  function DateText(t: Instant): (s: string)
    ensures |s| == 11 && s[2] == ' ' && s[6] == ' '
    ensures s[3..6] == MonthAbbrev(t.month)
    ensures AllDigits(s[..2]) && AllDigits(s[7..])
    ensures DigitsValue(s[..2]) == t.day && DigitsValue(s[7..]) == t.year
  {
    var s := Pad(t.day, 2) + " " + MonthAbbrev(t.month) + " " + Pad(t.year, 4);
    assert s[..2] == Pad(t.day, 2) && s[7..] == Pad(t.year, 4);
    PadValue(t.day, 2);
    PadValue(t.year, 4);
    s
  }

  /** `%H:%M:%S`, the overlay's time line, e.g. `14:05:09`. */
  function TimeText(t: Instant): (s: string)
    ensures |s| == 8 && s[2] == ':' && s[5] == ':'
    ensures AllDigits(s[..2]) && AllDigits(s[3..5]) && AllDigits(s[6..])
    ensures DigitsValue(s[..2]) == t.hour && DigitsValue(s[3..5]) == t.minute && DigitsValue(s[6..]) == t.second
  {
    var s := Pad(t.hour, 2) + ":" + Pad(t.minute, 2) + ":" + Pad(t.second, 2);
    assert s[..2] == Pad(t.hour, 2) && s[3..5] == Pad(t.minute, 2) && s[6..] == Pad(t.second, 2);
    PadValue(t.hour, 2);
    PadValue(t.minute, 2);
    PadValue(t.second, 2);
    s
  }
}
