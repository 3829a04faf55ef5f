/**
 * The WHOIS creation date as the analyser handles it: the date object the WHOIS reply
 * carries (the first one when the reply holds a list), written with
 * `strftime("%Y-%m-%d %H:%M:%S")`, and read back with `strptime` of the same format
 * to obtain its year.
 */
module DateFormat {

  import opened Optional
  import opened Decimal

  /** Python's `datetime` fields (no time zone; the format has no place for one). */
  datatype DateTime = DateTime(year: int, month: int, day: int,
                               hour: int, minute: int, second: int, microsecond: int)

  predicate IsLeapYear(y: int) {
    (y % 4 == 0 && y % 100 != 0) || y % 400 == 0
  }

  function DaysInMonth(y: int, m: int): int
    requires 1 <= m <= 12
  {
    if m == 2 then (if IsLeapYear(y) then 29 else 28)
    else if m == 4 || m == 6 || m == 9 || m == 11 then 30
    else 31
  }

  /** The ranges a Python `datetime` object enforces when it is constructed. */
  predicate ValidDateTime(d: DateTime) {
    1 <= d.year <= 9999 && 1 <= d.month <= 12 && 1 <= d.day <= DaysInMonth(d.year, d.month) &&
    0 <= d.hour < 24 && 0 <= d.minute < 60 && 0 <= d.second < 60 &&
    0 <= d.microsecond < 1000000
  }

  /** A `datetime` value: Python cannot construct one outside these ranges. */
  type Instant = d: DateTime | ValidDateTime(d) witness DateTime(1, 1, 1, 0, 0, 0, 0)

  /** `n` written with exactly `w` digits, zero-padded on the left (the `%Y`, `%m`, ... fields). */
  function Padded(n: nat, w: nat): (s: string)
    ensures |s| == w && AllDigits(s)
  {
    if w == 0 then [] else Padded(n / 10, w - 1) + [DigitChar(n % 10)]
  }

  /** `d.strftime("%Y-%m-%d %H:%M:%S")`: the microseconds are not written. */
  function Format(d: Instant): (s: string)
    ensures |s| == 19
  {
    Padded(d.year, 4) + "-" + Padded(d.month, 2) + "-" + Padded(d.day, 2) + " " +
    Padded(d.hour, 2) + ":" + Padded(d.minute, 2) + ":" + Padded(d.second, 2)
  }

  /** The digits at `s[i..i+w]`, when they are all digits. */
  function FieldAt(s: string, i: nat, w: nat): Option<nat>
  {
    if i + w <= |s| && AllDigits(s[i..i + w]) then Some(DigitsValue(s[i..i + w])) else None
  }

  /**
   * `datetime.strptime(s, "%Y-%m-%d %H:%M:%S")` for the zero-padded fixed-width form:
   * `None` stands for the `ValueError` it raises on text that does not match or on a
   * date that does not exist (a 30th of February, say).
   */
  function Parse(s: string): (r: Option<Instant>)
    ensures r.Some? ==> r.value.microsecond == 0
  {
    if |s| != 19 || s[4] != '-' || s[7] != '-' || s[10] != ' ' || s[13] != ':' || s[16] != ':' then None
    else
      match (FieldAt(s, 0, 4), FieldAt(s, 5, 2), FieldAt(s, 8, 2), FieldAt(s, 11, 2), FieldAt(s, 14, 2), FieldAt(s, 17, 2))
      case (Some(y), Some(mo), Some(dd), Some(h), Some(mi), Some(se)) =>
        var d := DateTime(y, mo, dd, h, mi, se, 0);
        if ValidDateTime(d) then Some(d) else None
      case _ => None
  }

  function Pow10(w: nat): nat
  {
    if w == 0 then 1 else 10 * Pow10(w - 1)
  }

  lemma {:induction false} PaddedValue(n: nat, w: nat)
    requires n < Pow10(w)
    ensures DigitsValue(Padded(n, w)) == n
  {
    if w > 0 {
      var s := Padded(n, w);
      assert s[..|s| - 1] == Padded(n / 10, w - 1);
      PaddedValue(n / 10, w - 1);
    } else {
      assert n == 0;
    }
  }

  /** A field that fits its width reads back as itself from the formatted text. */
  lemma FieldRoundTrip(s: string, i: nat, n: nat, w: nat)
    requires n < Pow10(w) && i + w <= |s| && s[i..i + w] == Padded(n, w)
    ensures FieldAt(s, i, w) == Some(n)
  {
    PaddedValue(n, w);
  }

  /**
   * Formatting a `datetime` and parsing the text back yields the same date and time,
   * without the microseconds; in particular the year the classifier reads is the year
   * of the WHOIS creation date.
   */
  lemma FormatParse(d: Instant)
    ensures Parse(Format(d)) == Some(d.(microsecond := 0))
    ensures Parse(Format(d)).value.year == d.year
  {
    var s := Format(d);
    assert s[0..4] == Padded(d.year, 4);
    assert s[5..7] == Padded(d.month, 2);
    assert s[8..10] == Padded(d.day, 2);
    assert s[11..13] == Padded(d.hour, 2);
    assert s[14..16] == Padded(d.minute, 2);
    assert s[17..19] == Padded(d.second, 2);
    assert Pow10(2) == 100 && Pow10(4) == 10000;
    FieldRoundTrip(s, 0, d.year, 4);
    FieldRoundTrip(s, 5, d.month, 2);
    FieldRoundTrip(s, 8, d.day, 2);
    FieldRoundTrip(s, 11, d.hour, 2);
    FieldRoundTrip(s, 14, d.minute, 2);
    FieldRoundTrip(s, 17, d.second, 2);
  }

  /** What python-whois may put in `creation_date`: nothing, a `datetime`, or undecoded text. */
  datatype CreationValue = NoValue | Moment(at: Instant) | Text(raw: string)

  /** The outcome of `whois.whois(domain)`: it raised, or it answered with one value or a list. */
  datatype WhoisReply = LookupFailed | Answer(creation: CreationValue) | Answers(creations: seq<CreationValue>)

  /**
   * The `datetime` whose text ends up in `whois_creation_date`, if any: the first element
   * of a list is used (an empty list raises `IndexError`, which is caught); a missing
   * value is skipped; text has no `strftime`, and the `AttributeError` is caught.
   */
  function CreationInstant(w: WhoisReply): (r: Option<Instant>)
    ensures w.Answer? && w.creation.Moment? ==> r == Some(w.creation.at)
    ensures w.Answers? && |w.creations| > 0 && w.creations[0].Moment? ==> r == Some(w.creations[0].at)
    ensures r.Some? <==> (w.Answer? && w.creation.Moment?) ||
                         (w.Answers? && |w.creations| > 0 && w.creations[0].Moment?)
  {
    match w
    case LookupFailed => None
    case Answer(c) => FormattableValue(c)
    case Answers(cs) => if |cs| == 0 then None else FormattableValue(cs[0])
  }

  /** The value `strftime` succeeds on: only a `datetime` (`None` and `""` are falsy and skipped). */
  function FormattableValue(c: CreationValue): Option<Instant>
  {
    if c.Moment? then Some(c.at) else None
  }

  /** `whois_creation_date` after the WHOIS step: the formatted creation date, or `None`. */
  function CreationDateText(w: WhoisReply): (r: Option<string>)
  {
    match CreationInstant(w)
    case None => None
    case Some(d) => Some(Format(d))
  }

  /** The stored creation date, whenever there is one, parses back to the date WHOIS gave. */
  lemma CreationDateTextParses(w: WhoisReply)
    ensures CreationDateText(w).Some? <==> CreationInstant(w).Some?
    ensures CreationDateText(w).Some? ==>
              |CreationDateText(w).value| == 19 &&
              Parse(CreationDateText(w).value) == Some(CreationInstant(w).value.(microsecond := 0))
  {
    if CreationInstant(w).Some? {
      FormatParse(CreationInstant(w).value);
    }
  }
}
