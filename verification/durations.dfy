/** Reading durations: Python's `int` on a token, `str.split`, the
    `parse_duration` scaling of a duration token by the song's least common
    denominator, and the two passes of `parse_file` that fold that lcm over
    the denominators and sum the scaled durations. */
module Durations {
  import opened Wrappers
  import opened NumberTheory

  /** One line of a song, already split into tokens: the note tokens of a
      chord and the duration token that ends the line. */
  datatype Event = Event(chord: seq<string>, duration: string)

  /** A duration token: a whole number of beats `n`, or `num/denom`. */
  datatype Duration = Whole(n: int) | Fraction(num: int, denom: int)

  /** What `parse_file` returns, less the file name: the events, the lcm of
      the denominators and the song's length in scaled units. */
  datatype SongInfo = SongInfo(events: seq<Event>, lcd: nat, length: int)

  predicate IsDigit(c: char)
  {
    '0' <= c <= '9'
  }

  /** A non-empty string of decimal digits. */
  predicate AllDigits(s: string)
  {
    |s| > 0 && forall k | 0 <= k < |s| :: IsDigit(s[k])
  }

  /** The value of a string of decimal digits, most significant first. */
  function DigitsValue(s: string): nat
    requires forall k | 0 <= k < |s| :: IsDigit(s[k])
  {
    if s == [] then 0
    else
      assert IsDigit(s[|s| - 1]);
      10 * DigitsValue(s[..|s| - 1]) + (s[|s| - 1] as int - '0' as int)
  }

  /** `int(s)` on a token: an optional sign and at least one decimal digit;
      anything else raises ValueError. */
  function ParseInt(s: string): (r: Result<int, Exception>)
    ensures r.Err? ==> r.error == ValueError
  {
    if AllDigits(s) then Ok(DigitsValue(s))
    else if |s| >= 2 && s[0] == '-' && AllDigits(s[1..]) then Ok(-(DigitsValue(s[1..]) as int))
    else if |s| >= 2 && s[0] == '+' && AllDigits(s[1..]) then Ok(DigitsValue(s[1..]))
    else Err(ValueError)
  }

  /** The decimal digits of n, most significant first, without leading
      zeros. */
  function NatDigits(n: nat): (s: string)
    ensures AllDigits(s)
  {
    if n < 10 then [('0' as int + n) as char]
    else NatDigits(n / 10) + [('0' as int + n % 10) as char]
  }

  /** `str(n)`: a minus sign for a negative n, then the digits. */
  function IntString(n: int): string
  {
    if n < 0 then "-" + NatDigits(-n) else NatDigits(n)
  }

  lemma {:induction false} NatDigitsValue(n: nat)
    ensures DigitsValue(NatDigits(n)) == n
  {
    if n >= 10 {
      NatDigitsValue(n / 10);
      var s := NatDigits(n);
      assert s[..|s| - 1] == NatDigits(n / 10);
    }
  }

  /** Reading back what `str` printed gives the number: `int(str(n)) == n`. */
  lemma ParseIntRoundTrip(n: int)
    ensures ParseInt(IntString(n)) == Ok(n)
  {
    if n < 0 {
      NatDigitsValue(-n);
      assert IntString(n)[1..] == NatDigits(-n);
    } else {
      NatDigitsValue(n);
    }
  }

  /** `s.split(sep)`: the pieces between the separators, in order. */
  function Split(s: string, sep: char): (parts: seq<string>)
    ensures |parts| >= 1
    ensures sep in s ==> |parts| >= 2
  {
    if s == [] then [""]
    else
      var rest := Split(s[1..], sep);
      if s[0] == sep then [""] + rest
      else [[s[0]] + rest[0]] + rest[1..]
  }

  /** `sep.join(parts)`. */
  function Join(parts: seq<string>, sep: char): string
    requires |parts| >= 1
  {
    if |parts| == 1 then parts[0] else parts[0] + [sep] + Join(parts[1..], sep)
  }

  /** Splitting loses nothing: joining the pieces with the separator gives
      the token back. */
  lemma {:induction false} SplitJoin(s: string, sep: char)
    ensures Join(Split(s, sep), sep) == s
  {
    if s != [] {
      var rest := Split(s[1..], sep);
      SplitJoin(s[1..], sep);
      assert s == [s[0]] + s[1..];
      if s[0] == sep {
        assert ([""] + rest)[1..] == rest;
      } else {
        var parts := [[s[0]] + rest[0]] + rest[1..];
        if |rest| > 1 {
          assert parts[1..] == rest[1..];
          assert Join(parts, sep) == [s[0]] + Join(rest, sep);
        }
      }
    }
  }

  /** No piece of a split holds the separator. */
  lemma {:induction false} SplitPiecesFree(s: string, sep: char)
    ensures forall k | 0 <= k < |Split(s, sep)| :: sep !in Split(s, sep)[k]
  {
    if s != [] {
      SplitPiecesFree(s[1..], sep);
      var rest := Split(s[1..], sep);
      if s[0] != sep {
        assert sep !in rest[0];
        assert sep !in [s[0]] + rest[0];
      }
    }
  }

  /** The pieces of a duration token split at '/': exactly two integers,
      the numerator and the denominator. */
  function ReadFraction(parts: seq<string>): (r: Result<Duration, Exception>)
    ensures r.Err? ==> r.error == ValueError
  {
    if |parts| == 2 && ParseInt(parts[0]).Ok? && ParseInt(parts[1]).Ok? then
      Ok(Fraction(ParseInt(parts[0]).value, ParseInt(parts[1]).value))
    else Err(ValueError)
  }

  /** A duration token as `parse_duration` reads it: with a '/', it must
      split into exactly two integers; without, it is one integer. */
  function ReadDuration(s: string): (r: Result<Duration, Exception>)
    ensures r.Err? ==> r.error == ValueError
  {
    if '/' in s then ReadFraction(Split(s, '/'))
    else
      match ParseInt(s)
      case Ok(n) => Ok(Whole(n))
      case Err(e) => Err(e)
  }

  /** The duration in units of 1/lcd beats: `n * lcd` for a whole number,
      `num * int(lcd / denom)` for a fraction. Once a song holds a '/'
      its lcd is a numpy int64 (`numpy.lcm` returns one), so a zero
      denominator is a numpy division: it gives nan for a zero lcd, on
      which `int` raises ValueError, and an infinity otherwise, on which
      `int` raises OverflowError. In a song the zero denominator has
      already made the lcd 0 (ZeroDenominatorRaisesValueError). */
  function ScaleDuration(lcd: int, d: Duration): (r: Result<int, Exception>)
    ensures r.Err? <==> d.Fraction? && d.denom == 0
    ensures r.Err? ==> r.error == (if lcd == 0 then ValueError else OverflowError)
  {
    match d
    case Whole(n) => Ok(n * lcd)
    case Fraction(num, denom) =>
      if denom == 0 then Err(if lcd == 0 then ValueError else OverflowError)
      else Ok(num * TruncDiv(lcd, denom))
  }

  /** `parse_duration(lcd, duration)`. */
  function ParseDuration(lcd: int, s: string): Result<int, Exception>
  {
    match ReadDuration(s)
    case Ok(d) => ScaleDuration(lcd, d)
    case Err(e) => Err(e)
  }

  /** A whole number of beats is scaled by lcd, and a fraction whose
      denominator divides lcd becomes exactly num / denom beats. */
  lemma ParseDurationExact(lcd: nat, s: string)
    requires ReadDuration(s).Ok?
    ensures ReadDuration(s).value.Whole? ==> ParseDuration(lcd, s) == Ok(ReadDuration(s).value.n * lcd)
    ensures (ReadDuration(s).value.Fraction? && ReadDuration(s).value.denom != 0 &&
             lcd % Abs(ReadDuration(s).value.denom) == 0) ==>
      ParseDuration(lcd, s).Ok? &&
      ParseDuration(lcd, s).value * ReadDuration(s).value.denom == ReadDuration(s).value.num * lcd
  {
    var d := ReadDuration(s).value;
    if d.Fraction? && d.denom != 0 && lcd % Abs(d.denom) == 0 {
      var num, denom := d.num, d.denom;
      var t := TruncDiv(lcd, denom);
      TruncDivExact(lcd, denom);
      assert ParseDuration(lcd, s) == Ok(num * t);
      MulAssoc(num, t, denom);
    }
  }

  /** The denominator the lcm pass of `parse_file` reads from a duration
      token with a '/': `int(duration.split("/")[1])`. */
  function Denominator(s: string): Result<int, Exception>
    requires '/' in s
  {
    ParseInt(Split(s, '/')[1])
  }

  /** The first pass of `parse_file`: starting from 1, the lcm of the
      running value and the denominator of every duration with a '/'. */
  function SongLcd(events: seq<Event>): Result<nat, Exception>
  {
    if events == [] then Ok(1)
    else
      match SongLcd(events[..|events| - 1])
      case Err(e) => Err(e)
      case Ok(lcd) =>
        var s := events[|events| - 1].duration;
        if '/' in s then
          match Denominator(s)
          case Err(e) => Err(e)
          case Ok(denom) => Ok(Lcm(Abs(denom), lcd))
        else Ok(lcd)
  }

  /** The second pass of `parse_file`: the sum of the scaled durations. */
  function SongLength(events: seq<Event>, lcd: int): Result<int, Exception>
  {
    if events == [] then Ok(0)
    else
      match SongLength(events[..|events| - 1], lcd)
      case Err(e) => Err(e)
      case Ok(length) =>
        match ParseDuration(lcd, events[|events| - 1].duration)
        case Err(e) => Err(e)
        case Ok(n) => Ok(length + n)
  }

  /** Whatever divides b divides lcm(a, b). */
  lemma DividesLcm(d: int, a: nat, b: nat)
    requires Divides(d, b)
    ensures Divides(d, Lcm(a, b)) && Divides(d, Lcm(b, a))
  {
    if a > 0 && b > 0 {
      LcmIsCommonMultiple(a, b);
      LcmIsCommonMultiple(b, a);
      DividesTransitive(d, b, Lcm(a, b));
      DividesTransitive(d, b, Lcm(b, a));
    }
  }

  /** The song's lcd is a multiple of the (absolute) denominator of every
      fraction in the song. */
  lemma {:induction false} SongLcdDivides(events: seq<Event>, k: int)
    requires SongLcd(events).Ok? && 0 <= k < |events| && '/' in events[k].duration
    requires Denominator(events[k].duration).Ok? && Denominator(events[k].duration).value != 0
    ensures Divides(Abs(Denominator(events[k].duration).value), SongLcd(events).value)
  {
    var last := |events| - 1;
    var init := events[..last];
    var lcd := SongLcd(init).value;
    var s := events[last].duration;
    if k == last {
      var denom := Abs(Denominator(s).value);
      MultipleMod(denom, 1);
      DividesLcm(denom, lcd, denom);
    } else {
      assert init[k] == events[k];
      SongLcdDivides(init, k);
      if '/' in s {
        DividesLcm(Abs(Denominator(events[k].duration).value), Abs(Denominator(s).value), lcd);
      }
    }
  }

  /** Every fraction of a song whose first pass succeeded scales to exactly
      num / denom beats in units of 1/lcd: the scaled duration times the
      denominator is the numerator times the lcd. */
  lemma FractionScalesExactly(events: seq<Event>, k: int)
    requires SongLcd(events).Ok? && 0 <= k < |events|
    requires ReadDuration(events[k].duration).Ok? && ReadDuration(events[k].duration).value.Fraction?
    requires ReadDuration(events[k].duration).value.denom != 0
    ensures ParseDuration(SongLcd(events).value, events[k].duration).Ok?
    ensures ParseDuration(SongLcd(events).value, events[k].duration).value * ReadDuration(events[k].duration).value.denom ==
            ReadDuration(events[k].duration).value.num * SongLcd(events).value
  {
    var s := events[k].duration;
    assert Denominator(s) == Ok(ReadDuration(s).value.denom);
    SongLcdDivides(events, k);
    ParseDurationExact(SongLcd(events).value, s);
  }

  /** A zero denominator anywhere in a song makes its lcd 0: lcm(0, x) is
      0, and every later lcm with 0 is 0 again. */
  lemma {:induction false} ZeroDenominatorZeroLcd(events: seq<Event>, k: int)
    requires SongLcd(events).Ok? && 0 <= k < |events| && '/' in events[k].duration
    requires Denominator(events[k].duration) == Ok(0)
    ensures SongLcd(events).value == 0
  {
    var last := |events| - 1;
    if k < last {
      assert events[..last][k] == events[k];
      ZeroDenominatorZeroLcd(events[..last], k);
    }
  }

  /** At a zero lcd every exception of the length pass is a ValueError. */
  lemma {:induction false} ZeroLcdLengthErrors(events: seq<Event>)
    ensures SongLength(events, 0).Err? ==> SongLength(events, 0).error == ValueError
  {
    if events != [] {
      ZeroLcdLengthErrors(events[..|events| - 1]);
    }
  }

  /** A song whose lcm pass succeeds but which holds a fraction with a
      zero denominator fails its length pass with ValueError. */
  lemma ZeroDenominatorRaisesValueError(events: seq<Event>, k: int)
    requires SongLcd(events).Ok? && 0 <= k < |events|
    requires ReadDuration(events[k].duration).Ok? && ReadDuration(events[k].duration).value.Fraction?
    requires ReadDuration(events[k].duration).value.denom == 0
    ensures SongLength(events, SongLcd(events).value) == Err(ValueError)
  {
    var s := events[k].duration;
    assert Denominator(s) == Ok(0);
    ZeroDenominatorZeroLcd(events, k);
    assert events[..k + 1][..k] == events[..k];
    assert events[..k + 1][k] == events[k];
    assert ParseDuration(0, s).Err?;
    PrefixErrorPersistsLength(events, 0, k + 1);
    ZeroLcdLengthErrors(events);
  }

  /** Whether `parse_file` leaves the song length a numpy int64 rather
      than a Python int: the lcd is an int64 as soon as one duration holds
      a '/', a whole duration then scales to `int(duration) * lcd`, an
      int64 that makes the running length one, while a fraction scales
      through `int(...)` to a Python int. */
  predicate LengthIsInt64(events: seq<Event>)
  {
    (exists k | 0 <= k < |events| :: '/' in events[k].duration) &&
    (exists k | 0 <= k < |events| :: '/' !in events[k].duration)
  }

  /** `parse_file` on tokenized lines: the lcm pass, then the length pass,
      each raising the first exception its `int` or division raises. */
  method ParseSong(events: seq<Event>) returns (r: Result<SongInfo, Exception>)
    ensures SongLcd(events).Err? ==> r == Err(SongLcd(events).error)
    ensures SongLcd(events).Ok? && SongLength(events, SongLcd(events).value).Err? ==>
      r == Err(SongLength(events, SongLcd(events).value).error)
    ensures SongLcd(events).Ok? && SongLength(events, SongLcd(events).value).Ok? ==>
      r == Ok(SongInfo(events, SongLcd(events).value, SongLength(events, SongLcd(events).value).value))
  {
    var lcd: nat := 1;
    for k := 0 to |events|
      invariant SongLcd(events[..k]) == Ok(lcd)
    {
      assert events[..k + 1][..k] == events[..k];
      var s := events[k].duration;
      if '/' in s {
        var denom := ParseInt(Split(s, '/')[1]);
        if denom.Err? {
          PrefixErrorPersistsLcd(events, k + 1);
          return Err(denom.error);
        }
        lcd := Lcm(Abs(denom.value), lcd);
      }
    }
    assert events[..|events|] == events;
    var length := 0;
    for k := 0 to |events|
      invariant SongLength(events[..k], lcd) == Ok(length)
    {
      assert events[..k + 1][..k] == events[..k];
      var n := ParseDuration(lcd, events[k].duration);
      if n.Err? {
        PrefixErrorPersistsLength(events, lcd, k + 1);
        return Err(n.error);
      }
      length := length + n.value;
    }
    return Ok(SongInfo(events, lcd, length));
  }

  /** An exception in the first k lines of the lcm pass is the pass's
      exception. */
  lemma {:induction false} PrefixErrorPersistsLcd(events: seq<Event>, k: int)
    requires 0 <= k <= |events| && SongLcd(events[..k]).Err?
    ensures SongLcd(events) == SongLcd(events[..k])
    decreases |events| - k
  {
    if k == |events| {
      assert events[..k] == events;
    } else {
      assert events[..k + 1][..k] == events[..k];
      PrefixErrorPersistsLcd(events, k + 1);
    }
  }

  /** An exception in the first k lines of the length pass is the pass's
      exception. */
  lemma {:induction false} PrefixErrorPersistsLength(events: seq<Event>, lcd: int, k: int)
    requires 0 <= k <= |events| && SongLength(events[..k], lcd).Err?
    ensures SongLength(events, lcd) == SongLength(events[..k], lcd)
    decreases |events| - k
  {
    if k == |events| {
      assert events[..k] == events;
    } else {
      assert events[..k + 1][..k] == events[..k];
      PrefixErrorPersistsLength(events, lcd, k + 1);
    }
  }
}
