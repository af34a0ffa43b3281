/**
 * The numeric encodings of updatedAt (internal/server/json_flexible_time.go).
 *
 * A client may send Unix seconds, Unix milliseconds, or seconds or milliseconds since Apple's
 * reference date; the decoder guesses from the magnitude and computes in 64-bit floats.
 */
module FlexibleTime {

  import opened Base
  import opened Binary64
  import R = ReadingPosition

  /** Seconds between the Unix epoch and 2001-01-01T00:00:00Z. */
  const APPLE_EPOCH := 978_307_200

  const GIGA := 1_000_000_000

  /** PlatformDefined: a float outside the range of int64 was converted to an integer. */
  datatype Outcome = RangeError | PlatformDefined | At(time: R.Instant)

  /** An instant moved by a float number of nanoseconds, as time.Duration holds it. */
  function Shift(base: R.Instant, nanos: real): Outcome {
    if ToInt64(nanos).None? then PlatformDefined else At(base + ToInt64(nanos).value)
  }

  function DecodeFloat(f: real): Outcome {
    var whole := ToInt64(f);
    if whole.None? then PlatformDefined
    else if f >= 100_000_000_000.0 then
      var ms := whole.value;
      if ms < APPLE_EPOCH * 1000 then Shift(APPLE_EPOCH * GIGA, Round(f * 1_000_000.0))
      else Shift(ms * 1_000_000, Round(Round(f - ms as real) * 1_000_000.0))
    else
      var sec := whole.value;
      if sec < APPLE_EPOCH then Shift(APPLE_EPOCH * GIGA, Round(f * 1_000_000_000.0))
      else Shift(sec * GIGA, Round(Round(f - sec as real) * 1_000_000_000.0))
  }

  /** What the decimal number `x` in the request stands for. */
  function Decode(x: real): Outcome {
    var f := Parse(x);
    if f.None? then RangeError else DecodeFloat(f.value)
  }

  class FlexibleTime {
    var time: R.Instant

    constructor ()
      ensures time == R.ZERO_TIME
    {
      time := R.ZERO_TIME;
    }

    /** A conversion to int64, whose result out of range is up to the platform. */
    method Convert(x: real) returns (n: int)
      ensures FitsInt64(n)
      ensures ToInt64(x).Some? ==> n == ToInt64(x).value
    {
      if ToInt64(x).Some? {
        n := ToInt64(x).value;
      } else {
        n :| FitsInt64(n);
      }
    }

    /** The branch of UnmarshalJSON for numbers. */
    method UnmarshalNumber(x: real) returns (ok: bool)
      modifies this
      ensures ok <==> Decode(x) != RangeError
      ensures !ok ==> time == old(time)
      ensures Decode(x).At? ==> time == Decode(x).time
    {
      hide Round, Parse;
      var parsed := Parse(x);
      if parsed.None? {
        return false;
      }
      var f := parsed.value;
      ok := true;
      var appleMillis := APPLE_EPOCH * 1000;
      if f >= 100_000_000_000.0 {
        var ms := Convert(f);
        var rem := Round(f - ms as real);
        if ms < appleMillis {
          var d := Convert(Round(f * 1_000_000.0));
          time := APPLE_EPOCH * GIGA + d;
          return;
        }
        var d := Convert(Round(rem * 1_000_000.0));
        time := ms * 1_000_000 + d;
        return;
      }
      var sec := Convert(f);
      var frac := Round(f - sec as real);
      var nsec := Convert(Round(frac * 1_000_000_000.0));
      if sec < APPLE_EPOCH {
        var d := Convert(Round(f * 1_000_000_000.0));
        time := APPLE_EPOCH * GIGA + d;
        return;
      }
      time := sec * GIGA + nsec;
    }
  }

  // ---- The encodings of an instant x, in seconds since the Unix epoch ----

  datatype Encoding = UnixSeconds | UnixMillis | AppleSeconds | AppleMillis

  function Encode(e: Encoding, x: real): real {
    match e
    case UnixSeconds => x
    case UnixMillis => x * 1000.0
    case AppleSeconds => x - APPLE_EPOCH as real
    case AppleMillis => (x - APPLE_EPOCH as real) * 1000.0
  }

  /** From March 2004 to the last microsecond of 1 January 2032. */
  predicate Guessable(x: real) {
    1_078_307_200.0 <= x <= 1_956_614_399.999_999
  }

  // ---- Powers of two that bound the numbers involved ----

  lemma Units()
    ensures Pow2(-22) == 1.0 / 4_194_304.0 && Pow2(-12) == 1.0 / 4096.0
    ensures Pow2(-23) == 1.0 / 8_388_608.0 && Pow2(-13) == 1.0 / 8192.0
    ensures Pow2(7) == 128.0 && Pow2(10) == 1024.0
  {
    assert Pow2(-4) == 0.0625;
    assert Pow2(-8) == 1.0 / 256.0;
    assert Pow2(-12) == 1.0 / 4096.0;
    assert Pow2(-16) == 1.0 / 65536.0;
    assert Pow2(-20) == 1.0 / 1_048_576.0;
    assert Pow2(4) == 16.0;
    assert Pow2(8) == 256.0;
  }

  lemma Ranges()
    ensures Times(FULL, Pow2(-22)) == 2_147_483_648.0 && Times(HALF_FULL, Pow2(-22)) == 1_073_741_824.0
    ensures Times(FULL, Pow2(-12)) == 2_199_023_255_552.0 && Times(HALF_FULL, Pow2(-12)) == 1_099_511_627_776.0
    ensures Times(FULL, Pow2(-23)) == 1_073_741_824.0
    ensures Times(FULL, Pow2(-13)) == 1_099_511_627_776.0 && Times(HALF_FULL, Pow2(-13)) == 549_755_813_888.0
    ensures Times(FULL, Pow2(7)) == 1_152_921_504_606_846_976.0
    ensures Times(FULL, Pow2(10)) == 9_223_372_036_854_775_808.0
  {
    Units();
    hide Pow2;
  }

  /** A number of this size parses to the nearest float. */
  lemma ParseIs(x: real)
    requires 0.0 <= x < 9_000_000_000_000_000.0
    ensures Parse(x) == Some(Round(x)) && 0.0 <= Round(x) <= 9_000_000_000_000_000.0
  {
    RoundStays(x, 9_000_000_000_000_000);
    RoundStays(x, 0);
    hide InRange;
    InRangeUpTo(Round(x));
  }

  /** Subtracting the whole part of a float leaves a float. */
  lemma FractionIsExact(f: real, m: int, e: int, k: nat)
    requires f == Times(m as real, Pow2(e)) && Times(k as real, Pow2(e)) == 1.0
    requires MIN_SCALE <= e <= MAX_SCALE && k as real < FULL && f >= 0.0
    ensures Round(f - f.Floor as real) == f - f.Floor as real
  {
    hide Pow2, Times, Round;
    var n := f.Floor;
    TimesInts(n, k, Pow2(e));
    TimesOne(n as real);
    TimesAdd((m - n * k) as real, (n * k) as real, Pow2(e));
    assert (m - n * k) as real + (n * k) as real == m as real;
    var r := m - n * k;
    assert Times(r as real, Pow2(e)) == f - n as real;
    if r < 0 {
      TimesSmall(Pow2(e));
      TimesLess(r as real, 0.0, Pow2(e));
    }
    if r >= k {
      TimesLe(k as real, r as real, Pow2(e));
    }
    RoundExact(f - n as real, r, e);
  }

  lemma TimesOne(a: real)
    ensures Times(a, 1.0) == a
  {
  }

  // ---- What the four branches compute in the window ----

  /** Unix seconds: the number is off by at most 2^-23 seconds, and the rest adds less than two nanoseconds. */
  lemma SecondsPath(x: real)
    requires Guessable(x)
    ensures var f := Round(x);
            var r := (f - f.Floor as real) * 1_000_000_000.0;
            var y := Round(r);
            && x - 1.0 / 8_388_608.0 <= f <= x + 1.0 / 8_388_608.0
            && Decode(x) == At(f.Floor * GIGA + y.Floor)
            && r - 0.000_001 <= y <= r + 0.000_001
            && 0.0 <= y < 1_000_000_001.0
  {
    Units();
    Ranges();
    hide Pow2, Times, Round;
    RoundErr(x, -22);
    ParseIs(x);
    var f := Round(x);
    var m := RoundUnits(x, -22);
    OneInUnits();
    FractionIsExact(f, m, -22, 4_194_304);
    var r := f - f.Floor as real;
    RoundErr(r * 1_000_000_000.0, -22);
  }

  lemma OneInUnits()
    ensures Times(4_194_304.0, Pow2(-22)) == 1.0 && Times(4096.0, Pow2(-12)) == 1.0 && Times(8192.0, Pow2(-13)) == 1.0
  {
    Units();
    hide Pow2;
  }

  lemma MillisPath(x: real)
    requires Guessable(x)
    ensures var f := Round(x * 1000.0);
            var y := Round((f - f.Floor as real) * 1_000_000.0);
            && x * 1000.0 - 1.0 / 8192.0 <= f <= x * 1000.0 + 1.0 / 8192.0
            && Decode(x * 1000.0) == At(f.Floor * 1_000_000 + y.Floor)
            && (f - f.Floor as real) * 1_000_000.0 - 0.000_001 <= y <= (f - f.Floor as real) * 1_000_000.0 + 0.000_001
            && 0.0 <= y < 1_000_001.0
  {
    Units();
    Ranges();
    hide Pow2, Times, Round;
    var v := x * 1000.0;
    ParseIs(v);
    MillisUnits(v);
    var f := Round(v);
    RoundErr((f - f.Floor as real) * 1_000_000.0, -22);
  }

  lemma MillisUnits(v: real)
    requires 1_078_307_200_000.0 <= v < 2_000_000_000_000.0
    ensures v - 1.0 / 8192.0 <= Round(v) <= v + 1.0 / 8192.0
    ensures Round(Round(v) - Round(v).Floor as real) == Round(v) - Round(v).Floor as real
  {
    Units();
    Ranges();
    OneInUnits();
    hide Pow2, Times, Round;
    var f := Round(v);
    RoundErr(v, -12);
    if v < 1_099_511_627_776.0 {
      var m := RoundUnits(v, -13);
      FractionIsExact(f, m, -13, 8192);
    } else {
      var m := RoundUnits(v, -12);
      FractionIsExact(f, m, -12, 4096);
    }
  }

  /** Apple seconds: half a last place for the number, half a last place for its product. */
  lemma AppleSecondsPath(x: real)
    requires Guessable(x)
    ensures var v := x - APPLE_EPOCH as real;
            var y := Round(Round(v) * 1_000_000_000.0);
            && v - 1.0 / 16_777_216.0 <= Round(v) <= v + 1.0 / 16_777_216.0
            && Round(v) * 1_000_000_000.0 - 64.0 <= y <= Round(v) * 1_000_000_000.0 + 64.0
            && Decode(v) == At(APPLE_EPOCH * GIGA + y.Floor) && y >= 0.0
  {
    Units();
    Ranges();
    hide Pow2, Times, Round;
    var v := x - APPLE_EPOCH as real;
    ParseIs(v);
    RoundErr(v, -23);
    RoundErr(Round(v) * 1_000_000_000.0, 7);
  }

  lemma AppleMillisPath(x: real)
    requires Guessable(x)
    ensures var v := (x - APPLE_EPOCH as real) * 1000.0;
            var y := Round(Round(v) * 1_000_000.0);
            && v - 1.0 / 16_384.0 <= Round(v) <= v + 1.0 / 16_384.0
            && Round(v) * 1_000_000.0 - 64.0 <= y <= Round(v) * 1_000_000.0 + 64.0
            && Decode(v) == At(APPLE_EPOCH * GIGA + y.Floor) && y >= 0.0
  {
    Units();
    Ranges();
    hide Pow2, Times, Round;
    var v := (x - APPLE_EPOCH as real) * 1000.0;
    ParseIs(v);
    RoundErr(v, -13);
    RoundStays(v, 100_000_000_000);
    RoundErr(Round(v) * 1_000_000.0, 7);
  }

  // ---- Any instant: off by nanoseconds, never by more than one stored microsecond ----

  /** The instant meant, in nanoseconds. */
  function Nanos(x: real): real {
    x * 1_000_000_000.0
  }

  /** In the window every encoding is understood, to within 127 nanoseconds. */
  lemma EncodingsDecode(e: Encoding, x: real)
    requires Guessable(x)
    ensures Decode(Encode(e, x)).At?
    ensures Nanos(x) - 127.0 <= Decode(Encode(e, x)).time as real <= Nanos(x) + 127.0
  {
    hide Round, Decode;
    match e
    case UnixSeconds => SecondsPath(x);
    case UnixMillis => MillisPath(x);
    case AppleSeconds => AppleSecondsPath(x);
    case AppleMillis => AppleMillisPath(x);
  }

  /** The stored time of `x`, sent in encoding `e`. */
  function Stored(e: Encoding, x: real): int
    requires Guessable(x)
  {
    EncodingsDecode(e, x);
    R.Micros(Decode(Encode(e, x)).time)
  }

  /** Two encodings of one instant are stored at most a microsecond apart. */
  lemma StoredWithinOne(e: Encoding, e': Encoding, x: real)
    requires Guessable(x)
    ensures -1 <= Stored(e, x) - Stored(e', x) <= 1
  {
    hide Decode;
    EncodingsDecode(e, x);
    EncodingsDecode(e', x);
  }

  /** An instant that is not within 127 nanoseconds of the next microsecond is stored alike from every encoding. */
  lemma StoredAlikeInside(e: Encoding, x: real, k: int)
    requires Guessable(x)
    requires (k * 1000) as real + 127.0 <= Nanos(x) <= (k * 1000) as real + 872.0
    ensures Stored(e, x) == k
  {
    hide Decode;
    EncodingsDecode(e, x);
  }

  // ---- Whole microseconds: exactly when nothing is lost ----

  /**
   * Whether a number in encoding `e` keeps the whole microsecond it stands for: for Unix numbers
   * the nearest float must not lie below, for Apple numbers its product must not.
   */
  predicate Kept(e: Encoding, x: real) {
    var n := Encode(e, x);
    match e
    case UnixSeconds => Round(n) >= n
    case UnixMillis => Round(n) >= n
    case AppleSeconds => Round(Round(n) * 1_000_000_000.0) >= n * 1_000_000_000.0
    case AppleMillis => Round(Round(n) * 1_000_000.0) >= n * 1_000_000.0
  }

  /** Between a decimal fraction and a binary one that lies below it there is room. */
  lemma SecondsGap(f: real, m: int, v: real, k: int)
    requires f * 4_194_304.0 == m as real && v * 1_000_000.0 == k as real && f < v
    ensures (v - f) * 1_000_000_000.0 >= 0.000_1
  {
    assert (k * 4_194_304 - m * 1_000_000) as real == (v - f) * 4_194_304_000_000.0;
    assert k * 4_194_304 - m * 1_000_000 >= 1;
  }

  lemma MillisGap(f: real, m: int, v: real, k: int)
    requires f * 8192.0 == m as real && v * 1000.0 == k as real && f < v
    ensures (v - f) * 1_000_000.0 >= 0.000_1
  {
    assert (k * 8192 - m * 1000) as real == (v - f) * 8_192_000.0;
    assert k * 8192 - m * 1000 >= 1;
  }

  /** A fraction, in nanoseconds, does not round across the whole number `n`. */
  lemma FractionKept(r: real, n: int)
    requires 0.0 <= r < 2_000_000_000.0 && (r >= n as real || r <= n as real - 0.000_1)
    requires r - 0.000_001 <= Round(r) <= r + 0.000_001
    ensures Round(r) >= n as real <==> r >= n as real
  {
    hide Round;
    if r >= n as real {
      RoundStays(r, if n >= 0 then n else 0);
    }
  }

  lemma SecondsUnits(x: real) returns (m: int)
    requires Guessable(x)
    ensures Round(x) * 4_194_304.0 == m as real
  {
    Units();
    Ranges();
    hide Pow2, Round;
    m := RoundUnits(x, -22);
  }

  lemma MillisInUnits(v: real) returns (m: int)
    requires 1_078_307_200_000.0 <= v < 2_000_000_000_000.0
    ensures Round(v) * 8192.0 == m as real
  {
    Units();
    Ranges();
    hide Pow2, Round;
    if v < 1_099_511_627_776.0 {
      m := RoundUnits(v, -13);
    } else {
      var h := RoundUnits(v, -12);
      m := 2 * h;
    }
  }

  /** A time reaches a microsecond exactly when its fraction reaches what is missing. */
  lemma Reaches(time: R.Instant, base: int, y: real, k: int)
    requires time == base + y.Floor
    ensures R.Micros(time) >= k <==> y >= (k * 1000 - base) as real
  {
    assert R.Micros(time) >= k <==> time >= k * 1000;
  }

  /** The fraction reaches what is missing exactly when the float reaches the decimal, and else falls clearly short. */
  lemma SecondsRoom(f: real, x: real, m: int, k: int, whole: int)
    requires f * 4_194_304.0 == m as real && x * 1_000_000.0 == k as real
    ensures var r, n := (f - whole as real) * 1_000_000_000.0, (k * 1000 - whole * GIGA) as real;
            (r >= n <==> f >= x) && (r >= n || r <= n - 0.000_1)
  {
    assert (f - whole as real) * 1_000_000_000.0 - (k * 1000 - whole * GIGA) as real == (f - x) * 1_000_000_000.0;
    if f < x { SecondsGap(f, m, x, k); }
  }

  lemma MillisRoom(f: real, v: real, m: int, k: int, whole: int)
    requires f * 8192.0 == m as real && v * 1000.0 == k as real
    ensures var r, n := (f - whole as real) * 1_000_000.0, (k * 1000 - whole * 1_000_000) as real;
            (r >= n <==> f >= v) && (r >= n || r <= n - 0.000_1)
  {
    assert (f - whole as real) * 1_000_000.0 - (k * 1000 - whole * 1_000_000) as real == (f - v) * 1_000_000.0;
    if f < v { MillisGap(f, m, v, k); }
  }

  lemma SecondsKept(x: real, k: int)
    requires Guessable(x) && x * 1_000_000.0 == k as real
    ensures Stored(UnixSeconds, x) >= k <==> Kept(UnixSeconds, x)
  {
    hide Round, Decode, R.Micros;
    SecondsPath(x);
    EncodingsDecode(UnixSeconds, x);
    var m := SecondsUnits(x);
    var f := Round(x);
    var r := (f - f.Floor as real) * 1_000_000_000.0;
    SecondsRoom(f, x, m, k, f.Floor);
    FractionKept(r, k * 1000 - f.Floor * GIGA);
    Reaches(Decode(x).time, f.Floor * GIGA, Round(r), k);
  }

  lemma MillisKept(x: real, k: int)
    requires Guessable(x) && x * 1_000_000.0 == k as real
    ensures Stored(UnixMillis, x) >= k <==> Kept(UnixMillis, x)
  {
    hide Round, Decode, R.Micros;
    MillisPath(x);
    EncodingsDecode(UnixMillis, x);
    var v := x * 1000.0;
    var m := MillisInUnits(v);
    var f := Round(v);
    var r := (f - f.Floor as real) * 1_000_000.0;
    MillisRoom(f, v, m, k, f.Floor);
    FractionKept(r, k * 1000 - f.Floor * 1_000_000);
    Reaches(Decode(v).time, f.Floor * 1_000_000, Round(r), k);
  }

  /**
   * Exactly when a whole microsecond survives its encoding; when it does not, the microsecond
   * before it is stored.
   */
  lemma WholeMicroseconds(e: Encoding, x: real, k: int)
    requires Guessable(x) && x * 1_000_000.0 == k as real
    ensures Stored(e, x) == if Kept(e, x) then k else k - 1
  {
    hide Round, Decode;
    EncodingsDecode(e, x);
    match e
    case UnixSeconds => SecondsKept(x, k);
    case UnixMillis => MillisKept(x, k);
    case AppleSeconds =>
      AppleSecondsPath(x);
      assert Encode(e, x) * 1_000_000_000.0 == (k * 1000 - APPLE_EPOCH * GIGA) as real;
    case AppleMillis =>
      AppleMillisPath(x);
      assert Encode(e, x) * 1_000_000.0 == (k * 1000 - APPLE_EPOCH * GIGA) as real;
  }

  /** A whole millisecond in Unix milliseconds is a float, so nothing is lost. */
  lemma MillisAreKept(x: real, n: nat)
    requires Guessable(x) && x * 1000.0 == n as real
    ensures Kept(UnixMillis, x)
  {
    hide Round;
    RoundNat(n);
  }

  // ---- Does the outcome depend on the encoding? ----

  function TimeOf(e: Encoding, x: real): R.Instant
    requires Guessable(x)
  {
    EncodingsDecode(e, x);
    Decode(Encode(e, x)).time
  }

  /**
   * Saves and decisions on opening a book ignore which of two encodings a client sends a whole
   * microsecond in, exactly when both keep it or both lose it.
   */
  lemma OutcomeIgnoresEncoding(e: Encoding, e': Encoding, x: real, k: int)
    requires Guessable(x) && x * 1_000_000.0 == k as real
    ensures R.SameOutcomes(TimeOf(e, x), TimeOf(e', x)) <==> (Kept(e, x) <==> Kept(e', x))
  {
    hide Decode, Kept, R.SameOutcomes;
    EncodingsDecode(e, x);
    EncodingsDecode(e', x);
    WholeMicroseconds(e, x, k);
    WholeMicroseconds(e', x, k);
    R.OnlyMicrosCount(TimeOf(e, x), TimeOf(e', x));
  }

  /** Away from the microsecond boundaries they always do. */
  lemma OutcomeIgnoresEncodingInside(e: Encoding, e': Encoding, x: real, k: int)
    requires Guessable(x)
    requires (k * 1000) as real + 127.0 <= Nanos(x) <= (k * 1000) as real + 872.0
    ensures R.SameOutcomes(TimeOf(e, x), TimeOf(e', x))
  {
    hide Decode, R.SameOutcomes;
    EncodingsDecode(e, x);
    EncodingsDecode(e', x);
    StoredAlikeInside(e, x, k);
    StoredAlikeInside(e', x, k);
    R.OnlyMicrosCount(TimeOf(e, x), TimeOf(e', x));
  }

  const TENTH_PAST := 1_700_000_000.1

  /** The float nearest to 1700000000.1 lies below it. */
  lemma TenthIsLost()
    ensures Guessable(TENTH_PAST) && !Kept(UnixSeconds, TENTH_PAST) && Kept(UnixMillis, TENTH_PAST)
  {
    MillisAreKept(TENTH_PAST, 1_700_000_000_100);
    TenthRounds();
  }

  lemma TenthRounds()
    ensures Round(TENTH_PAST) == 7_130_316_800_419_430.0 / 4_194_304.0
  {
    Units();
    Ranges();
    hide Pow2, Round;
    var m := RoundUnits(TENTH_PAST, -22);
    RoundErr(TENTH_PAST, -22);
    assert Round(TENTH_PAST) * 4_194_304.0 == m as real;
    assert m == 7_130_316_800_419_430;
  }

  /**
   * A save at a tenth of a second past a whole second: against a row stored at that very instant,
   * Unix milliseconds are applied and Unix seconds are stale, and the device is told to use its own
   * position or to give it up.
   */
  lemma EncodingMatters(user: R.User, book: R.Book, p: R.Position, q: R.Position)
    requires R.ValidSave(R.Save(user, book, p, 0)) && p != q
    ensures Guessable(TENTH_PAST)
    ensures var table: R.Table := map[(user, book) := R.Row(q, 1_700_000_000_100_000)];
            var seconds, millis := TimeOf(UnixSeconds, TENTH_PAST), TimeOf(UnixMillis, TENTH_PAST);
            && R.After(table, R.Save(user, book, p, millis)) != table
            && R.After(table, R.Save(user, book, p, seconds)) == table
            && R.Resolve(table, user, book, Some(millis)) == R.Ok(R.UseLocal)
            && R.Resolve(table, user, book, Some(seconds)).value.UseRemote?
  {
    hide Decode, Kept;
    TenthIsLost();
    var k := 1_700_000_000_100_000;
    EncodingsDecode(UnixSeconds, TENTH_PAST);
    EncodingsDecode(UnixMillis, TENTH_PAST);
    WholeMicroseconds(UnixSeconds, TENTH_PAST, k);
    WholeMicroseconds(UnixMillis, TENTH_PAST, k);
    var w := R.Save(user, book, p, TimeOf(UnixMillis, TENTH_PAST));
    assert R.RowOf(w).position == p;
  }

  // ---- Whole seconds ----

  /** `n` is a float. */
  predicate Exact(n: int) {
    Round(n as real) == n as real
  }

  /** What is added to Apple's epoch is right exactly when it fits and is a float. */
  lemma ShiftExactly(base: R.Instant, n: int)
    ensures Shift(base, Round(n as real)) == At(base + n) <==> FitsInt64(n) && Exact(n)
  {
    hide Round;
    if n as real >= FULL {
      var m := RoundBig(n as real);
    } else if n as real <= -FULL {
      var m := RoundBig((-n) as real);
      RoundNegative((-n) as real);
      assert n as real == -((-n) as real);
    } else {
      RoundInt(n);
    }
  }

  /** And it is never far off. */
  lemma ShiftIsNear(base: R.Instant, n: int)
    ensures var r := Shift(base, Round(n as real)); r.At? ==> base + n - 1025 <= r.time <= base + n + 1025
  {
    hide Round;
    var r := Shift(base, Round(n as real));
    if n >= 0 {
      NearPositive(n);
    } else {
      NearPositive(-n);
      RoundNegative((-n) as real);
      assert n as real == -((-n) as real);
    }
  }

  lemma NearPositive(n: nat)
    ensures Round(n as real) >= 0.0
    ensures Round(n as real) < 9_223_372_036_854_775_809.0 ==>
              n as real - 1024.0 <= Round(n as real) <= n as real + 1024.0
  {
    Units();
    Ranges();
    assert Pow2(11) == 2.0 * Pow2(10);
    TimesSmall(Pow2(10));
    hide Round, Pow2, Times;
    if n == 0 {
      RoundNat(0);
    } else {
      RoundRatio(n as real);
      if (n as real) < 18_446_744_073_709_551_616.0 { RoundErr(n as real, 11); }
    }
  }

  lemma ParseInt(n: int)
    requires -FULL < n as real < FULL
    ensures Parse(n as real) == Some(n as real)
  {
    hide Round;
    RoundInt(n);
    hide InRange;
    InRangeUpTo(n as real);
  }

  lemma WholeFloat(f: real, n: int)
    requires f == n as real && FitsInt64(n)
    ensures ToInt64(f) == Some(n) && Round(f - n as real) == 0.0
    ensures forall base: R.Instant, k: real :: k == 0.0 ==> Shift(base, Round(k)) == At(base)
  {
    RoundInt(0);
    hide Round;
    assert f - n as real == 0.0;
  }

  lemma WholeProducts(f: real, n: int)
    requires f == n as real
    ensures f * 1_000_000.0 == (n * 1_000_000) as real && f * 1_000_000_000.0 == (n * GIGA) as real
  {
  }

  lemma DecodeWhole(f: real, n: int)
    requires f == n as real && FitsInt64(n)
    ensures DecodeFloat(f) ==
              if n >= 100_000_000_000 then
                if n < APPLE_EPOCH * 1000 then Shift(APPLE_EPOCH * GIGA, Round((n * 1_000_000) as real))
                else At(n * 1_000_000)
              else if n < APPLE_EPOCH then Shift(APPLE_EPOCH * GIGA, Round((n * GIGA) as real))
              else At(n * GIGA)
  {
    hide Round, ToInt64, Shift;
    WholeFloat(f, n);
    WholeProducts(f, n);
  }

  /** The decoder on whole numbers that are floats. */
  lemma DecodeInt(n: int)
    requires -FULL < n as real < FULL
    ensures Decode(n as real) ==
              if n >= 100_000_000_000 then
                if n < APPLE_EPOCH * 1000 then Shift(APPLE_EPOCH * GIGA, Round((n * 1_000_000) as real))
                else At(n * 1_000_000)
              else if n < APPLE_EPOCH then Shift(APPLE_EPOCH * GIGA, Round((n * GIGA) as real))
              else At(n * GIGA)
  {
    hide Round, DecodeFloat, Shift;
    ParseInt(n);
    DecodeWhole(n as real, n);
  }

  /** Beyond that, a positive number counts as milliseconds and a negative one is out of range. */
  lemma DecodeHuge(n: int) returns (f: nat)
    requires n as real >= FULL || n as real <= -FULL
    ensures n as real <= -FULL ==> !Decode(n as real).At?
    ensures n as real >= FULL ==> Round(n as real) == f as real && 3 * n <= 4 * f <= 5 * n
    ensures n as real >= FULL && FitsInt64(f) ==> Decode(n as real) == At(f * 1_000_000)
    ensures n as real >= FULL && !FitsInt64(f) ==> !Decode(n as real).At?
  {
    if n as real >= FULL {
      f := RoundBig(n as real);
      RoundRatio(n as real);
      HugeMillis(n as real, f);
    } else {
      f := 0;
      HugeNegative(n);
    }
  }

  lemma HugeMillis(x: real, f: nat)
    requires Round(x) == f as real && f as real >= 0.75 * FULL
    ensures FitsInt64(f) ==> Decode(x) == At(f * 1_000_000)
    ensures !FitsInt64(f) ==> !Decode(x).At?
  {
    hide Round, Shift, InRange;
    if FitsInt64(f) {
      InRangeUpTo(f as real);
      DecodeWhole(f as real, f);
    }
  }

  lemma HugeNegative(n: int)
    requires n as real <= -FULL
    ensures !Decode(n as real).At?
  {
    hide Round;
    var m := (-n) as real;
    RoundRatio(m);
    RoundNegative(m);
    assert n as real == -m;
    RoundRatio(Round(m) * 1_000_000_000.0);
    RoundNegative(Round(m) * 1_000_000_000.0);
    assert Round(n as real) * 1_000_000_000.0 == -(Round(m) * 1_000_000_000.0);
  }

  /** When one encoding of a whole second decodes to that second. */
  predicate Decodes(e: Encoding, s: int) {
    Decode(Encode(e, s as real)) == At(s * GIGA)
  }

  /** The whole number that encodes a whole second. */
  function Sent(e: Encoding, s: int): int {
    match e
    case UnixSeconds => s
    case UnixMillis => s * 1000
    case AppleSeconds => s - APPLE_EPOCH
    case AppleMillis => (s - APPLE_EPOCH) * 1000
  }

  lemma SentIs(e: Encoding, s: int)
    ensures Encode(e, s as real) == Sent(e, s) as real
  {
  }

  /** Exactly when the guess is right and nothing overflows or rounds, encoding by encoding. */
  ghost predicate Right(e: Encoding, s: int) {
    match e
    case UnixSeconds => APPLE_EPOCH <= s < 100_000_000_000
    case UnixMillis => APPLE_EPOCH <= s && FitsInt64(s * 1000) && Exact(s * 1000)
    case AppleSeconds => s < 2 * APPLE_EPOCH && FitsInt64((s - APPLE_EPOCH) * GIGA) && Exact((s - APPLE_EPOCH) * GIGA)
    case AppleMillis => s == APPLE_EPOCH || 1_078_307_200 <= s < 2 * APPLE_EPOCH
  }

  lemma DecodesExactly(e: Encoding, s: int)
    ensures Decodes(e, s) <==> Right(e, s)
  {
    hide Round, Decode, Shift;
    SentIs(e, s);
    if -FULL < Sent(e, s) as real < FULL {
      DecodesInRange(e, s);
    } else {
      DecodesBeyond(e, s);
    }
  }

  lemma UnixSecondsInRange(s: int)
    requires -FULL < Sent(UnixSeconds, s) as real < FULL
    ensures Decodes(UnixSeconds, s) <==> Right(UnixSeconds, s)
  {
    hide Round, Decode, Shift;
    var n := Sent(UnixSeconds, s);
    SentIs(UnixSeconds, s);
    DecodeInt(n);
    ShiftIsNear(APPLE_EPOCH * GIGA, n * 1_000_000);
    ShiftIsNear(APPLE_EPOCH * GIGA, n * GIGA);
  }

  lemma UnixMillisInRange(s: int)
    requires -FULL < Sent(UnixMillis, s) as real < FULL
    ensures Decodes(UnixMillis, s) <==> Right(UnixMillis, s)
  {
    hide Round, Decode, Shift;
    var n := Sent(UnixMillis, s);
    SentIs(UnixMillis, s);
    DecodeInt(n);
    ShiftIsNear(APPLE_EPOCH * GIGA, n * 1_000_000);
    ShiftIsNear(APPLE_EPOCH * GIGA, n * GIGA);
    RoundInt(n);
  }

  lemma AppleSecondsInRange(s: int)
    requires -FULL < Sent(AppleSeconds, s) as real < FULL
    ensures Decodes(AppleSeconds, s) <==> Right(AppleSeconds, s)
  {
    hide Round, Decode, Shift;
    var n := Sent(AppleSeconds, s);
    SentIs(AppleSeconds, s);
    DecodeInt(n);
    ShiftIsNear(APPLE_EPOCH * GIGA, n * 1_000_000);
    ShiftIsNear(APPLE_EPOCH * GIGA, n * GIGA);
    ShiftExactly(APPLE_EPOCH * GIGA, n * GIGA);
  }

  lemma AppleMillisInRange(s: int)
    requires -FULL < Sent(AppleMillis, s) as real < FULL
    ensures Decodes(AppleMillis, s) <==> Right(AppleMillis, s)
  {
    hide Round, Decode, Shift;
    var n := Sent(AppleMillis, s);
    SentIs(AppleMillis, s);
    DecodeInt(n);
    ShiftIsNear(APPLE_EPOCH * GIGA, n * 1_000_000);
    ShiftIsNear(APPLE_EPOCH * GIGA, n * GIGA);
    ShiftExactly(APPLE_EPOCH * GIGA, n * 1_000_000);
    ShiftExactly(APPLE_EPOCH * GIGA, n * GIGA);
    RoundInt(0);
    if 1_078_307_200 <= s < 2 * APPLE_EPOCH { ProductIsExact(n); }
  }

  lemma DecodesInRange(e: Encoding, s: int)
    requires -FULL < Sent(e, s) as real < FULL
    ensures Decodes(e, s) <==> Right(e, s)
  {
    hide Decodes, Right;
    match e
    case UnixSeconds => UnixSecondsInRange(s);
    case UnixMillis => UnixMillisInRange(s);
    case AppleSeconds => AppleSecondsInRange(s);
    case AppleMillis => AppleMillisInRange(s);
  }

  /** Whole Apple milliseconds of a whole second: 53 bits hold the product. */
  lemma ProductIsExact(n: int)
    requires 0 <= n < APPLE_EPOCH * 1000 && n % 1000 == 0
    ensures Exact(n * 1_000_000)
  {
    assert Pow2(9) == 512.0;
    hide Pow2, Times, Round;
    var m := n / 1000 * 1_953_125;
    TimesUnits(m);
    RoundExact((n * 1_000_000) as real, m, 9);
  }

  lemma TimesUnits(m: int)
    requires Pow2(9) == 512.0
    ensures Times(m as real, Pow2(9)) == (m * 512) as real
  {
  }

  lemma DecodesBeyond(e: Encoding, s: int)
    requires Sent(e, s) as real >= FULL || Sent(e, s) as real <= -FULL
    ensures Decodes(e, s) <==> Right(e, s)
  {
    hide Round, Decode, Shift;
    var n := Sent(e, s);
    SentIs(e, s);
    var f := DecodeHuge(n);
    if n as real >= FULL {
      NearPositive(n);
      assert Exact(n) <==> f == n;
    }
  }

  lemma AllRight(s: int)
    ensures Right(UnixSeconds, s) && Right(UnixMillis, s) && Right(AppleSeconds, s) && Right(AppleMillis, s) <==>
              s == APPLE_EPOCH || 1_078_307_200 <= s < 1_956_614_400
  {
    hide Round;
    if APPLE_EPOCH <= s < 2 * APPLE_EPOCH {
      RoundInt(s * 1000);
      ProductIsExact((s - APPLE_EPOCH) * 1000);
    }
  }

  /** All four encodings of a whole second are right exactly in the stated window, and at Apple's epoch itself. */
  lemma AllEncodingsDecodeExactly(s: int)
    ensures (forall e :: Decodes(e, s)) <==> s == APPLE_EPOCH || 1_078_307_200 <= s < 1_956_614_400
  {
    hide Decodes, Right;
    forall e
      ensures Decodes(e, s) <==> Right(e, s)
    {
      DecodesExactly(e, s);
    }
    AllRight(s);
    if Right(UnixSeconds, s) && Right(UnixMillis, s) && Right(AppleSeconds, s) && Right(AppleMillis, s) {
      forall e
        ensures Decodes(e, s)
      {
        match e {
          case UnixSeconds =>
          case UnixMillis =>
          case AppleSeconds =>
          case AppleMillis =>
        }
      }
    }
  }

  /** There neither a save nor a decision depends on the encoding of a whole second. */
  lemma WholeSecondsIgnoreEncoding(e: Encoding, e': Encoding, s: int)
    requires 1_078_307_200 <= s < 1_956_614_400
    ensures Decode(Encode(e, s as real)) == Decode(Encode(e', s as real)) == At(s * GIGA)
  {
    AllEncodingsDecodeExactly(s);
    assert Decodes(e, s) && Decodes(e', s);
  }

  /**
   * Apple seconds before the reference date: right back to 1855, for even numbers of seconds back
   * to 1708, and out of the range of a duration before that.
   */
  lemma AppleSecondsExactly(s: int)
    ensures var n := s - APPLE_EPOCH;
            Decodes(AppleSeconds, s) <==>
              n < APPLE_EPOCH && (n >= -4_611_686_018 || (n >= -9_223_372_036 && n % 2 == 0))
  {
    hide Decodes, Round;
    DecodesExactly(AppleSeconds, s);
    var n := s - APPLE_EPOCH;
    if 0 <= n < APPLE_EPOCH {
      ProductIsExact(n * 1000);
    } else if -9_223_372_036 <= n < 0 {
      NanosAreExact(-n);
      RoundNegative((-n * GIGA) as real);
      assert (n * GIGA) as real == -((-n * GIGA) as real);
    }
  }

  lemma NanosAreExact(n: int)
    requires 0 < n <= 9_223_372_036
    ensures Exact(n * GIGA) <==> n <= 4_611_686_018 || n % 2 == 0
  {
    assert Pow2(9) == 512.0 && Pow2(10) == 1024.0;
    hide Pow2, Times, Round;
    if n <= 4_611_686_018 {
      TimesUnits(n * 1_953_125);
      RoundExact((n * GIGA) as real, n * 1_953_125, 9);
    } else if n % 2 == 0 {
      TimesKilo(n / 2 * 1_953_125);
      RoundExact((n * GIGA) as real, n / 2 * 1_953_125, 10);
    } else {
      OddIsLost(n);
    }
  }

  lemma OddIsLost(n: int)
    requires 4_611_686_018 < n <= 9_223_372_036 && n % 2 == 1
    ensures !Exact(n * GIGA)
  {
    Units();
    Ranges();
    TimesSmall(Pow2(10));
    hide Pow2, Times, Round;
    var m := RoundUnits((n * GIGA) as real, 10);
    TimesKilo(m);
    assert Exact(n * GIGA) ==> m * 1024 == n * 1_953_125 * 512;
  }

  lemma TimesKilo(m: int)
    requires Pow2(10) == 1024.0
    ensures Times(m as real, Pow2(10)) == (m * 1024) as real
  {
  }
}
