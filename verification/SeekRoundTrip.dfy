/** What the seek command accepts, where the rewind and forward buttons land, and
    when the byte position that a seek sets is the one meant. */
module SeekRoundTrip {
  import opened MachineWords
  import opened Decimal
  import opened SeekTimestamp

  // ------------------------------------------------------------------- grammar

  /** The tokens of a timestamp with these parts. */
  function TokensFor(parts: seq<string>, fraction: Fraction): (ts: seq<Token>)
    requires parts != []
    ensures |ts| == |parts| + if fraction.Fraction? then 1 else 0
    ensures forall i | 0 <= i < |parts| - 1 :: ts[i] == Token(parts[i], At(':'))
    ensures ts[|parts| - 1] == Token(parts[|parts| - 1], if fraction.Fraction? then At('.') else End)
    ensures fraction.Fraction? ==> ts[|parts|] == Token(fraction.digits, End)
  {
    if |parts| > 1 then [Token(parts[0], At(':'))] + TokensFor(parts[1..], fraction)
    else if fraction.Fraction? then [Token(parts[0], At('.')), Token(fraction.digits, End)]
    else [Token(parts[0], End)]
  }

  function Tail(fraction: Fraction): string {
    if fraction.Fraction? then "." + fraction.digits else ""
  }

  lemma UntokensCons(part: string, rest: seq<Token>)
    ensures Untokens([Token(part, At(':'))] + rest) == part + ":" + Untokens(rest)
  {
    assert ([Token(part, At(':'))] + rest)[1..] == rest;
  }

  lemma JoinedTail(parts: seq<string>, tail: string)
    requires |parts| > 1
    ensures parts[0] + ":" + (Joined(parts[1..]) + tail) == Joined(parts) + tail
  {
    var head, rest := parts[0] + ":", Joined(parts[1..]);
    assert head + (rest + tail) == head + rest + tail;
  }

  lemma {:induction false} UntokensFor(parts: seq<string>, fraction: Fraction)
    requires parts != []
    ensures Untokens(TokensFor(parts, fraction)) == Joined(parts) + Tail(fraction)
  {
    if |parts| > 1 {
      UntokensFor(parts[1..], fraction);
      UntokensCons(parts[0], TokensFor(parts[1..], fraction));
      JoinedTail(parts, Tail(fraction));
    } else {
      UntokensForLast(parts[0], fraction);
      assert parts == [parts[0]];
    }
  }

  lemma UntokensForLast(part: string, fraction: Fraction)
    ensures Untokens(TokensFor([part], fraction)) == Joined([part]) + Tail(fraction)
  {
    var ts := TokensFor([part], fraction);
    if fraction.Fraction? {
      var last := [Token(fraction.digits, End)];
      assert ts[1..] == last && last[1..] == [];
      assert Untokens(last) == fraction.digits + "" + "" == fraction.digits;
      assert part + "." + fraction.digits == part + ("." + fraction.digits);
    } else {
      assert ts[1..] == [] && part + "" + "" == part;
    }
  }

  ghost predicate AreParts(parts: seq<string>, fraction: Fraction) {
    && 1 <= |parts| <= 3
    && (forall i | 0 <= i < |parts| :: IsNumeral(parts[i]))
    && (fraction.Fraction? ==> IsNumeral(fraction.digits))
  }

  lemma {:induction false} WellFormedFor(parts: seq<string>, fraction: Fraction)
    requires AreParts(parts, fraction)
    ensures WellFormed(TokensFor(parts, fraction))
  {
    CharClasses('.');
    if |parts| > 1 {
      WellFormedFor(parts[1..], fraction);
      WellFormedCons(Token(parts[0], At(':')), TokensFor(parts[1..], fraction));
    }
  }

  lemma AcceptedFor(parts: seq<string>, fraction: Fraction)
    requires AreParts(parts, fraction)
    ensures Accepted(TokensFor(parts, fraction))
    ensures HasFraction(TokensFor(parts, fraction)) <==> fraction.Fraction?
    ensures DigitsOf(TokensFor(parts, fraction)) == parts + if fraction.Fraction? then [fraction.digits] else []
  {
  }

  /** A timestamp's tokens are those of its parts. */
  lemma TimestampTokens(str: string, parts: seq<string>, fraction: Fraction)
    requires IsTimestamp(str, parts, fraction)
    ensures AreParts(parts, fraction) && Tokens(str) == TokensFor(parts, fraction)
  {
    UntokensFor(parts, fraction);
    WellFormedFor(parts, fraction);
    TokensOfUntokens(TokensFor(parts, fraction));
  }

  /** An accepted token sequence is that of some parts. */
  lemma AcceptedHasParts(ts: seq<Token>) returns (parts: seq<string>, fraction: Fraction)
    requires WellFormed(ts) && Accepted(ts)
    ensures AreParts(parts, fraction) && ts == TokensFor(parts, fraction)
  {
    var k := if HasFraction(ts) then |ts| - 1 else |ts|;
    parts := DigitsOf(ts)[..k];
    fraction := if HasFraction(ts) then Fraction(ts[k].digits) else NoFraction;
    forall i | 0 <= i < |ts| ensures ts[i] == TokensFor(parts, fraction)[i] {
      if i < k - 1 {
        assert parts[i] == ts[i].digits && ts[i].stop == At(':');
      } else if i == k - 1 {
        assert parts[i] == ts[i].digits;
      }
    }
  }

  lemma AcceptedIsTimestamp(str: string) returns (parts: seq<string>, fraction: Fraction)
    requires Accepted(Tokens(str))
    ensures IsTimestamp(str, parts, fraction)
  {
    TokensAreWellFormed(str);
    UntokensOfTokens(str);
    parts, fraction := AcceptedHasParts(Tokens(str));
    UntokensFor(parts, fraction);
  }

  /** The parser accepts exactly the timestamps of 1 to 14 characters. */
  lemma AcceptsExactly(str: string)
    ensures Parsed(str).valid
       <==> 1 <= |str| <= 14 && exists parts, fraction :: IsTimestamp(str, parts, fraction)
  {
    if Accepted(Tokens(str)) {
      var parts, fraction := AcceptedIsTimestamp(str);
    }
    forall parts, fraction | IsTimestamp(str, parts, fraction) ensures Accepted(Tokens(str)) {
      TimestampTokens(str, parts, fraction);
      AcceptedFor(parts, fraction);
    }
  }

  /** The parts as numbers: the last is the second, the one before it the minute, the
      one before that the hour. */
  function Numbers(parts: seq<string>, fraction: Fraction): ArgTo
    requires AreParts(parts, fraction)
  {
    ArgTo(if |parts| == 3 then Value(parts[0]) else 0,
          if |parts| >= 2 then Value(parts[|parts| - 2]) else 0,
          Value(parts[|parts| - 1]),
          if fraction.Fraction? then Value(fraction.digits) else 0,
          true)
  }

  /** And it reads them as the numbers that their parts denote. */
  lemma ReadsEveryPart(str: string, parts: seq<string>, fraction: Fraction)
    requires 1 <= |str| <= 14 && IsTimestamp(str, parts, fraction)
    ensures AreParts(parts, fraction) && Parsed(str) == Numbers(parts, fraction)
  {
    TimestampTokens(str, parts, fraction);
    AcceptedFor(parts, fraction);
    DenotedIsNumbers(parts, fraction);
  }

  lemma DenotedIsNumbers(parts: seq<string>, fraction: Fraction)
    requires AreParts(parts, fraction)
    ensures var fields := parts + if fraction.Fraction? then [fraction.digits] else [];
            && (forall i | 0 <= i < |fields| :: AllDigits(fields[i]))
            && Denoted(fields, fraction.Fraction?) == Numbers(parts, fraction)
  {
    var fields := parts + if fraction.Fraction? then [fraction.digits] else [];
    assert |parts| >= 2 ==> fields[|parts| - 2] == parts[|parts| - 2];
  }

  // ------------------------------------------------------- durations as timestamps

  /** A number with a zero in front of a single digit. */
  function Padded(n: nat): string {
    var s := ToString(n);
    (if |s| < 2 then "0" else "") + s
  }

  /** An hour, unless it is zero, a minute and a second. */
  function Clock(hour: nat, minute: nat, second: nat): string {
    (if hour != 0 then Padded(hour) + ":" else "") + Padded(minute) + ":" + Padded(second)
  }

  /** `format_duration` */
  function FormatDuration(dur: nat): string {
    Clock(dur / 1000 / 60 / 60, dur / 1000 / 60 % 60, dur / 1000 % 60)
  }

  lemma PaddedIs(n: nat, k: nat)
    requires k >= 2
    ensures IsNumeral(Padded(n)) && Value(Padded(n)) == n
    ensures |Padded(n)| >= 2 && (|Padded(n)| <= k <==> n < Pow10(k))
  {
    var s := ToString(n);
    ValueOfToString(n);
    LengthExactly(n, k);
    LengthExactly(n, 1);
    assert Pow10(1) == 10;
    if n < 10 {
      ValueOfLeadingZero(s);
      assert Padded(n) == "0" + s;
      LengthExactly(n, k - 1);
      Pow10Grows(2, k);
      assert Pow10(2) == 100;
    } else {
      assert Padded(n) == s;
    }
  }

  function ClockParts(hour: nat, minute: nat, second: nat): seq<string> {
    (if hour != 0 then [Padded(hour)] else []) + [Padded(minute), Padded(second)]
  }

  lemma JoinedCons(part: string, rest: seq<string>)
    requires rest != []
    ensures Joined([part] + rest) == part + ":" + Joined(rest)
  {
    assert ([part] + rest)[1..] == rest;
  }

  lemma JoinedThree(hour: string, minute: string, second: string)
    ensures Joined([minute, second]) == minute + ":" + second
    ensures Joined([hour, minute, second]) == hour + ":" + minute + ":" + second
  {
    JoinedCons(minute, [second]);
    JoinedCons(hour, [minute, second]);
    assert [hour] + [minute, second] == [hour, minute, second] && [minute] + [second] == [minute, second];
  }

  lemma PartsAreJoined(shown: bool, hour: string, minute: string, second: string)
    ensures (if shown then hour + ":" else "") + minute + ":" + second
         == Joined((if shown then [hour] else []) + [minute, second])
  {
    JoinedThree(hour, minute, second);
    if shown {
      assert [hour] + [minute, second] == [hour, minute, second];
    } else {
      assert [] + [minute, second] == [minute, second];
    }
  }

  lemma ClockIsJoined(hour: nat, minute: nat, second: nat)
    ensures Clock(hour, minute, second) == Joined(ClockParts(hour, minute, second))
  {
    PartsAreJoined(hour != 0, Padded(hour), Padded(minute), Padded(second));
  }

  /** A clock parses exactly below ten to the eighth hours, and then to itself. */
  lemma ClockParses(hour: nat, minute: nat, second: nat)
    requires minute < 60 && second < 60
    ensures var parsed := Parsed(Clock(hour, minute, second));
            && (parsed.valid <==> hour < 1_0000_0000)
            && (parsed.valid ==> parsed == ArgTo(hour, minute, second, 0, true))
  {
    var str, parts := Clock(hour, minute, second), ClockParts(hour, minute, second);
    PaddedIs(hour, 8);
    PaddedIs(minute, 2);
    PaddedIs(second, 2);
    assert Pow10(2) == 100;
    assert Pow10(8) == 1_0000_0000 by { assert Pow10(4) == 10_000; }
    ClockIsJoined(hour, minute, second);
    assert IsTimestamp(str, parts, NoFraction) by {
      assert str == Joined(parts) + "";
    }
    assert |str| == 5 + if hour != 0 then |Padded(hour)| + 1 else 0;
    AcceptsExactly(str);
    if |str| <= 14 {
      ReadsEveryPart(str, parts, NoFraction);
    }
  }

  /** The milliseconds that a result means. */
  function Meant(a: ArgTo): int {
    a.hour * 3_600_000 + a.minute * 60_000 + a.second * 1000 + a.ms
  }

  /** A printed duration is accepted exactly below ten to the eighth hours, and then
      means the duration in whole seconds. */
  lemma DurationRoundTrip(dur: nat)
    ensures var parsed := Parsed(FormatDuration(dur));
            && (parsed.valid <==> dur < 1_0000_0000 * 3_600_000)
            && (parsed.valid ==> Meant(parsed) == dur / 1000 * 1000)
  {
    ClockParses(dur / 1000 / 60 / 60, dur / 1000 / 60 % 60, dur / 1000 % 60);
  }

  /** The string names a position less than a second below the target, and it is
      accepted exactly below ten to the eighth hours. */
  predicate Lands(str: string, target: int) {
    var parsed := Parsed(str);
    && (parsed.valid <==> target < 1_0000_0000 * 3_600_000)
    && (parsed.valid ==> target - 1000 < Meant(parsed) <= target)
  }

  lemma FormatLands(dur: nat)
    ensures Lands(FormatDuration(dur), dur)
  {
    DurationRoundTrip(dur);
  }

  const SEEK_STEP_MS := 15_000

  /** `get_to_ms_rewind` */
  function ToMsRewind(currentMs: int): string {
    if currentMs < SEEK_STEP_MS then "0" else FormatDuration(currentMs - SEEK_STEP_MS)
  }

  /** `get_to_ms_forward`, in the arithmetic of `uint64_t`. */
  function ToMsForward(currentMs: int): string {
    FormatDuration((currentMs + SEEK_STEP_MS) % TWO_64)
  }

  /** The rewind button goes a step back, or to the start. */
  lemma RewindLands(currentMs: int, target: nat)
    requires target == if currentMs < SEEK_STEP_MS then 0 else currentMs - SEEK_STEP_MS
    ensures Lands(ToMsRewind(currentMs), target)
  {
    if currentMs < SEEK_STEP_MS {
      ZeroIsTheStart(ToMsRewind(currentMs));
    } else {
      FormatLands(target);
    }
  }

  lemma ZeroIsTheStart(str: string)
    requires str == "0"
    ensures Lands(str, 0)
  {
    assert str == Joined([str]) + "";
    assert IsTimestamp(str, [str], NoFraction);
    ReadsEveryPart(str, [str], NoFraction);
    assert Value(str) == 10 * Value("") + DigitValue('0') by { assert str[..0] == ""; }
  }

  /** From more than a step before the start the unsigned sum wraps around, and the
      string is refused. */
  lemma ForwardWraps(currentMs: int, dur: nat)
    requires -TWO_63 <= currentMs < -SEEK_STEP_MS && dur == currentMs + SEEK_STEP_MS + TWO_64
    ensures !Parsed(ToMsForward(currentMs)).valid
  {
    assert (currentMs + SEEK_STEP_MS) % TWO_64 == dur;
    DurationRoundTrip(dur);
  }

  /** The forward button goes a step on, from any position of an `int64_t`: the
      string is accepted exactly when the target is neither before the start nor
      ten to the eighth hours on, and then it lands. */
  lemma ForwardLands(currentMs: int, target: int)
    requires -TWO_63 <= currentMs < TWO_63 && target == currentMs + SEEK_STEP_MS
    ensures var parsed := Parsed(ToMsForward(currentMs));
            && (parsed.valid <==> 0 <= target < 1_0000_0000 * 3_600_000)
            && (parsed.valid ==> target - 1000 < Meant(parsed) <= target)
  {
    if target < 0 {
      ForwardWraps(currentMs, target + TWO_64);
    } else {
      assert (currentMs + SEEK_STEP_MS) % TWO_64 == target;
      FormatLands(target);
    }
  }

  /** A printed duration shows the hour only from the first hour on, and every number
      with at least two digits. */
  lemma FormatShape(dur: nat)
    ensures |FormatDuration(dur)| == 5 <==> dur < 3_600_000
    ensures dur < 360_000_000 ==> |FormatDuration(dur)| == if dur < 3_600_000 then 5 else 8
  {
    var hour, minute, second := dur / 1000 / 60 / 60, dur / 1000 / 60 % 60, dur / 1000 % 60;
    ClockShape(hour, minute, second);
  }

  lemma ClockShape(hour: nat, minute: nat, second: nat)
    requires minute < 60 && second < 60
    ensures |Clock(hour, minute, second)| == 5 <==> hour == 0
    ensures hour < 100 ==> |Clock(hour, minute, second)| == if hour == 0 then 5 else 8
  {
    PaddedIs(hour, 2);
    PaddedIs(minute, 2);
    PaddedIs(second, 2);
    assert Pow10(2) == 100;
  }

  // ------------------------------------------------------------------- fractions

  /** The digits behind the dot count milliseconds. */
  lemma FractionIsMilliseconds(parts: seq<string>, digits: string)
    requires AreParts(parts, Fraction(digits))
    ensures Meant(Numbers(parts, Fraction(digits))) == Meant(Numbers(parts, NoFraction)) + Value(digits)
  {
  }

  /** So they mean a decimal fraction of a second exactly when there are three of them,
      or all are zero. */
  lemma FractionIsDecimalExactly(digits: string)
    requires IsNumeral(digits)
    ensures Value(digits) * Pow10(|digits|) == 1000 * Value(digits) <==> |digits| == 3 || Value(digits) == 0
  {
    Pow10Of3(|digits|);
    SameMultiple(Value(digits), Pow10(|digits|), 1000);
  }

  lemma SameMultiple(x: nat, a: int, b: int)
    ensures x * a == b * x <==> a == b || x == 0
  {
    if x > 0 && a != b {
      assert x * a - b * x == x * (a - b);
    }
  }

  lemma Pow10Of3(k: nat)
    ensures Pow10(k) == 1000 <==> k == 3
  {
    assert Pow10(0) == 1 && Pow10(1) == 10 && Pow10(2) == 100 && Pow10(3) == 1000;
    if k >= 4 {
      Pow10Grows(4, k);
      assert Pow10(4) == 10 * Pow10(3);
    }
  }

  /** As in one and a half seconds, written with one digit: five milliseconds. */
  lemma HalfSecondIsFiveMilliseconds(str: string, one: string, five: string)
    requires one == ToString(1) && five == ToString(5) && str == one + "." + five
    ensures Parsed(str).valid && Meant(Parsed(str)) == 1005
  {
    ValueOfToString(1);
    ValueOfToString(5);
    LengthExactly(1, 1);
    LengthExactly(5, 1);
    assert Pow10(1) == 10;
    assert str == Joined([one]) + ("." + five);
    assert IsTimestamp(str, [one], Fraction(five));
    ReadsEveryPart(str, [one], Fraction(five));
  }

  // -------------------------------------------------------------- byte positions

  function Signed64(word: int): int
    requires 0 <= word < TWO_64
  {
    if word < TWO_63 then word else word - TWO_64
  }

  /** `total_ms` */
  function TotalMs(a: ArgTo): int {
    Meant(a) % TWO_64
  }

  /** `current_byte`: the unsigned product with `opus_byte_per_ms`, stored as a signed
      word. */
  function CurrentByte(a: ArgTo): int {
    Signed64(192 * TotalMs(a) % TWO_64)
  }

  /** Every part leaves room for the others and for the separators. */
  lemma {:induction false} JoinedLength(parts: seq<string>, i: nat)
    requires i < |parts| && forall j | 0 <= j < |parts| :: parts[j] != ""
    ensures |parts[i]| + 2 * (|parts| - 1) <= |Joined(parts)|
  {
    if i > 0 {
      JoinedLength(parts[1..], i - 1);
      assert parts[1..][i - 1] == parts[i];
    } else if |parts| > 1 {
      JoinedLength(parts[1..], 0);
      assert parts[1..][0] == parts[1];
    }
  }

  lemma PartFits(str: string, parts: seq<string>, fraction: Fraction, i: nat)
    requires |str| <= 14 && IsTimestamp(str, parts, fraction) && i < |parts|
    ensures Value(parts[i]) < Limit(|parts|)
  {
    JoinedLength(parts, i);
    ValueBound(parts[i]);
    Pow10Grows(|parts[i]|, 16 - 2 * |parts|);
    Pow10Of14();
    assert Pow10(14) == 100 * Pow10(12) && Pow10(12) == 100 * Pow10(10);
  }

  lemma FractionFits(str: string, parts: seq<string>, fraction: Fraction)
    requires |str| <= 14 && IsTimestamp(str, parts, fraction) && fraction.Fraction?
    ensures Value(fraction.digits) < 1_000_000_000_000
  {
    JoinedLength(parts, 0);
    ValueBound(fraction.digits);
    Pow10Grows(|fraction.digits|, 12);
    Pow10Of14();
    assert Pow10(14) == 100 * Pow10(12);
  }

  /** Bounds on the fields of a timestamp with `parts` parts. */
  predicate Fits(a: ArgTo, parts: nat) {
    && 0 <= a.hour < 10_000_000_000 && 0 <= a.minute < 1_000_000_000_000
    && 0 <= a.ms < 1_000_000_000_000 && 0 <= a.second < Limit(parts)
    && (parts == 3 ==> a.minute < Limit(parts))
  }

  function Limit(parts: nat): nat {
    if parts == 1 then 100_000_000_000_000 else if parts == 2 then 1_000_000_000_000 else 10_000_000_000
  }

  lemma NumbersFit(parts: seq<string>, fraction: Fraction)
    requires AreParts(parts, fraction)
    requires forall i | 0 <= i < |parts| :: Value(parts[i]) < Limit(|parts|)
    requires fraction.Fraction? ==> Value(fraction.digits) < 1_000_000_000_000
    ensures Fits(Numbers(parts, fraction), |parts|)
  {
  }

  lemma FieldsFit(str: string, parts: seq<string>, fraction: Fraction)
    requires 1 <= |str| <= 14 && IsTimestamp(str, parts, fraction)
    ensures Fits(Parsed(str), |parts|)
  {
    ReadsEveryPart(str, parts, fraction);
    forall i | 0 <= i < |parts| ensures Value(parts[i]) < Limit(|parts|) {
      PartFits(str, parts, fraction, i);
    }
    if fraction.Fraction? {
      FractionFits(str, parts, fraction);
    }
    NumbersFit(parts, fraction);
  }

  /** The total never wraps around, and with two colons neither does the position. */
  lemma MeantIsBounded(a: ArgTo, parts: nat)
    requires 1 <= parts <= 3 && Fits(a, parts)
    ensures 0 <= Meant(a) == TotalMs(a)
    ensures CurrentByte(a) == 192 * Meant(a) <==> 192 * Meant(a) < TWO_63
    ensures parts == 3 ==> 192 * Meant(a) < TWO_63
  {
  }

  /** The byte position set is the one meant exactly when that one is an `int64_t`. */
  lemma CurrentByteExactly(str: string)
    requires Parsed(str).valid
    ensures var a := Parsed(str);
            CurrentByte(a) == 192 * Meant(a) <==> 192 * Meant(a) < TWO_63
  {
    var parts, fraction := AcceptedIsTimestamp(str);
    FieldsFit(str, parts, fraction);
    MeantIsBounded(Parsed(str), |parts|);
  }

  /** With an hour in it, a timestamp is always converted exactly. */
  lemma HoursNeverOverflow(str: string, parts: seq<string>, fraction: Fraction)
    requires IsTimestamp(str, parts, fraction) && |parts| == 3
    ensures Parsed(str).valid ==> CurrentByte(Parsed(str)) == 192 * Meant(Parsed(str))
  {
    if 1 <= |str| <= 14 {
      FieldsFit(str, parts, fraction);
      MeantIsBounded(Parsed(str), 3);
    }
  }

  function Nines(k: nat): (s: string)
    ensures |s| == k && AllDigits(s)
  {
    if k == 0 then "" else Nines(k - 1) + "9"
  }

  lemma {:induction false} ValueOfNines(k: nat)
    ensures Value(Nines(k)) == Pow10(k) - 1
  {
    if k > 0 {
      ValueOfNines(k - 1);
      assert Nines(k)[..k - 1] == Nines(k - 1);
    }
  }

  /** Without an hour, it can overflow: on fourteen nines, and on twelve and a
      second. */
  lemma LongSecondsOverflow(str: string)
    requires str == Nines(14)
    ensures var a := Parsed(str);
            a.valid && CurrentByte(a) != 192 * Meant(a)
  {
    assert str == Joined([str]) + "";
    assert IsTimestamp(str, [str], NoFraction);
    ReadsEveryPart(str, [str], NoFraction);
    ValueOfNines(14);
    Pow10Of14();
    CurrentByteExactly(str);
  }

  lemma LongMinutesOverflow(str: string)
    requires str == Nines(12) + ":" + Nines(1)
    ensures var a := Parsed(str);
            a.valid && CurrentByte(a) < 0 < Meant(a)
  {
    ReadsTwoParts(str, Nines(12), Nines(1));
    NinesAsNumbers();
    WrapsNegative(Parsed(str));
  }

  lemma ReadsTwoParts(str: string, minute: string, second: string)
    requires IsNumeral(minute) && IsNumeral(second)
    requires str == minute + ":" + second && |str| <= 14
    ensures Parsed(str) == ArgTo(0, Value(minute), Value(second), 0, true)
  {
    var parts := [minute, second];
    JoinedThree("", minute, second);
    assert str == Joined(parts) + "";
    assert IsTimestamp(str, parts, NoFraction);
    ReadsEveryPart(str, parts, NoFraction);
  }

  lemma NinesAsNumbers()
    ensures Value(Nines(12)) == 999_999_999_999 && Value(Nines(1)) == 9
  {
    ValueOfNines(12);
    ValueOfNines(1);
    assert Pow10(1) == 10;
    Pow10Of14();
    assert Pow10(14) == 100 * Pow10(12);
  }

  lemma WrapsNegative(a: ArgTo)
    requires a == ArgTo(0, 999_999_999_999, 9, 0, true)
    ensures CurrentByte(a) < 0 < Meant(a)
  {
  }
}
