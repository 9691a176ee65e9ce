/** The timestamps of the seek command: their grammar, their parser, and durations
    printed as timestamps. */
module SeekTimestamp {
  import opened MachineWords
  import opened Decimal

  /** `arg_to_t` */
  datatype ArgTo = ArgTo(hour: int, minute: int, second: int, ms: int, valid: bool)

  const INVALID := ArgTo(0, 0, 0, 0, false)

  // ------------------------------------------------------------------- grammar

  datatype Fraction = NoFraction | Fraction(digits: string)

  predicate IsNumeral(s: string) {
    s != "" && AllDigits(s)
  }

  function Joined(parts: seq<string>): string {
    if parts == [] then "" else if |parts| == 1 then parts[0] else parts[0] + ":" + Joined(parts[1..])
  }

  /** `[[hour:]minute:]second[.ms]`, with these parts. */
  ghost predicate IsTimestamp(str: string, parts: seq<string>, fraction: Fraction) {
    && 1 <= |parts| <= 3
    && (forall i | 0 <= i < |parts| :: IsNumeral(parts[i]))
    && (fraction.Fraction? ==> IsNumeral(fraction.digits))
    && str == Joined(parts) + (if fraction.Fraction? then "." + fraction.digits else "")
  }

  // -------------------------------------------------------------------- tokens

  /** A run of digits and what ends it: the end of the string, or a character. */
  datatype Stop = End | At(c: char)
  datatype Token = Token(digits: string, stop: Stop)

  function FirstToken(s: string): (t: Token)
    ensures |t.digits| + (if t.stop.At? then 1 else 0) <= |s|
    ensures t.stop.End? ==> t.digits == s
  {
    var d := DigitPrefix(s);
    if |d| == |s| then Token(d, End) else Token(d, At(s[|d|]))
  }

  function Tokens(s: string): (ts: seq<Token>)
    ensures ts != []
    decreases |s|
  {
    var t := FirstToken(s);
    [t] + if t.stop.End? then [] else Tokens(s[|t.digits| + 1..])
  }

  /** The strings that token sequences stand for. */
  function Untokens(ts: seq<Token>): string {
    if ts == [] then ""
    else ts[0].digits + (if ts[0].stop.At? then [ts[0].stop.c] else "") + Untokens(ts[1..])
  }

  ghost predicate WellFormed(ts: seq<Token>) {
    && ts != [] && ts[|ts| - 1].stop.End?
    && (forall i | 0 <= i < |ts| :: AllDigits(ts[i].digits))
    && (forall i | 0 <= i < |ts| - 1 :: ts[i].stop.At? && !IsDigit(ts[i].stop.c))
  }

  lemma UntokensCons(t: Token, ts: seq<Token>)
    ensures Untokens([t] + ts) == t.digits + (if t.stop.At? then [t.stop.c] else "") + Untokens(ts)
  {
    assert ([t] + ts)[1..] == ts;
  }

  /** What follows the first token. */
  function Rest(s: string): string {
    var t := FirstToken(s);
    if t.stop.End? then "" else s[|t.digits| + 1..]
  }

  lemma FirstTokenThenRest(s: string)
    ensures var t := FirstToken(s);
            && s == t.digits + (if t.stop.At? then [t.stop.c] else "") + Rest(s)
            && Tokens(s) == [t] + if t.stop.End? then [] else Tokens(Rest(s))
  {
  }

  lemma {:induction false} UntokensOfTokens(s: string)
    ensures Untokens(Tokens(s)) == s
    decreases |s|
  {
    var t := FirstToken(s);
    FirstTokenThenRest(s);
    if t.stop.At? {
      UntokensOfTokens(Rest(s));
      UntokensCons(t, Tokens(Rest(s)));
    } else {
      UntokensCons(t, []);
    }
  }

  lemma {:induction false} TokensAreWellFormed(s: string)
    ensures WellFormed(Tokens(s))
    decreases |s|
  {
    var d := DigitPrefix(s);
    if |d| < |s| {
      TokensAreWellFormed(s[|d| + 1..]);
      WellFormedCons(Token(d, At(s[|d|])), Tokens(s[|d| + 1..]));
    }
  }

  lemma WellFormedCons(t: Token, ts: seq<Token>)
    requires WellFormed(ts) && AllDigits(t.digits) && t.stop.At? && !IsDigit(t.stop.c)
    ensures WellFormed([t] + ts)
  {
  }

  lemma {:induction false} TokensOfUntokens(ts: seq<Token>)
    requires WellFormed(ts)
    ensures Tokens(Untokens(ts)) == ts
    decreases |ts|
  {
    var s, d := Untokens(ts), ts[0].digits;
    if |ts| == 1 {
      assert ts[1..] == [] && Untokens(ts[1..]) == "";
      assert s == d + "" + "" == d;
      assert s[..|d|] == d;
      DigitPrefixIs(s, |d|);
    } else {
      TokensOfUntokens(ts[1..]);
      var rest := Untokens(ts[1..]);
      assert s == d + [ts[0].stop.c] + rest;
      assert s[..|d|] == d && s[|d|] == ts[0].stop.c && s[|d| + 1..] == rest;
      DigitPrefixIs(s, |d|);
    }
  }

  /** The token sequences that the parser accepts. */
  predicate Accepted(ts: seq<Token>) {
    && 1 <= |ts| <= 4
    && (forall i | 0 <= i < |ts| :: ts[i].digits != "")
    && (|ts| >= 2 ==> ts[|ts| - 2].stop == At(':') || ts[|ts| - 2].stop == At('.'))
    && (|ts| >= 3 ==> ts[0].stop == At(':'))
    && (|ts| == 4 ==> ts[1].stop == At(':') && ts[2].stop == At('.'))
  }

  predicate HasFraction(ts: seq<Token>) {
    |ts| >= 2 && ts[|ts| - 2].stop == At('.')
  }

  /** What the fields of a timestamp denote, the last being the fraction if there is
      one. */
  function Denoted(fields: seq<string>, fraction: bool): ArgTo
    requires forall i | 0 <= i < |fields| :: AllDigits(fields[i])
    requires 1 <= |fields| - (if fraction then 1 else 0) <= 3
  {
    var parts := if fraction then |fields| - 1 else |fields|;
    ArgTo(if parts == 3 then Value(fields[0]) else 0,
          if parts >= 2 then Value(fields[parts - 2]) else 0,
          Value(fields[parts - 1]),
          if fraction then Value(fields[parts]) else 0,
          true)
  }

  function DigitsOf(ts: seq<Token>): seq<string> {
    seq(|ts|, i requires 0 <= i < |ts| => ts[i].digits)
  }

  /** What parsing a string comes to. */
  function Parsed(str: string): ArgTo {
    TokensAreWellFormed(str);
    var ts := Tokens(str);
    if 1 <= |str| <= 14 && Accepted(ts) then Denoted(DigitsOf(ts), HasFraction(ts)) else INVALID
  }

  // ------------------------------------------------------------ the code's loops

  /** `is_valid_char` */
  predicate IsValidChar(c: char) {
    c in "0123456789:."
  }

  /** Whether the inner loop gives up at this token: an invalid character, or a colon
      after a dot. */
  predicate Refused(t: Token, dot: nat) {
    t.stop.At? && t.stop.c != '.' && (t.stop.c != ':' || dot != 0)
  }

  function Colons(t: Token): nat {
    if t.stop == At(':') then 1 else 0
  }

  function Dots(t: Token): nat {
    if t.stop == At('.') then 1 else 0
  }

  function After(start: nat, t: Token): nat {
    start + |t.digits| + if t.stop.At? then 1 else 0
  }

  lemma CharClasses(c: char)
    ensures IsValidChar(c) <==> IsDigit(c) || c == ':' || c == '.'
    ensures !IsDigit(':') && !IsDigit('.')
  {
  }

  /** The inner loop of `parse_arg_to`: reads one field; `bad` when it returns
      from the function at once. */
  method ReadField(str: string, start: nat, sc: nat, dot: nat)
    returns (temp: string, lastIdx: nat, scCount: nat, dotCount: nat, bad: bool)
    requires start <= |str|
    ensures bad <==> Refused(FirstToken(str[start..]), dot)
    ensures !bad ==> var t := FirstToken(str[start..]); temp == t.digits && lastIdx == After(start, t)
    ensures !bad ==> var t := FirstToken(str[start..]); scCount == sc + Colons(t) && dotCount == dot + Dots(t)
  {
    temp, lastIdx, scCount, dotCount, bad := "", start, sc, dot, false;
    while lastIdx < |str|
      invariant start <= lastIdx <= |str| && temp == str[start..lastIdx] && AllDigits(temp)
    {
      var c := str[lastIdx];
      CharClasses(c);
      FirstTokenAt(str, start, lastIdx);
      if !IsValidChar(c) {
        bad := true;
        return;
      }
      if c == ':' {
        if dotCount != 0 {
          bad := true;
          return;
        }
        scCount := scCount + 1;
        lastIdx := lastIdx + 1;
        return;
      }
      if c == '.' {
        dotCount := dotCount + 1;
        lastIdx := lastIdx + 1;
        return;
      }
      temp := temp + [c];
      lastIdx := lastIdx + 1;
    }
    FirstTokenAt(str, start, lastIdx);
  }

  /** The digits from `start` up to `end`, and what follows them. */
  lemma FirstTokenAt(str: string, start: nat, end: nat)
    requires start <= end <= |str| && AllDigits(str[start..end])
    ensures end == |str| ==> FirstToken(str[start..]) == Token(str[start..end], End)
    ensures end < |str| && !IsDigit(str[end]) ==> FirstToken(str[start..]) == Token(str[start..end], At(str[end]))
  {
    var s := str[start..];
    assert s[..end - start] == str[start..end];
    if end == |str| || !IsDigit(str[end]) {
      DigitPrefixIs(s, end - start);
    }
  }

  /** Where the outer loop stands: the fields read so far and the separators
      counted. */
  datatype Collected = Rejected | Collected(n: nat, sc: nat, dot: nat, list: seq<string>)

  /** A field was read: its separator is counted, or the string is rejected. */
  function Count(t: Token, c: Collected): (counted: Collected)
    requires c.Collected?
    ensures counted.Collected? ==> counted.n == c.n && counted.list == c.list
  {
    if Refused(t, c.dot) then Rejected else c.(sc := c.sc + Colons(t), dot := c.dot + Dots(t))
  }

  /** A field that is not empty is stored. */
  function Store(t: Token, c: Collected): Collected
    requires c.Collected? && c.n < |c.list|
  {
    c.(n := c.n + 1, list := c.list[c.n := t.digits])
  }

  /** What the outer loop comes to from round `c.n` on, with these tokens ahead. */
  function Collect(ts: seq<Token>, c: Collected): Collected
    requires c.Collected? && c.n <= 4 == |c.list|
    decreases 4 - c.n
  {
    if c.n == 4 || ts == [] then c
    else
      var counted := Count(ts[0], c);
      if counted.Rejected? || ts[0].digits == "" then counted else Collect(ts[1..], Store(ts[0], counted))
  }

  const NOTHING := Collected(0, 0, 0, ["", "", "", ""])

  /** The tokens left to read, none after the one that ends the string. */
  function Ahead(str: string, lastIdx: nat, ended: bool): seq<Token>
    requires lastIdx <= |str|
  {
    if ended then [] else Tokens(str[lastIdx..])
  }

  /** The outer loop of `parse_arg_to`. */
  method CollectFields(str: string) returns (rejected: bool, i: nat, sc: nat, dot: nat, list: seq<string>)
    ensures |list| == 4 && i <= 4
    ensures Collect(Tokens(str), NOTHING) == if rejected then Rejected else Collected(i, sc, dot, list)
  {
    list := ["", "", "", ""];
    var lastIdx: nat := 0;
    sc, dot, i, rejected := 0, 0, 0, false;
    ghost var ended, goal := false, Collect(Tokens(str), NOTHING);
    assert str[0..] == str;
    while i < 4
      invariant i <= 4 == |list| && lastIdx <= |str| && !rejected
      invariant ended ==> lastIdx == |str|
      invariant goal == Collect(Ahead(str, lastIdx, ended), Collected(i, sc, dot, list))
    {
      CollectRound(str, lastIdx, ended, Collected(i, sc, dot, list));
      var stop: bool;
      rejected, stop, lastIdx, sc, dot, list, ended := CollectField(str, lastIdx, i, sc, dot, list);
      if rejected {
        return;
      }
      if stop {
        break;
      }
      i := i + 1;
    }
  }

  /** Its body. */
  method CollectField(str: string, start: nat, i: nat, sc: nat, dot: nat, list: seq<string>)
    returns (rejected: bool, stop: bool, lastIdx: nat, sc': nat, dot': nat, list': seq<string>, ghost ended: bool)
    requires start <= |str| && i < 4 == |list|
    ensures |list'| == 4
    ensures var t, c := FirstToken(str[start..]), Collected(i, sc, dot, list);
            && (!rejected ==> lastIdx == After(start, t) && ended == t.stop.End?)
            && (rejected <==> Count(t, c).Rejected?)
            && (!rejected ==> (stop <==> t.digits == ""))
            && (!rejected && stop ==> Count(t, c) == Collected(i, sc', dot', list'))
            && (!rejected && !stop ==> Store(t, Count(t, c)) == Collected(i + 1, sc', dot', list'))
  {
    ghost var t := FirstToken(str[start..]);
    var temp: string;
    temp, lastIdx, sc', dot', rejected := ReadField(str, start, sc, dot);
    stop, list', ended := temp == "", list, t.stop.End?;
    if !rejected && !stop {
      list' := list[i := temp];
    }
  }

  lemma TokensAt(str: string, from: nat)
    requires from <= |str|
    ensures var t := FirstToken(str[from..]);
            && After(from, t) <= |str| && (t.stop.End? ==> After(from, t) == |str|)
            && Tokens(str[from..]) == [t] + Ahead(str, After(from, t), t.stop.End?)
  {
    var t := FirstToken(str[from..]);
    if t.stop.At? {
      assert str[from..][|t.digits| + 1..] == str[After(from, t)..];
    }
  }

  lemma CollectFirst(t: Token, rest: seq<Token>, c: Collected)
    requires c.Collected? && c.n < 4 == |c.list|
    ensures Collect([t] + rest, c)
         == if Count(t, c).Rejected? || t.digits == "" then Count(t, c) else Collect(rest, Store(t, Count(t, c)))
  {
    assert ([t] + rest)[1..] == rest;
  }

  /** One round, by the first token ahead. */
  lemma CollectRound(str: string, from: nat, ended: bool, c: Collected)
    requires from <= |str| && (ended ==> from == |str|)
    requires c.Collected? && c.n < 4 == |c.list|
    ensures var t := FirstToken(str[from..]);
            && After(from, t) <= |str| && (t.stop.End? ==> After(from, t) == |str|)
            && Collect(Ahead(str, from, ended), c)
            == if Count(t, c).Rejected? || t.digits == "" then Count(t, c)
               else Collect(Ahead(str, After(from, t), t.stop.End?), Store(t, Count(t, c)))
  {
    var t := FirstToken(str[from..]);
    TokensAt(str, from);
    CollectFirst(t, Ahead(str, After(from, t), t.stop.End?), c);
    if ended {
      assert str[from..] == "" && t == Token("", End);
    }
  }

  // ------------------------------------------------- what the collection means

  /** The test after the loop: enough fields for the separators counted, and not
      too many separators. */
  predicate Success(c: Collected) {
    c.Collected? && c.sc < 3 && c.dot < 2 && c.sc + c.dot < c.n
  }

  /** The tokens ahead make a success of a string of which `n` fields were read. */
  predicate Completes(ts: seq<Token>, n: nat, sc: nat, dot: nat)
    decreases |ts|
  {
    && ts != [] && n < 4 && !Refused(ts[0], dot) && ts[0].digits != ""
    && if |ts| == 1 then sc < 3 && dot < 2 else Completes(ts[1..], n + 1, sc + Colons(ts[0]), dot + Dots(ts[0]))
  }

  /** Collecting these tokens from `c` on has put each into its place and counted the
      separators between them. */
  ghost predicate Holds(ts: seq<Token>, c: Collected, r: Collected)
    requires c.Collected? && r.Collected? && |c.list| == 4
  {
    && r.n == c.n + |ts| <= 4 == |r.list| && r.n == r.sc + r.dot + 1
    && (forall j | 0 <= j < c.n :: r.list[j] == c.list[j])
    && (forall j | c.n <= j < r.n :: r.list[j] == ts[j - c.n].digits)
  }

  lemma HoldsFirst(ts: seq<Token>, c: Collected, r: Collected)
    requires ts != [] && c.Collected? && r.Collected? && c.n < 4 == |c.list| && !Count(ts[0], c).Rejected?
    requires Holds(ts[1..], Store(ts[0], Count(ts[0], c)), r)
    ensures Holds(ts, c, r)
  {
    forall j | c.n <= j < r.n ensures r.list[j] == ts[j - c.n].digits {
      if j > c.n {
        assert ts[1..][j - c.n - 1] == ts[j - c.n];
      }
    }
  }

  /** Collecting succeeds exactly when the tokens complete the string, and then the
      list holds the fields in order. */
  lemma {:induction false} CollectSucceeds(ts: seq<Token>, c: Collected)
    requires WellFormed(ts) && c.Collected? && c.n <= 4 == |c.list| && c.n == c.sc + c.dot
    ensures Success(Collect(ts, c)) <==> Completes(ts, c.n, c.sc, c.dot)
    ensures Success(Collect(ts, c)) ==> Holds(ts, c, Collect(ts, c))
    decreases |ts|
  {
    if c.n < 4 && !Refused(ts[0], c.dot) && ts[0].digits != "" {
      CollectFirst(ts[0], ts[1..], c);
      assert ts == [ts[0]] + ts[1..];
      var next := Store(ts[0], Count(ts[0], c));
      if |ts| == 1 {
        assert Collect(ts[1..], next) == next;
      } else {
        assert Colons(ts[0]) + Dots(ts[0]) == 1;
        CollectSucceeds(ts[1..], next);
        if Success(Collect(ts[1..], next)) {
          HoldsFirst(ts, c, Collect(ts[1..], next));
        }
      }
    }
  }

  lemma CompletesNext(ts: seq<Token>, n: nat, sc: nat, dot: nat)
    requires |ts| >= 2
    ensures Completes(ts, n, sc, dot) <==>
            && n < 4 && !Refused(ts[0], dot) && ts[0].digits != ""
            && Completes(ts[1..], n + 1, sc + Colons(ts[0]), dot + Dots(ts[0]))
  {
  }

  lemma FiveAreTooMany(ts: seq<Token>)
    requires |ts| >= 5
    ensures !Completes(ts, 0, 0, 0)
  {
    var s1, d1 := Colons(ts[0]), Dots(ts[0]);
    var s2, d2 := s1 + Colons(ts[1]), d1 + Dots(ts[1]);
    var s3, d3 := s2 + Colons(ts[2]), d2 + Dots(ts[2]);
    CompletesNext(ts, 0, 0, 0);
    CompletesNext(ts[1..], 1, s1, d1);
    CompletesNext(ts[1..][1..], 2, s2, d2);
    CompletesNext(ts[1..][1..][1..], 3, s3, d3);
  }

  lemma CompletesMeansAccepted(ts: seq<Token>)
    requires WellFormed(ts)
    ensures Completes(ts, 0, 0, 0) <==> Accepted(ts)
  {
    if |ts| >= 5 {
      FiveAreTooMany(ts);
    } else if |ts| >= 2 {
      var s1, d1 := Colons(ts[0]), Dots(ts[0]);
      CompletesNext(ts, 0, 0, 0);
      if |ts| >= 3 {
        var s2, d2 := s1 + Colons(ts[1]), d1 + Dots(ts[1]);
        CompletesNext(ts[1..], 1, s1, d1);
        if |ts| == 4 {
          CompletesNext(ts[1..][1..], 2, s2, d2);
          var s3, d3 := s2 + Colons(ts[2]), d2 + Dots(ts[2]);
          var last := ts[1..][1..][1..];
          assert last == [ts[3]];
          assert Completes(last, 3, s3, d3) <==> ts[3].digits != "" && s3 < 3 && d3 < 2;
        } else {
          var last := ts[1..][1..];
          assert last == [ts[2]];
          assert Completes(last, 2, s2, d2) <==> ts[2].digits != "" && s2 < 3 && d2 < 2;
        }
      }
    }
  }

  // --------------------------------------------------------------- whole parser

  /** `stoll` on a string of digits: it throws on an empty one and out of range. */
  function Stoll(s: string): nat
    requires IsNumeral(s) && Value(s) < TWO_63
  {
    Value(s)
  }

  lemma FitsStoll(s: string)
    requires AllDigits(s) && |s| <= 14
    ensures Value(s) < TWO_63
  {
    ValueBound(s);
    Pow10Grows(|s|, 14);
    Pow10Of14();
  }

  lemma Pow10Of14()
    ensures Pow10(14) == 100_000_000_000_000
  {
    assert Pow10(4) == 10_000;
    assert Pow10(8) == 1_0000_0000;
    assert Pow10(12) == 1_0000_0000_0000;
  }

  lemma {:induction false} Pow10Grows(k: nat, l: nat)
    requires k <= l
    ensures Pow10(k) <= Pow10(l)
    decreases l
  {
    if k < l {
      Pow10Grows(k, l - 1);
    }
  }

  /** The list holds the fields read, none longer than `size`, and then nothing. */
  ghost predicate Filled(c: Collected, size: nat) {
    && c.Collected? && c.n <= 4 == |c.list|
    && (forall j | 0 <= j < 4 :: AllDigits(c.list[j]) && |c.list[j]| <= size && (c.list[j] != "" <==> j < c.n))
  }

  lemma {:induction false} CollectFills(ts: seq<Token>, c: Collected, size: nat)
    requires forall i | 0 <= i < |ts| :: AllDigits(ts[i].digits) && |ts[i].digits| <= size
    requires Filled(c, size)
    ensures Collect(ts, c).Collected? ==> Filled(Collect(ts, c), size)
    decreases |ts|
  {
    if c.n < 4 && ts != [] && !Refused(ts[0], c.dot) && ts[0].digits != "" {
      CollectFirst(ts[0], ts[1..], c);
      assert ts == [ts[0]] + ts[1..];
      CollectFills(ts[1..], Store(ts[0], Count(ts[0], c)), size);
    }
  }

  lemma {:induction false} TokensAreNoLonger(ts: seq<Token>, i: nat)
    requires i < |ts|
    ensures |ts[i].digits| <= |Untokens(ts)|
  {
    if i > 0 {
      TokensAreNoLonger(ts[1..], i - 1);
    }
  }

  /** What the collection of a whole string looks like. */
  lemma CollectedFields(str: string)
    requires 1 <= |str| <= 14
    ensures var c := Collect(Tokens(str), NOTHING);
            && (c.Collected? ==> Filled(c, 14))
            && (Success(c) <==> Accepted(Tokens(str)))
            && (Success(c) ==> c.n == c.sc + c.dot + 1 == |Tokens(str)|)
            && (Success(c) ==> forall j | 0 <= j < c.n :: c.list[j] == Tokens(str)[j].digits)
  {
    var ts := Tokens(str);
    TokensAreWellFormed(str);
    UntokensOfTokens(str);
    forall i | 0 <= i < |ts| ensures |ts[i].digits| <= 14 {
      TokensAreNoLonger(ts, i);
    }
    CollectFills(ts, NOTHING, 14);
    CollectSucceeds(ts, NOTHING);
    CompletesMeansAccepted(ts);
  }

  /** The number in a field, unless nothing was read there. */
  method ReadNumber(list: seq<string>, k: nat) returns (empty: bool, number: int)
    requires k < |list| && AllDigits(list[k]) && |list[k]| <= 14
    ensures empty <==> list[k] == ""
    ensures !empty ==> number == Value(list[k])
  {
    if list[k] == "" {
      return true, 0;
    }
    FitsStoll(list[k]);
    return false, Stoll(list[k]);
  }

  /** The numbers at the positions that the counts of separators give. */
  function Picked(sc: nat, dot: nat, list: seq<string>): ArgTo
    requires sc <= 2 && |list| == 4 && forall j | 0 <= j < 4 :: AllDigits(list[j])
  {
    ArgTo(if sc == 2 then Value(list[0]) else 0,
          if sc > 0 then Value(list[sc - 1]) else 0,
          Value(list[sc]),
          if dot == 1 then Value(list[sc + 1]) else 0,
          true)
  }

  lemma PickedIsDenoted(sc: nat, dot: nat, list: seq<string>)
    requires sc <= 2 && dot <= 1 && |list| == 4 && forall j | 0 <= j < 4 :: AllDigits(list[j])
    ensures Picked(sc, dot, list) == Denoted(list[..sc + dot + 1], dot == 1)
  {
  }

  /** The second half of `parse_arg_to`. */
  method ReadNumbers(i: nat, sc: nat, dot: nat, list: seq<string>) returns (result: ArgTo)
    requires Filled(Collected(i, sc, dot, list), 14)
    ensures result.valid <==> Success(Collected(i, sc, dot, list))
    ensures result.valid ==> result == Picked(sc, dot, list)
  {
    result := INVALID;
    if i > 0 && sc < 3 && dot < 2 {
      var empty, hour, minute, subt := ReadHourAndMinute(i, sc, list);
      if empty {
        return;
      }
      var second, ms := 0, 0;
      empty, second := ReadNumber(list, 2 - subt);
      if empty {
        return;
      }
      if dot == 1 {
        empty, ms := ReadNumber(list, 3 - subt);
        if empty {
          return;
        }
      }
      result := ArgTo(hour, minute, second, ms, true);
    }
  }

  method ReadHourAndMinute(i: nat, sc: nat, list: seq<string>)
    returns (empty: bool, hour: int, minute: int, subt: int)
    requires Filled(Collected(i, sc, 0, list), 14) && sc < 3
    ensures subt == 2 - sc
    ensures empty <==> i < sc
    ensures !empty ==> hour == (if sc == 2 then Value(list[0]) else 0)
    ensures !empty ==> minute == (if sc > 0 then Value(list[sc - 1]) else 0)
  {
    empty, hour, minute, subt := false, 0, 0, -1;
    if sc == 2 {
      empty, hour := ReadNumber(list, 0);
      subt := 0;
      if empty {
        return;
      }
    }
    if sc > 0 {
      if subt == -1 {
        subt := 1;
      }
      empty, minute := ReadNumber(list, 1 - subt);
    }
    if subt == -1 {
      subt := 2;
    }
  }

  function AllDots(ts: seq<Token>): nat {
    if ts == [] then 0 else Dots(ts[0]) + AllDots(ts[1..])
  }

  /** A success has counted every dot. */
  lemma {:induction false} CollectCounts(ts: seq<Token>, c: Collected)
    requires WellFormed(ts) && c.Collected? && c.n <= 4 == |c.list| && c.n == c.sc + c.dot
    requires Success(Collect(ts, c))
    ensures Collect(ts, c).dot == c.dot + AllDots(ts)
    decreases |ts|
  {
    CollectSucceeds(ts, c);
    CollectFirst(ts[0], ts[1..], c);
    assert ts == [ts[0]] + ts[1..];
    if |ts| >= 2 {
      CollectCounts(ts[1..], Store(ts[0], Count(ts[0], c)));
    } else {
      assert AllDots(ts[1..]) == 0;
    }
  }

  lemma AcceptedDots(ts: seq<Token>)
    requires Accepted(ts) && WellFormed(ts)
    ensures AllDots(ts) == if HasFraction(ts) then 1 else 0
  {
    if |ts| >= 2 {
      assert AllDots(ts) == Dots(ts[0]) + AllDots(ts[1..]);
      assert AllDots(ts[1..]) == Dots(ts[1]) + AllDots(ts[1..][1..]);
      if |ts| >= 3 {
        assert AllDots(ts[1..][1..]) == Dots(ts[2]) + AllDots(ts[1..][1..][1..]);
        if |ts| == 4 {
          assert AllDots(ts[1..][1..][1..]) == Dots(ts[3]) + AllDots([]);
        }
      }
    }
  }

  lemma PickedIsOfTokens(ts: seq<Token>, c: Collected)
    requires Filled(c, 14) && c.sc <= 2 && c.dot <= 1 && c.n == c.sc + c.dot + 1 == |ts|
    requires forall j | 0 <= j < c.n :: c.list[j] == ts[j].digits
    ensures forall j | 0 <= j < |ts| :: AllDigits(DigitsOf(ts)[j])
    ensures Picked(c.sc, c.dot, c.list) == Denoted(DigitsOf(ts), c.dot == 1)
  {
    PickedIsDenoted(c.sc, c.dot, c.list);
    assert c.list[..c.n] == DigitsOf(ts);
  }

  /** The numbers picked after a successful collection are those of the string. */
  lemma PickedAreParsed(str: string, c: Collected)
    requires 1 <= |str| <= 14 && c == Collect(Tokens(str), NOTHING) && Success(c)
    ensures Filled(c, 14) && c.n == c.sc + c.dot + 1 && Parsed(str) == Picked(c.sc, c.dot, c.list)
  {
    CollectedFields(str);
    TokensAreWellFormed(str);
    CollectCounts(Tokens(str), NOTHING);
    AcceptedDots(Tokens(str));
    PickedIsOfTokens(Tokens(str), c);
  }

  /** `parse_arg_to`. The fields of an invalid result are not used. */
  method ParseArgTo(str: string) returns (result: ArgTo)
    ensures result.valid == Parsed(str).valid
    ensures result.valid ==> result == Parsed(str)
  {
    if |str| < 1 || |str| > 14 {
      return INVALID;
    }
    var rejected, i, sc, dot, list := CollectFields(str);
    CollectedFields(str);
    if rejected {
      return INVALID;
    }
    result := ReadNumbers(i, sc, dot, list);
    if result.valid {
      PickedAreParsed(str, Collected(i, sc, dot, list));
    }
  }
}
