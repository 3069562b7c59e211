/**
 * The byte-size printer and parser of utils/bytefmt.go. A text is modelled by its characters; letters are
 * folded to upper case in the ASCII range.
 */
module ByteSizes {
  import opened Common
  import opened Text

  const KILO := 1000
  const MEGA := 1000 * KILO
  const GIGA := 1000 * MEGA
  const TERA := 1000 * GIGA
  const PETA := 1000 * TERA
  const KIBI := 1024
  const MEBI := 1024 * KIBI
  const GIBI := 1024 * MEBI
  const TEBI := 1024 * GIBI
  const PEBI := 1024 * TEBI

  // ---------------------------------------------------------------------
  // Decimal numbers
  // ---------------------------------------------------------------------

  predicate IsDigit(c: char) { '0' <= c <= '9' }

  predicate AllDigits(s: string) {
    forall i :: 0 <= i < |s| ==> IsDigit(s[i])
  }

  function DigitChar(d: nat): (c: char)
    requires d < 10
  {
    ('0' as int + d) as char
  }

  /** fmt's %d of a non-negative number */
  function Decimal(n: nat): string {
    if n < 10 then [DigitChar(n)] else Decimal(n / 10) + [DigitChar(n % 10)]
  }

  /** fmt's %d */
  function SignedDecimal(n: int): string {
    if n < 0 then "-" + Decimal(-n) else Decimal(n)
  }

  function Value(s: string): nat
    requires AllDigits(s)
  {
    if s == "" then 0 else Value(s[..|s| - 1]) * 10 + (s[|s| - 1] as int - '0' as int)
  }

  /** strconv.ParseUint in base 10 with 64 bits */
  function ParseUint(s: string): Option<nat> {
    if s != "" && AllDigits(s) && Value(s) < TWO64 then Some(Value(s)) else None
  }

  lemma {:induction false} DecimalReadsBack(n: nat)
    ensures Decimal(n) != "" && AllDigits(Decimal(n)) && Value(Decimal(n)) == n
  {
    var s := Decimal(n);
    if n >= 10 {
      DecimalReadsBack(n / 10);
      assert s[..|s| - 1] == Decimal(n / 10);
    } else {
      assert s[..0] == "";
    }
  }

  // ---------------------------------------------------------------------
  // Printing
  // ---------------------------------------------------------------------

  datatype Unit = Unit(name: string, size: nat)

  /** The first unit, in the order of the switch, that divides the number. */
  function ChosenUnit(n: int): (u: Unit)
    ensures u.size > 0 && n % u.size == 0
  {
    if n == 0 then Unit("B", 1)
    else if n % PETA == 0 then Unit("PB", PETA)
    else if n % TERA == 0 then Unit("TB", TERA)
    else if n % GIGA == 0 then Unit("GB", GIGA)
    else if n % MEGA == 0 then Unit("MB", MEGA)
    else if n % KILO == 0 then Unit("kB", KILO)
    else if n % PEBI == 0 then Unit("PiB", PEBI)
    else if n % TEBI == 0 then Unit("TiB", TEBI)
    else if n % GIBI == 0 then Unit("GiB", GIBI)
    else if n % MEBI == 0 then Unit("MiB", MEBI)
    else if n % KIBI == 0 then Unit("kiB", KIBI)
    else Unit("B", 1)
  }

  /** Go divides only where the division is exact, so its rounding direction does not matter. */
  function FmtBytes(bytes: int): string {
    InUnit(bytes, ChosenUnit(bytes))
  }

  function InUnit(bytes: int, u: Unit): string
    requires u.size > 0
  {
    SignedDecimal(bytes / u.size) + u.name
  }

  function FmtUint64Bytes(bytes: nat): string {
    var u := ChosenUnit(bytes);
    Decimal(bytes / u.size) + u.name
  }

  /** The printed unit is the largest decimal one that divides the number, else the largest binary one, else B. */
  lemma LargestUnitIsChosen(n: int)
    ensures var u := ChosenUnit(n);
            if n == 0 then u == Unit("B", 1)
            else if n % 1_000_000_000_000_000 == 0 then u == Unit("PB", 1_000_000_000_000_000)
            else if n % 1_000_000_000_000 == 0 then u == Unit("TB", 1_000_000_000_000)
            else if n % 1_000_000_000 == 0 then u == Unit("GB", 1_000_000_000)
            else if n % 1_000_000 == 0 then u == Unit("MB", 1_000_000)
            else if n % 1_000 == 0 then u == Unit("kB", 1_000)
            else if n % 0x4_0000_0000_0000 == 0 then u == Unit("PiB", 0x4_0000_0000_0000)
            else if n % 0x100_0000_0000 == 0 then u == Unit("TiB", 0x100_0000_0000)
            else if n % 0x4000_0000 == 0 then u == Unit("GiB", 0x4000_0000)
            else if n % 0x10_0000 == 0 then u == Unit("MiB", 0x10_0000)
            else if n % 0x400 == 0 then u == Unit("kiB", 0x400)
            else u == Unit("B", 1)
  {
  }

  lemma ZeroIsPrinted()
    ensures FmtBytes(0) == "0B" && FmtUint64Bytes(0) == "0B"
  {
  }

  // ---------------------------------------------------------------------
  // Parsing
  // ---------------------------------------------------------------------

  datatype Failure = NoNumericValue | InvalidNumber | UnknownUnit

  function UpperChar(c: char): (u: char) {
    if 'a' <= c <= 'z' then (c as int - 32) as char else c
  }

  function ToUpper(s: string): (u: string)
    ensures |u| == |s| && forall i :: 0 <= i < |s| ==> u[i] == UpperChar(s[i])
  {
    seq(|s|, i requires 0 <= i < |s| => UpperChar(s[i]))
  }

  /** The table of unit multipliers. */
  function Multiplier(unit: string): Option<nat> {
    match unit
    case "B" => Some(1)
    case "KB" => Some(KILO)
    case "MB" => Some(MEGA)
    case "GB" => Some(GIGA)
    case "TB" => Some(TERA)
    case "PB" => Some(PETA)
    case "KIB" => Some(KIBI)
    case "MIB" => Some(MEBI)
    case "GIB" => Some(GIBI)
    case "TIB" => Some(TEBI)
    case "PIB" => Some(PEBI)
    case "KI" => Some(KIBI)
    case "MI" => Some(MEBI)
    case "GI" => Some(GIBI)
    case "TI" => Some(TEBI)
    case "PI" => Some(PEBI)
    case _ => None
  }

  predicate IsSign(c: char) { c == '-' || c == '+' }

  /** The scan passes over this position. */
  predicate Passed(t: string, i: nat)
    requires i < |t|
  {
    (i == 0 && IsSign(t[0])) || IsDigit(t[i]) || t[i] == '.'
  }

  /** Where the scan stops: at the first position it does not pass over, or at the last position. */
  function StopFrom(t: string, i: nat): (stop: nat)
    requires i < |t|
    ensures i <= stop < |t|
    ensures forall k :: i <= k < stop ==> Passed(t, k)
    ensures stop < |t| - 1 ==> !Passed(t, stop)
    decreases |t| - i
  {
    if Passed(t, i) && i + 1 < |t| then StopFrom(t, i + 1) else i
  }

  function StartIndex(t: string): (start: nat)
    requires t != ""
  {
    if IsSign(t[0]) then 1 else 0
  }

  function Scaled(number: Option<nat>, multiplier: Option<nat>): Result<nat, Failure> {
    if number.None? then Err(InvalidNumber)
    else if multiplier.None? then Err(UnknownUnit)
    else Ok(number.value * multiplier.value % TWO64)
  }

  /** What the parser returns for a trimmed text. */
  function ParsedTrimmed(t: string): Result<nat, Failure> {
    if t == "" || StopFrom(t, 0) == 0 then Err(NoNumericValue)
    else
      var i := StopFrom(t, 0);
      Scaled(ParseUint(t[StartIndex(t)..i]), Multiplier(ToUpper(TrimSpace(t[i..]))))
  }

  function ParsedUint(input: string): Result<nat, Failure> {
    ParsedTrimmed(TrimSpace(input))
  }

  function ParsedInt(input: string): Result<int, Failure> {
    var negative := input != "" && input[0] == '-';
    match ParsedUint(if negative then input[1..] else input)
    case Ok(v) => Ok(Wrap64((if negative then -1 else 1) * Wrap64(v)))
    case Err(e) => Err(e)
  }

  method ParseUintSizeToBytes(input: string) returns (r: Result<nat, Failure>)
    ensures r == ParsedUint(input)
  {
    var t := TrimSpace(input);
    var i, startIndex, next := 0, 0, 0;
    while next < |t|
      invariant next <= |t|
      invariant next < |t| ==> StopFrom(t, next) == StopFrom(t, 0)
      invariant next == |t| > 0 ==> i == StopFrom(t, 0)
      invariant next == 0 ==> i == 0
      invariant startIndex == if next > 0 then StartIndex(t) else 0
    {
      i := next;
      next := next + 1;
      if i == 0 && IsSign(t[i]) {
        startIndex := 1;
        continue;
      }
      if !IsDigit(t[i]) && t[i] != '.' {
        break;
      }
    }
    if i == 0 {
      return Err(NoNumericValue);
    }
    var value := ParseUint(t[startIndex..i]);
    var multiplier := Multiplier(ToUpper(TrimSpace(t[i..])));
    if value.None? {
      return Err(InvalidNumber);
    }
    if multiplier.None? {
      return Err(UnknownUnit);
    }
    return Ok(value.value * multiplier.value % TWO64);
  }

  method ParseIntSizeToBytes(input: string) returns (r: Result<int, Failure>)
    ensures r == ParsedInt(input)
  {
    var signMultiplier, rest := 1, input;
    if input != "" && input[0] == '-' {
      signMultiplier, rest := -1, input[1..];
    }
    var value := ParseUintSizeToBytes(rest);
    match value
    case Err(e) => return Err(e);
    case Ok(v) => return Ok(Wrap64(signMultiplier * Wrap64(v)));
  }

  // ---------------------------------------------------------------------
  // Which texts are accepted
  // ---------------------------------------------------------------------

  /** The text is an optional sign, a 64-bit number and a unit, with any space between the two. */
  ghost predicate Reads(t: string, sign: string, digits: string, tail: string) {
    && t == sign + digits + tail
    && (sign == "" || (|sign| == 1 && IsSign(sign[0])))
    && ParseUint(digits).Some?
    && Multiplier(ToUpper(TrimSpace(tail))).Some?
  }

  /** The bytes such a text stands for, in 64-bit arithmetic. */
  ghost function Bytes(digits: string, tail: string): nat
    requires ParseUint(digits).Some? && Multiplier(ToUpper(TrimSpace(tail))).Some?
  {
    Value(digits) * Multiplier(ToUpper(TrimSpace(tail))).value % TWO64
  }

  lemma UnitStartsWithLetter(unit: string)
    requires Multiplier(unit).Some?
    ensures unit != "" && 'A' <= unit[0] <= 'Z'
  {
  }

  lemma {:induction false} TrimRightKeepsStart(s: string)
    requires s != "" && !IsSpace(s[0])
    ensures TrimRight(s) != "" && TrimRight(s)[0] == s[0]
  {
    if IsSpace(s[|s| - 1]) { TrimRightKeepsStart(s[..|s| - 1]); }
  }

  lemma TailStartsOff(tail: string)
    requires Multiplier(ToUpper(TrimSpace(tail))).Some?
    ensures tail != "" && !IsDigit(tail[0]) && tail[0] != '.'
  {
    UnitStartsWithLetter(ToUpper(TrimSpace(tail)));
    if tail != "" && !IsSpace(tail[0]) {
      TrimRightKeepsStart(tail);
    }
  }

  lemma {:induction false} StopsAt(t: string, i: nat, stop: nat)
    requires i <= stop < |t| && !Passed(t, stop)
    requires forall k :: i <= k < stop ==> Passed(t, k)
    ensures StopFrom(t, i) == stop
    decreases stop - i
  {
    if i < stop { StopsAt(t, i + 1, stop); }
  }

  /** The scan of a text of this form stops where its number ends. */
  lemma ReadingStops(t: string, sign: string, digits: string, tail: string)
    requires Reads(t, sign, digits, tail)
    ensures t != "" && StartIndex(t) == |sign| && StopFrom(t, 0) == |sign| + |digits|
  {
    TailStartsOff(tail);
    var stop := |sign| + |digits|;
    assert t[stop] == tail[0];
    forall k | |sign| <= k < stop ensures IsDigit(t[k]) {
      assert t[k] == digits[k - |sign|];
    }
    if sign != "" { assert t[0] == sign[0]; }
    StopsAt(t, 0, stop);
  }

  lemma ThreeParts(t: string, sign: string, digits: string, tail: string)
    requires t == sign + digits + tail
    ensures t[|sign|..|sign| + |digits|] == digits && t[|sign| + |digits|..] == tail
  {
  }

  lemma ReadingIsFollowed(t: string, sign: string, digits: string, tail: string)
    requires Reads(t, sign, digits, tail)
    ensures ParsedTrimmed(t) == Ok(Bytes(digits, tail))
  {
    ReadingStops(t, sign, digits, tail);
    ThreeParts(t, sign, digits, tail);
    assert digits != "";
  }

  /** The parser accepts exactly the texts of this form, with exactly this result. */
  lemma AcceptedTexts(input: string, v: nat)
    ensures ParsedUint(input) == Ok(v) <==>
            exists sign, digits, tail :: Reads(TrimSpace(input), sign, digits, tail) && v == Bytes(digits, tail)
  {
    var t := TrimSpace(input);
    if ParsedTrimmed(t) == Ok(v) {
      var start, i := StartIndex(t), StopFrom(t, 0);
      assert t == t[..start] + t[start..i] + t[i..];
      assert Reads(t, t[..start], t[start..i], t[i..]) && v == Bytes(t[start..i], t[i..]);
    }
    forall sign, digits, tail | Reads(t, sign, digits, tail) && v == Bytes(digits, tail)
      ensures ParsedTrimmed(t) == Ok(v)
    {
      ReadingIsFollowed(t, sign, digits, tail);
    }
  }

  lemma ReadingHasLetters(t: string, sign: string, digits: string, tail: string)
    requires Reads(t, sign, digits, tail)
    ensures !AllDigits(t)
  {
    TailStartsOff(tail);
    assert !IsDigit(t[|sign| + |digits|]);
  }

  /** A number without a unit is refused: its last digit is taken for the unit. */
  lemma NumberNeedsUnit(input: string)
    requires AllDigits(TrimSpace(input))
    ensures ParsedUint(input).Err?
  {
    if ParsedUint(input).Ok? {
      var v := ParsedUint(input).value;
      AcceptedTexts(input, v);
      var sign, digits, tail :| Reads(TrimSpace(input), sign, digits, tail) && v == Bytes(digits, tail);
      ReadingHasLetters(TrimSpace(input), sign, digits, tail);
    }
  }

  // ---------------------------------------------------------------------
  // What the parts mean
  // ---------------------------------------------------------------------

  function Power(base: nat, exponent: nat): nat {
    if exponent == 0 then 1 else base * Power(base, exponent - 1)
  }

  const PREFIXES := "KMGTP"

  lemma PrefixedUnits(k: nat)
    requires k < 5
    ensures Multiplier([PREFIXES[k], 'B']) == Some(Power(1000, k + 1))
    ensures Multiplier([PREFIXES[k], 'I', 'B']) == Some(Power(1024, k + 1))
    ensures Multiplier([PREFIXES[k], 'I']) == Some(Power(1024, k + 1))
  {
    PowersOfThousand();
    PowersOfKibi();
  }

  lemma PowersOfThousand()
    ensures Power(1000, 1) == 1000 && Power(1000, 2) == 1000_000 && Power(1000, 3) == 1000_000_000
    ensures Power(1000, 4) == 1000_000_000_000 && Power(1000, 5) == 1000_000_000_000_000
  {
    assert Power(1000, 3) == 1000 * Power(1000, 2);
    assert Power(1000, 4) == 1000 * Power(1000, 3);
  }

  lemma PowersOfKibi()
    ensures Power(1024, 1) == 0x400 && Power(1024, 2) == 0x10_0000 && Power(1024, 3) == 0x4000_0000
    ensures Power(1024, 4) == 0x100_0000_0000 && Power(1024, 5) == 0x4_0000_0000_0000
  {
    assert Power(1024, 3) == 1024 * Power(1024, 2);
    assert Power(1024, 4) == 1024 * Power(1024, 3);
  }

  /** B is one byte, and there is no unit but B and the prefixed ones. */
  lemma NoOtherUnits(unit: string)
    ensures Multiplier("B") == Some(1)
    ensures Multiplier(unit).Some? && unit != "B" ==>
              exists k :: 0 <= k < 5 && unit in {[PREFIXES[k], 'B'], [PREFIXES[k], 'I', 'B'], [PREFIXES[k], 'I']}
  {
    if Multiplier(unit).Some? && unit != "B" {
      var k := if unit[0] == 'K' then 0 else if unit[0] == 'M' then 1 else if unit[0] == 'G' then 2
               else if unit[0] == 'T' then 3 else 4;
      assert PREFIXES[k] == unit[0];
    }
  }

  /** Folding maps the 26 small letters to the capitals 32 places before and nothing else. */
  lemma FoldedLetters(c: char)
    ensures if 97 <= c as int <= 122 then UpperChar(c) as int == c as int - 32 else UpperChar(c) == c
  {
  }

  function Zeros(n: nat): string {
    if n == 0 then "" else "0" + Zeros(n - 1)
  }

  lemma {:induction false} ZerosGrow(n: nat)
    ensures Zeros(n + 1) == Zeros(n) + "0"
  {
    if n > 0 { ZerosGrow(n - 1); }
  }

  /** Any digits are leading zeros before the decimal form of their value. */
  lemma {:induction false} DigitsAreDecimal(s: string) returns (zeros: nat)
    requires s != "" && AllDigits(s)
    ensures s == Zeros(zeros) + Decimal(Value(s))
    decreases |s|
  {
    var init, last := s[..|s| - 1], s[|s| - 1];
    var d := last as int - '0' as int;
    assert s == init + [last] && DigitChar(d) == last;
    if init == "" {
      assert Value(init) == 0;
      zeros := 0;
    } else {
      zeros := DigitsAreDecimal(init);
      if Value(init) == 0 {
        assert Decimal(0) == "0";
        ZerosGrow(zeros);
        zeros := zeros + 1;
      } else {
        assert Value(s) == Value(init) * 10 + d;
        assert Value(s) / 10 == Value(init) && Value(s) % 10 == d;
        assert Decimal(Value(s)) == Decimal(Value(init)) + [last];
      }
    }
  }

  /** Numbers of 64 bits are read, larger ones are refused. */
  lemma NumberRange(s: string, n: nat)
    ensures ParseUint(s) == Some(n) <==> s != "" && AllDigits(s) && Value(s) == n && n < 0x1_0000_0000_0000_0000
  {
  }

  lemma CutTwice(t: string, i: nat, j: nat)
    requires i <= j <= |t|
    ensures t == t[..i] + t[i..j] + t[j..]
  {
    assert t[..i] + t[i..j] == t[..j];
  }

  predicate OptionalSign(sign: string) {
    sign == "" || (|sign| == 1 && IsSign(sign[0]))
  }

  /** A number that can be read in front, and no known unit after it. */
  ghost predicate LacksUnit(t: string) {
    exists sign, digits, tail ::
      && t == sign + digits + tail && OptionalSign(sign)
      && ParseUint(digits).Some? && Multiplier(ToUpper(TrimSpace(tail))).None?
  }

  /** Digits and points in front that are no number. */
  ghost predicate LacksNumber(t: string) {
    exists sign, number, tail ::
      && t == sign + number + tail && OptionalSign(sign) && ParseUint(number).None?
      && forall k :: 0 <= k < |number| ==> IsDigit(number[k]) || number[k] == '.'
  }

  lemma ScanPassesNumber(t: string)
    requires t != "" && StopFrom(t, 0) > 0
    ensures var number := t[StartIndex(t)..StopFrom(t, 0)];
            forall k :: 0 <= k < |number| ==> IsDigit(number[k]) || number[k] == '.'
  {
    var start := StartIndex(t);
    var number := t[start..StopFrom(t, 0)];
    forall k | 0 <= k < |number| ensures IsDigit(number[k]) || number[k] == '.' {
      assert Passed(t, start + k) && number[k] == t[start + k];
    }
  }

  lemma RefusedNumbers(t: string)
    ensures ParsedTrimmed(t) == Err(UnknownUnit) ==> LacksUnit(t)
    ensures ParsedTrimmed(t) == Err(InvalidNumber) ==> LacksNumber(t)
  {
    if t != "" && StopFrom(t, 0) > 0 {
      var start, i := StartIndex(t), StopFrom(t, 0);
      CutTwice(t, start, i);
      ScanPassesNumber(t);
      assert OptionalSign(t[..start]);
    }
  }

  /** What a refused text lacks: a number in front, a number that can be read, or a known unit. */
  lemma RefusedTexts(input: string)
    ensures var t := TrimSpace(input); var r := ParsedUint(input);
            && (r == Err(NoNumericValue) <==> |t| <= 1 || !(IsSign(t[0]) || IsDigit(t[0]) || t[0] == '.'))
            && (r == Err(UnknownUnit) ==> LacksUnit(t))
            && (r == Err(InvalidNumber) ==> LacksNumber(t))
  {
    var t := TrimSpace(input);
    RefusedNumbers(t);
    if |t| > 1 && Passed(t, 0) { assert StopFrom(t, 0) == StopFrom(t, 1) >= 1; }
  }

  // ---------------------------------------------------------------------
  // Letter case
  // ---------------------------------------------------------------------

  lemma {:induction false} UpperTrimsLeft(s: string)
    ensures TrimLeft(ToUpper(s)) == ToUpper(TrimLeft(s))
  {
    if s != "" && IsSpace(s[0]) {
      UpperTrimsLeft(s[1..]);
      assert ToUpper(s)[1..] == ToUpper(s[1..]);
    }
  }

  lemma {:induction false} UpperTrimsRight(s: string)
    ensures TrimRight(ToUpper(s)) == ToUpper(TrimRight(s))
  {
    if s != "" && IsSpace(s[|s| - 1]) {
      UpperTrimsRight(s[..|s| - 1]);
      assert ToUpper(s)[..|s| - 1] == ToUpper(s[..|s| - 1]);
    }
  }

  lemma UpperTrims(s: string)
    ensures TrimSpace(ToUpper(s)) == ToUpper(TrimSpace(s))
  {
    UpperTrimsLeft(s);
    UpperTrimsRight(TrimLeft(s));
  }

  lemma UpperTwice(s: string)
    ensures ToUpper(ToUpper(s)) == ToUpper(s)
  {
  }

  lemma {:induction false} UpperStops(t: string, i: nat)
    requires i < |t|
    ensures StopFrom(ToUpper(t), i) == StopFrom(t, i)
    decreases |t| - i
  {
    assert Passed(ToUpper(t), i) <==> Passed(t, i);
    if i + 1 < |t| { UpperStops(t, i + 1); }
  }

  lemma UpperKeepsResult(s: string)
    ensures ParsedUint(ToUpper(s)) == ParsedUint(s)
  {
    UpperTrims(s);
    var t := TrimSpace(s);
    var u := ToUpper(t);
    if t != "" {
      UpperStops(t, 0);
      var start, i := StartIndex(t), StopFrom(t, 0);
      if i > 0 {
        assert u[start..i] == t[start..i] by {
          assert forall k :: start <= k < i ==> u[k] == UpperChar(t[k]) && Passed(t, k);
        }
        assert u[i..] == ToUpper(t[i..]);
        UpperTrims(t[i..]);
        UpperTwice(TrimSpace(t[i..]));
      }
    }
  }

  /** Texts that differ only in letter case are read alike, refusals included. */
  lemma CaseDoesNotMatter(s: string, s': string)
    requires ToUpper(s) == ToUpper(s')
    ensures ParsedUint(s) == ParsedUint(s')
  {
    UpperKeepsResult(s);
    UpperKeepsResult(s');
  }

  // ---------------------------------------------------------------------
  // Round trips
  // ---------------------------------------------------------------------

  /** A printed unit is one the parser knows by the same size. */
  ghost predicate Known(u: Unit) {
    && u.name != "" && u.name[|u.name| - 1] == 'B'
    && TrimSpace(u.name) == u.name
    && Multiplier(ToUpper(u.name)) == Some(u.size)
  }

  lemma ShortNameIsKnown(u: Unit, upper: string)
    requires 0 < |u.name| <= 3 && u.name[|u.name| - 1] == 'B' && !IsSpace(u.name[0])
    requires |upper| == |u.name| && forall k :: 0 <= k < |upper| ==> UpperChar(u.name[k]) == upper[k]
    requires Multiplier(upper) == Some(u.size)
    ensures Known(u)
  {
    assert ToUpper(u.name) == upper;
    TrimSpaceTrims(u.name);
  }

  lemma ChosenUnitIsPrinted(n: int)
    ensures var u := ChosenUnit(n);
            || u == Unit("B", 1)
            || u == Unit("PB", PETA) || u == Unit("TB", TERA) || u == Unit("GB", GIGA)
            || u == Unit("MB", MEGA) || u == Unit("kB", KILO)
            || u == Unit("PiB", PEBI) || u == Unit("TiB", TEBI) || u == Unit("GiB", GIBI)
            || u == Unit("MiB", MEBI) || u == Unit("kiB", KIBI)
  {
  }

  /** The name of a printed unit in upper case. */
  ghost function UpperName(name: string): string {
    if name == "kB" then "KB"
    else if name == "PiB" then "PIB"
    else if name == "TiB" then "TIB"
    else if name == "GiB" then "GIB"
    else if name == "MiB" then "MIB"
    else if name == "kiB" then "KIB"
    else name
  }

  lemma DecimalUnitsAreKnown(u: Unit)
    requires || u == Unit("B", 1)
             || u == Unit("PB", PETA) || u == Unit("TB", TERA) || u == Unit("GB", GIGA)
             || u == Unit("MB", MEGA) || u == Unit("kB", KILO)
    ensures Known(u)
  {
    ShortNameIsKnown(u, UpperName(u.name));
  }

  lemma BinaryUnitsAreKnown(u: Unit)
    requires || u == Unit("PiB", PEBI) || u == Unit("TiB", TEBI) || u == Unit("GiB", GIBI)
             || u == Unit("MiB", MEBI) || u == Unit("kiB", KIBI)
    ensures Known(u)
  {
    ShortNameIsKnown(u, UpperName(u.name));
  }

  lemma UnitIsKnown(n: int)
    ensures Known(ChosenUnit(n))
  {
    ChosenUnitIsPrinted(n);
    var u := ChosenUnit(n);
    if u.name == "PiB" || u.name == "TiB" || u.name == "GiB" || u.name == "MiB" || u.name == "kiB" {
      BinaryUnitsAreKnown(u);
    } else {
      DecimalUnitsAreKnown(u);
    }
  }

  lemma ProductGrows(q: nat, d: nat)
    requires d > 0
    ensures q <= q * d
  {
  }

  lemma ExactDivision(n: nat, d: nat)
    requires d > 0 && n % d == 0
    ensures n / d >= 0 && n / d * d == n
  {
  }

  lemma ProductSign(q: int, d: nat)
    requires d > 0 && q * d < 0
    ensures q < 0
  {
  }

  lemma NegatedDivision(n: int, d: nat)
    requires d > 0 && n % d == 0 && n < 0
    ensures n / d < 0 && -(n / d) * d == -n
  {
    var q := n / d;
    assert n == q * d;
    ProductSign(q, d);
  }

  lemma UnitEndsInB(u: Unit)
    requires Known(u)
    ensures u.name != "" && u.name[|u.name| - 1] == 'B'
  {
  }

  lemma EndsAreTrimmed(digits: string, name: string)
    requires digits != "" && AllDigits(digits) && name != "" && name[|name| - 1] == 'B'
    ensures TrimSpace(digits + name) == digits + name
  {
    var s := digits + name;
    assert IsDigit(s[0]) && s[|s| - 1] == 'B';
    TrimSpaceTrims(s);
  }

  lemma PrintedIsTrimmed(q: nat, u: Unit)
    requires Known(u)
    ensures TrimSpace(Decimal(q) + u.name) == Decimal(q) + u.name
  {
    DecimalReadsBack(q);
    UnitEndsInB(u);
    EndsAreTrimmed(Decimal(q), u.name);
  }

  lemma PrintedReads(q: nat, u: Unit)
    requires Known(u) && q < TWO64
    ensures Reads(Decimal(q) + u.name, "", Decimal(q), u.name)
    ensures Bytes(Decimal(q), u.name) == q * u.size % TWO64
  {
    DecimalReadsBack(q);
    assert Decimal(q) + u.name == "" + Decimal(q) + u.name;
  }

  lemma TrimmedReadingIsParsed(s: string, digits: string, tail: string, v: nat)
    requires TrimSpace(s) == s && Reads(s, "", digits, tail) && v == Bytes(digits, tail)
    ensures ParsedUint(s) == Ok(v)
  {
    ReadingIsFollowed(s, "", digits, tail);
  }

  lemma PrintedIsRead(q: nat, u: Unit, v: nat)
    requires Known(u) && u.size > 0 && v == q * u.size && v < TWO64
    ensures ParsedUint(Decimal(q) + u.name) == Ok(v)
  {
    PrintedIsTrimmed(q, u);
    ProductGrows(q, u.size);
    PrintedReads(q, u);
    SmallRemainder(v);
    TrimmedReadingIsParsed(Decimal(q) + u.name, Decimal(q), u.name, v);
  }

  lemma SmallRemainder(v: nat)
    requires v < TWO64
    ensures v % TWO64 == v
  {
  }

  lemma NegativeIsRead(whole: string, text: string, n: int)
    requires whole == "-" + text && ParsedUint(text) == Ok(-n) && -0x8000_0000_0000_0000 <= n <= 0
    ensures ParsedInt(whole) == Ok(n)
  {
    assert whole[1..] == text;
  }

  lemma PositiveIsRead(text: string, v: nat)
    requires ParsedUint(text) == Ok(v) && v < 0x8000_0000_0000_0000 && text != "" && text[0] != '-'
    ensures ParsedInt(text) == Ok(v)
  {
  }

  /** Every unsigned 64-bit size reads back as itself. */
  lemma UintRoundTrip(n: nat)
    requires n < TWO64
    ensures ParsedUint(FmtUint64Bytes(n)) == Ok(n)
  {
    var u := ChosenUnit(n);
    UnitIsKnown(n);
    ExactDivision(n, u.size);
    PrintedIsRead(n / u.size, u, n);
  }

  lemma MinusInFront(n: int, u: Unit)
    requires n < 0 && u.size > 0 && n / u.size < 0
    ensures InUnit(n, u) == "-" + (Decimal(-(n / u.size)) + u.name)
  {
  }

  lemma NegatedText(n: int, u: Unit)
    requires n < 0 && u.size > 0 && n % u.size == 0
    ensures -(n / u.size) * u.size == -n && n / u.size < 0
    ensures InUnit(n, u) == "-" + (Decimal(-(n / u.size)) + u.name)
  {
    NegatedDivision(n, u.size);
    MinusInFront(n, u);
  }

  lemma MagnitudeIsRead(n: int, u: Unit)
    requires -0x8000_0000_0000_0000 <= n < 0 && Known(u) && u.size > 0
    requires n / u.size < 0 && -(n / u.size) * u.size == -n
    ensures ParsedUint(Decimal(-(n / u.size)) + u.name) == Ok(-n)
  {
    PrintedIsRead(-(n / u.size), u, -n);
  }

  lemma NegativeInUnit(n: int, u: Unit)
    requires -0x8000_0000_0000_0000 <= n < 0 && Known(u) && u.size > 0 && n % u.size == 0
    ensures ParsedInt(InUnit(n, u)) == Ok(n)
  {
    NegatedText(n, u);
    MagnitudeIsRead(n, u);
    NegativeIsRead(InUnit(n, u), Decimal(-(n / u.size)) + u.name, n);
  }

  lemma PositiveInUnit(n: nat, u: Unit)
    requires n < 0x8000_0000_0000_0000 && Known(u) && u.size > 0 && n % u.size == 0
    ensures ParsedInt(InUnit(n, u)) == Ok(n)
  {
    ExactDivision(n, u.size);
    PrintedIsRead(n / u.size, u, n);
    DecimalReadsBack(n / u.size);
    assert IsDigit(InUnit(n, u)[0]);
    PositiveIsRead(InUnit(n, u), n);
  }

  /** Every signed 64-bit size reads back as itself, the least one by wrapping around twice. */
  lemma IntRoundTrip(n: int)
    requires -0x8000_0000_0000_0000 <= n < 0x8000_0000_0000_0000
    ensures ParsedInt(FmtBytes(n)) == Ok(n)
  {
    UnitIsKnown(n);
    if n < 0 { NegativeInUnit(n, ChosenUnit(n)); } else { PositiveInUnit(n, ChosenUnit(n)); }
  }

  // ---------------------------------------------------------------------
  // The sign
  // ---------------------------------------------------------------------

  lemma {:induction false} TrimRightOfTail(s: string)
    requires s != "" && !IsSpace(s[0])
    ensures TrimRight(s) != "" && TrimRight(s)[1..] == TrimRight(s[1..])
  {
    TrimRightKeepsStart(s);
    if |s| > 1 && IsSpace(s[|s| - 1]) {
      TrimRightOfTail(s[..|s| - 1]);
      assert s[..|s| - 1][1..] == s[1..][..|s| - 2];
    }
  }

  lemma ReadingStart(t: string, sign: string, digits: string, tail: string)
    requires Reads(t, sign, digits, tail)
    ensures |t| >= 2 && (IsSign(t[0]) <==> sign != "") && t[|sign|..] == "" + digits + tail && IsDigit(t[|sign|])
  {
    TailStartsOff(tail);
    assert t[0] == (sign + digits)[0];
    assert t[|sign|] == digits[0];
  }

  lemma TrimAfterMinus(s: string)
    requires s != "" && s[0] == '-'
    requires |TrimSpace(s)| >= 2 && !IsSpace(TrimSpace(s)[1])
    ensures TrimSpace(s[1..]) == TrimSpace(s)[1..]
  {
    TrimRightOfTail(s);
    TrimRightOnlyDrops(s);
    assert TrimSpace(s) == TrimRight(s);
    assert s[1..][0] == s[1] == TrimSpace(s)[1];
  }

  lemma SignlessRest(s: string, v: nat)
    requires s != "" && s[0] == '-' && ParsedUint(s) == Ok(v)
    ensures ParsedUint(s[1..]) == Ok(v)
  {
    AcceptedTexts(s, v);
    var t := TrimSpace(s);
    var sign, digits, tail :| Reads(t, sign, digits, tail) && v == Bytes(digits, tail);
    ReadingStart(t, sign, digits, tail);
    TrimRightKeepsStart(s);
    TrimAfterMinus(s);
    ReadingIsFollowed(t[1..], "", digits, tail);
  }

  lemma {:induction false} TrimRightOnlyDrops(s: string)
    ensures TrimRight(s) <= s
  {
    if s != "" && IsSpace(s[|s| - 1]) { TrimRightOnlyDrops(s[..|s| - 1]); }
  }

  lemma NegatedTwice(v: int)
    requires 0 <= v < TWO64
    ensures Wrap64(-Wrap64(v)) == Wrap64(-v)
    ensures Wrap64(v) == Wrap64(-v) <==> v == 0 || v == 0x8000_0000_0000_0000
  {
  }

  /** The text after the minus sign that the signed parser takes off. */
  function Unsigned(input: string): string {
    if input != "" && input[0] == '-' then input[1..] else input
  }

  /**
   * The signed parser accepts exactly the texts that the unsigned one accepts, with one more minus sign in front
   * or not; only that first minus sign counts, and any sign after it is passed over.
   */
  lemma AcceptedSignedTexts(input: string, v: int)
    ensures ParsedInt(input).Ok? && ParsedInt(input).value == v <==>
            exists sign, digits, tail ::
              && Reads(TrimSpace(Unsigned(input)), sign, digits, tail)
              && v == Wrap64((if Unsigned(input) == input then 1 else -1) * Bytes(digits, tail))
  {
    var rest := Unsigned(input);
    assert input != "" && input[0] == '-' ==> |rest| < |input|;
    forall b: nat ensures ParsedUint(rest) == Ok(b) <==>
      exists sign, digits, tail :: Reads(TrimSpace(rest), sign, digits, tail) && b == Bytes(digits, tail)
    {
      AcceptedTexts(rest, b);
    }
    if ParsedUint(rest).Ok? {
      SignedValue(input, ParsedUint(rest).value);
    }
    forall sign, digits, tail | Reads(TrimSpace(rest), sign, digits, tail)
      ensures ParsedUint(rest) == Ok(Bytes(digits, tail))
    {
      ReadingIsFollowed(TrimSpace(rest), sign, digits, tail);
    }
  }

  lemma SignedValue(input: string, b: int)
    requires 0 <= b && ParsedUint(Unsigned(input)) == Ok(b)
    ensures ParsedInt(input).Ok?
    ensures ParsedInt(input).value == Wrap64((if Unsigned(input) == input then 1 else -1) * b)
  {
    ResultFits(Unsigned(input), b);
    NegatedTwice(b);
    assert input != "" && input[0] == '-' ==> |Unsigned(input)| < |input|;
  }

  /**
   * A minus sign takes effect only as the very first character: after leading space the unsigned parser passes
   * over it and the size comes out positive.
   */
  lemma MinusCountsOnlyInFront(s: string, v: int)
    requires 0 <= v && s != "" && ParsedUint(s) == Ok(v) && TrimSpace(s)[..1] == "-"
    ensures ParsedInt(s).Ok?
    ensures ParsedInt(s).value == Wrap64(-v) <==> s[0] == '-' || v == 0 || v == 0x8000_0000_0000_0000
  {
    ResultFits(s, v);
    NegatedTwice(v);
    if s[0] == '-' {
      SignlessRest(s, v);
    }
  }

  lemma ResultFits(s: string, v: nat)
    requires ParsedUint(s) == Ok(v)
    ensures v < TWO64
  {
  }
}
