/**
 * The dstat probe: it starts dstat, receives its output one line at a time
 * through a closure that numbers the lines, checks the banner (line 0) and the
 * header (line 1), turns every later line into a probe point, and hands the
 * points collected so far to whoever calls `points()`.
 */
module Probes {
  import opened Wrappers
  import opened CharClasses
  import opened JavaDecimal
  import opened UnitDecoder
  import opened LineLayout
  import opened ValuesPattern
  import opened HeaderPattern
  import opened BannerPattern
  import opened RowDecoder
  import opened ProbeConfig

  // ----- The closure's AtomicInteger -----

  const TwoTo31: int := 0x8000_0000
  const TwoTo32: int := 0x1_0000_0000

  /** A Java `int`. */
  type Int32 = x: int | -0x8000_0000 <= x < 0x8000_0000

  /** Two's-complement wrap-around of an integer to 32 bits. */
  function WrapInt32(x: int): Int32 {
    (x + TwoTo31) % TwoTo32 - TwoTo31
  }

  /** The value `getAndIncrement` leaves behind when it returns `n`: `n + 1` in 32-bit arithmetic. */
  function NextCount(n: Int32): Int32 {
    if n == 0x7fff_ffff then -0x8000_0000 else n + 1
  }

  /** Wrapping leaves an `int` unchanged and differs from its argument by a multiple of 2^32. */
  lemma WrapInt32Spec(x: int)
    ensures -TwoTo31 <= x < TwoTo31 ==> WrapInt32(x) == x
    ensures (x - WrapInt32(x)) % TwoTo32 == 0
  {
  }

  /** The increment is the wrap-around of `n + 1`. */
  lemma NextCountSpec(n: Int32)
    ensures NextCount(n) == WrapInt32(n + 1)
  {
  }

  /** The counter after `k` lines, from its initial 0. */
  function CountAfter(k: nat): Int32 {
    WrapInt32(k)
  }

  lemma WrapShift(x: int, q: int)
    ensures WrapInt32(x + q * TwoTo32) == WrapInt32(x)
  {
  }

  /** One more line moves the counter from `CountAfter(k)` to `CountAfter(k + 1)`. */
  lemma CountAfterStep(k: nat)
    ensures NextCount(CountAfter(k)) == CountAfter(k + 1)
  {
    var w := CountAfter(k);
    var q := (k + TwoTo31) / TwoTo32;
    assert w == k - q * TwoTo32;
    NextCountSpec(w);
    WrapShift(k + 1, -q);
  }

  /**
   * Line `k` of dstat's output (counting from 0) is handed to `parseLine` as
   * number `k` for the first 2^31 lines; afterwards the number is negative, and
   * after 2^32 lines it is 0 again.
   */
  lemma CountAfterValues(k: nat)
    ensures k < TwoTo31 ==> CountAfter(k) == k
    ensures TwoTo31 <= k < TwoTo32 ==> CountAfter(k) < 0
    ensures CountAfter(TwoTo32) == 0
  {
  }

  // ----- What parseLine does with one line -----

  /** A `BenchmarkProbePoint`: a time stamp in milliseconds and the values of the columns. */
  datatype ProbePoint = ProbePoint(time: int, values: seq<real>)

  /** The lines the probe prints to the configuration's output and error streams. */
  datatype Message =
    | Started(execCmd: string)                          // "<probe> is started. Command: '<cmd>'."
    | CannotStart(execCmd: string, reason: string)      // "Can not start '<cmd>' process due to exception: ..."
    | Stopped                                           // "<probe> is stopped."
    | UnexpectedFirstLine(line: string)                 // "WARNING: Unexpected first line: ..."
    | HeaderMismatch(line: string)                      // "ERROR: Header line does not match expected header ..."
    | UndecodableLine(line: string, cause: DecodeError) // "ERROR: Can't parse line '...' due to exception: ..."
    | UnparsableLine(line: string)                      // "ERROR: Can't parse line: ..."

  /** The effect of one line: a point collected, a message printed, or nothing. */
  datatype LineOutcome = Collect(point: ProbePoint) | Report(msg: Message) | Quiet

  /** A line after the header, read at time `now`. */
  function DataOutcome(line: string, now: int): LineOutcome {
    match MatchValues(line)
    case None => Report(UnparsableLine(line))
    case Some(groups) =>
      match DecodeRow(groups)
      case Success(values) => Collect(ProbePoint(now, values))
      case Failure(e) => Report(UndecodableLine(line, e))
  }

  /** `parseLine(lineNum, line)`: dispatch on the line number. */
  function Outcome(lineNum: int, line: string, now: int): LineOutcome {
    if lineNum == 0 then
      if MatchBanner(line) then Quiet else Report(UnexpectedFirstLine(line))
    else if lineNum == 1 then
      if MatchHeader(line) then Quiet else Report(HeaderMismatch(line))
    else
      DataOutcome(line, now)
  }

  /** Lines 0 and 1 are checked, never collected. */
  lemma BannerAndHeaderNotCollected(lineNum: int, line: string, now: int)
    requires lineNum == 0 || lineNum == 1
    ensures !Outcome(lineNum, line, now).Collect?
    ensures Outcome(lineNum, line, now).Report? ==>
              Outcome(lineNum, line, now).msg == (if lineNum == 0 then UnexpectedFirstLine(line) else HeaderMismatch(line))
  {
  }

  /** Line 0 passes quietly exactly when it is a dstat banner. */
  lemma BannerOutcome(line: string, now: int)
    ensures Outcome(0, line, now) == Quiet <==> MatchBanner(line)
    ensures Outcome(0, line, now) != Quiet ==> Outcome(0, line, now) == Report(UnexpectedFirstLine(line))
  {
  }

  /** The banner dstat prints, whatever its dash padding, raises no warning. */
  lemma PaddedBannerQuiet(d: seq<nat>, now: int)
    requires |d| == 12
    ensures Outcome(0, BannerText(d), now) == Quiet
  {
    BannerTextMatches(d);
  }

  /** Line 1 passes quietly exactly when its split is the header's layout. */
  lemma HeaderOutcome(line: string, now: int)
    ensures Outcome(1, line, now) == Quiet <==> HeaderShape(Segments(line))
    ensures Outcome(1, line, now) == Quiet ==> Words(line) == HeaderNames
  {
    MatchHeaderSplit(line);
    if MatchHeader(line) {
      HeaderWords(line);
    }
  }

  /**
   * A line after the header is collected exactly when it has the layout of a
   * data line and each of its 18 fields ends in a digit or a magnitude letter.
   */
  lemma DataLineCollectedIff(lineNum: int, line: string, now: int)
    requires lineNum != 0 && lineNum != 1
    ensures Outcome(lineNum, line, now).Collect? <==>
              ValuesShape(Segments(line)) && forall k :: 0 <= k < NumFields ==> KnownUnit(Words(line)[k])
  {
    MatchValuesSplit(line);
    if MatchValues(line).Some? {
      GroupsDecode(line);
    }
  }

  /**
   * A collected point carries the time it was read and one value per column:
   * the column's word decoded, over 1024 for the four memory columns.
   */
  lemma CollectedIsData(lineNum: int, line: string, now: int)
    requires Outcome(lineNum, line, now).Collect?
    ensures lineNum != 0 && lineNum != 1
    ensures MatchValues(line).Some? && DecodeRow(MatchValues(line).value).Success?
    ensures Outcome(lineNum, line, now).point == ProbePoint(now, DecodeRow(MatchValues(line).value).value)
  {
  }

  lemma CollectedPoint(lineNum: int, line: string, now: int, k: nat)
    requires Outcome(lineNum, line, now).Collect? && k < NumFields
    ensures Outcome(lineNum, line, now).point.time == now
    ensures |Outcome(lineNum, line, now).point.values| == NumFields
    ensures |Words(line)| == NumFields && ParseValueWithUnit(Words(line)[k]).Success?
    ensures Outcome(lineNum, line, now).point.values[k] ==
              ColumnValue(ParseValueWithUnit(Words(line)[k]).value, k)
  {
    CollectedIsData(lineNum, line, now);
    MatchValuesSplit(line);
    var g := MatchValues(line).value;
    MatchValuesGroups(line);
    DecodeRowValues(g, k);
  }

  /** A line that matches VALUES_PAT but does not decode reports the first failing field's error. */
  lemma UndecodableOutcome(lineNum: int, line: string, now: int)
    requires lineNum != 0 && lineNum != 1
    requires MatchValues(line).Some? && DecodeRow(MatchValues(line).value).Failure?
    ensures |Words(line)| == NumFields && FirstFailure(ParseValueWithUnit, Words(line)) < NumFields
    ensures Outcome(lineNum, line, now) ==
              Report(UndecodableLine(line, ParseValueWithUnit(Words(line)[FirstFailure(ParseValueWithUnit, Words(line))]).error))
  {
    MatchValuesSplit(line);
    MatchValuesGroups(line);
    DecodeColumnsFailure(ParseValueWithUnit, Words(line), 0);
  }

  /** After the header, a line without exactly 18 words is reported as unparsable. */
  lemma WrongFieldCountOutcome(lineNum: int, line: string, now: int)
    requires lineNum != 0 && lineNum != 1
    requires |Words(line)| != NumFields
    ensures Outcome(lineNum, line, now) == Report(UnparsableLine(line))
  {
    WrongFieldCountRejected(line);
  }

  /** After the header, a line whose separator after field `k` has a bar where VALUES_PAT has none, or none where it has one, is reported as unparsable. */
  lemma MisplacedBarOutcome(lineNum: int, line: string, now: int, k: nat)
    requires lineNum != 0 && lineNum != 1
    requires k < NumFields - 1 && |Segments(line)| == 2 * NumFields + 1
    requires Count(Segments(line)[2 * k + 2], '|') != if BarAfter(k) then 1 else 0
    ensures Outcome(lineNum, line, now) == Report(UnparsableLine(line))
  {
    MatchedSeparators(line, k);
  }

  /** A header repeated after line 1 is reported as unparsable, not collected. */
  lemma RepeatedHeaderOutcome(lineNum: int, line: string, now: int)
    requires lineNum != 0 && lineNum != 1
    requires MatchHeader(line)
    ensures Outcome(lineNum, line, now) == Report(UnparsableLine(line))
  {
    if MatchValues(line).Some? {
      DataLineIsNotHeader(line);
    }
  }

  /**
   * A line with the data layout whose 18 words each end in a digit or a
   * magnitude letter is collected: value k is word k decoded, over 1024 for the
   * memory columns.
   */
  lemma DataLineCollected(lineNum: int, line: string, now: int)
    requires lineNum != 0 && lineNum != 1
    requires ValuesShape(Segments(line)) && |Words(line)| == NumFields
    requires forall k :: 0 <= k < NumFields ==> KnownUnit(Words(line)[k])
    ensures Outcome(lineNum, line, now).Collect?
    ensures Outcome(lineNum, line, now).point.time == now
    ensures |Outcome(lineNum, line, now).point.values| == NumFields
    ensures forall k :: 0 <= k < NumFields ==>
              ParseValueWithUnit(Words(line)[k]).Success? &&
              Outcome(lineNum, line, now).point.values[k] == ColumnValue(ParseValueWithUnit(Words(line)[k]).value, k)
  {
    DataLineCollectedIff(lineNum, line, now);
    CollectedPoint(lineNum, line, now, 0);
    forall k | 0 <= k < NumFields
      ensures ParseValueWithUnit(Words(line)[k]).Success? &&
              Outcome(lineNum, line, now).point.values[k] == ColumnValue(ParseValueWithUnit(Words(line)[k]).value, k)
    {
      CollectedPoint(lineNum, line, now, k);
    }
  }

  /** The line dstat prints for 18 numeric tokens has the data layout, and its words are the tokens. */
  lemma PrintedLineLayout(fs: seq<string>)
    requires |fs| == NumFields && forall k :: 0 <= k < NumFields ==> IsToken(fs[k])
    ensures ValuesShape(Segments(Concat(PrintedRuns(fs))))
    ensures Words(Concat(PrintedRuns(fs))) == fs
  {
    PrintedRunsShape(fs);
    ValuesLayoutMatches(PrintedRuns(fs));
  }

  /** The fields of a data line: the four memory columns in kilobytes, every other column zero. */
  const ExampleFields: seq<string> := ["1024k", "512k", "256k", "2048k"] + seq(14, _ => "0")

  /** The data line `1024k 512k 256k 2048k| 0 0 0 0 0 0| 0 0| 0 0| 0 0| 0 0`, in the pieces its runs group into. */
  const ExampleLine: string :=
    "1024k 512k" + " 256k 2048k" + "| 0 0" + " 0 0" + " 0 0" + "| 0 0" + "| 0 0" + "| 0 0" + "| 0 0"

  /** The values of the point read from `ExampleLine`. */
  const ExampleValues: seq<real> := [1024.0, 512.0, 256.0, 2048.0] + seq(14, _ => 0.0)

  /**
   * A whole data line read after the header: VALUES_PAT matches it, every field
   * decodes, and the memory columns are stored in units of 1024.
   */
  lemma DataLineExample(now: int)
    ensures Outcome(2, ExampleLine, now) == Collect(ProbePoint(now, ExampleValues))
  {
    ExampleLineText();
    ExampleFieldsTokens();
    forall k | 0 <= k < NumFields
      ensures ParseValueWithUnit(ExampleFields[k]).Success?
      ensures ColumnValue(ParseValueWithUnit(ExampleFields[k]).value, k) == ExampleValues[k]
    {
      ExampleValue(k);
    }
    PrintedLineOutcome(2, ExampleFields, ExampleValues, now);
  }

  /**
   * After the header, the line dstat prints for 18 tokens with known units
   * gives the point whose values are the tokens' column values.
   */
  lemma PrintedLineOutcome(lineNum: int, fs: seq<string>, vs: seq<real>, now: int)
    requires lineNum != 0 && lineNum != 1
    requires |fs| == NumFields && forall k :: 0 <= k < NumFields ==> IsToken(fs[k]) && KnownUnit(fs[k])
    requires |vs| == NumFields
    requires forall k :: 0 <= k < NumFields ==>
               ParseValueWithUnit(fs[k]).Success? && ColumnValue(ParseValueWithUnit(fs[k]).value, k) == vs[k]
    ensures Outcome(lineNum, Concat(PrintedRuns(fs)), now) == Collect(ProbePoint(now, vs))
  {
    PrintedLineLayout(fs);
    CollectedValues(lineNum, Concat(PrintedRuns(fs)), vs, now);
  }

  /** A data line whose column values are `vs` gives the point of `vs`. */
  lemma CollectedValues(lineNum: int, line: string, vs: seq<real>, now: int)
    requires lineNum != 0 && lineNum != 1
    requires ValuesShape(Segments(line)) && |Words(line)| == NumFields
    requires forall k :: 0 <= k < NumFields ==> KnownUnit(Words(line)[k])
    requires |vs| == NumFields
    requires forall k :: 0 <= k < NumFields ==>
               ParseValueWithUnit(Words(line)[k]).Success? &&
               ColumnValue(ParseValueWithUnit(Words(line)[k]).value, k) == vs[k]
    ensures Outcome(lineNum, line, now) == Collect(ProbePoint(now, vs))
  {
    DataLineCollected(lineNum, line, now);
    assert Outcome(lineNum, line, now).point.values == vs;
  }

  /** Column `k` of the example point: the field decoded, over 1024 for the memory columns. */
  lemma ExampleValue(k: nat)
    requires k < NumFields
    ensures ParseValueWithUnit(ExampleFields[k]).Success?
    ensures ColumnValue(ParseValueWithUnit(ExampleFields[k]).value, k) == ExampleValues[k]
  {
    if k == 0 {
      MemoryFieldValue(k, 1024, "1024k");
      Digits1024();
    } else if k == 1 {
      MemoryFieldValue(k, 512, "512k");
      Digits512();
    } else if k == 2 {
      MemoryFieldValue(k, 256, "256k");
      Digits256();
    } else if k == 3 {
      MemoryFieldValue(k, 2048, "2048k");
      Digits2048();
    } else {
      assert ExampleFields[k] == "0" && ExampleValues[k] == 0.0;
      ZeroToken();
    }
  }

  /** A memory field of the example, `n` kilobytes, is stored as `n`. */
  lemma MemoryFieldValue(k: nat, n: nat, text: string)
    requires k < 4 && ExampleFields[k] == text && ExampleValues[k] == n as real
    requires text == NatToDigits(n) + ['k']
    ensures ParseValueWithUnit(ExampleFields[k]).Success?
    ensures ColumnValue(ParseValueWithUnit(ExampleFields[k]).value, k) == ExampleValues[k]
  {
    KiloToken(n, text);
  }

  /** Each example field is a numeric token ending in a digit or a magnitude letter. */
  lemma ExampleFieldsTokens()
    ensures forall k :: 0 <= k < NumFields ==> IsToken(ExampleFields[k]) && KnownUnit(ExampleFields[k])
  {
    forall k | 0 <= k < NumFields
      ensures IsToken(ExampleFields[k]) && KnownUnit(ExampleFields[k])
    {
      if k == 0 {
        Digits1024();
        KiloToken(1024, "1024k");
      } else if k == 1 {
        Digits512();
        KiloToken(512, "512k");
      } else if k == 2 {
        Digits256();
        KiloToken(256, "256k");
      } else if k == 3 {
        Digits2048();
        KiloToken(2048, "2048k");
      } else {
        assert ExampleFields[k] == "0";
        ZeroToken();
      }
    }
  }

  /** The digits of `n` followed by `k` form a token that decodes to `n` kilobytes. */
  lemma KiloToken(n: nat, text: string)
    requires text == NatToDigits(n) + ['k']
    ensures IsToken(text) && KnownUnit(text)
    ensures ParseValueWithUnit(text) == Success(n as real * 1024.0)
  {
    assert text[..|text| - 1] == NatToDigits(n);
    DecodeNatTextWithUnit(n, 'k');
  }

  lemma ZeroToken()
    ensures IsToken("0") && KnownUnit("0")
    ensures ParseValueWithUnit("0") == Success(0.0)
  {
    assert NatToDigits(0) == "0";
    DecodeNatText(0);
  }

  lemma Digits512()
    ensures NatToDigits(512) + ['k'] == "512k"
  {
    assert NatToDigits(51) == NatToDigits(5) + ['1'];
    assert NatToDigits(512) == NatToDigits(51) + ['2'];
  }

  lemma Digits256()
    ensures NatToDigits(256) + ['k'] == "256k"
  {
    assert NatToDigits(25) == NatToDigits(2) + ['5'];
    assert NatToDigits(256) == NatToDigits(25) + ['6'];
  }

  lemma Digits2048()
    ensures NatToDigits(2048) + ['k'] == "2048k"
  {
    assert NatToDigits(20) == NatToDigits(2) + ['0'];
    assert NatToDigits(204) == NatToDigits(20) + ['4'];
    assert NatToDigits(2048) == NatToDigits(204) + ['8'];
  }

  // The runs of `ExampleLine`, four at a time.
  const MemoryRunsA: seq<string> := ["", "1024k", " ", "512k"]
  const MemoryRunsB: seq<string> := [" ", "256k", " ", "2048k"]
  const BarPairRuns: seq<string> := ["| ", "0", " ", "0"]
  const SpacePairRuns: seq<string> := [" ", "0", " ", "0"]

  lemma ExampleRunsHead()
    ensures PrintedRuns(ExampleFields)[..8] == MemoryRunsA + MemoryRunsB
  {
  }

  lemma ExampleRunsCpu()
    ensures PrintedRuns(ExampleFields)[8..16] == BarPairRuns + SpacePairRuns
    ensures PrintedRuns(ExampleFields)[16..24] == SpacePairRuns + BarPairRuns
  {
  }

  lemma ExampleRunsRest()
    ensures PrintedRuns(ExampleFields)[24..32] == BarPairRuns + BarPairRuns
    ensures PrintedRuns(ExampleFields)[32..] == BarPairRuns + [""]
  {
  }

  lemma ExampleRunsText()
    ensures Concat(MemoryRunsA + MemoryRunsB) == "1024k 512k" + " 256k 2048k"
    ensures Concat(BarPairRuns + SpacePairRuns) == "| 0 0" + " 0 0"
    ensures Concat(SpacePairRuns + BarPairRuns) == " 0 0" + "| 0 0"
    ensures Concat(BarPairRuns + BarPairRuns) == "| 0 0" + "| 0 0"
    ensures Concat(BarPairRuns + [""]) == "| 0 0"
  {
    var a, b, c, d := MemoryRunsA, MemoryRunsB, BarPairRuns, SpacePairRuns;
    assert Concat(a) == "1024k 512k" && Concat(b) == " 256k 2048k";
    assert Concat(c) == "| 0 0" && Concat(d) == " 0 0" && Concat([""]) == "";
    ConcatAppend(a, b);
    ConcatAppend(c, d);
    ConcatAppend(d, c);
    ConcatAppend(c, c);
    ConcatAppend(c, [""]);
  }

  /** The runs of the example fields, as dstat prints them, spell `ExampleLine`. */
  lemma ExampleLineText()
    ensures Concat(PrintedRuns(ExampleFields)) == ExampleLine
  {
    ExampleRunsHead();
    ExampleRunsCpu();
    ExampleRunsRest();
    RunsSpellExample(PrintedRuns(ExampleFields));
  }

  /** Runs grouped as the example's spell `ExampleLine`. */
  lemma RunsSpellExample(s: seq<string>)
    requires |s| == 37
    requires s[..8] == MemoryRunsA + MemoryRunsB
    requires s[8..16] == BarPairRuns + SpacePairRuns && s[16..24] == SpacePairRuns + BarPairRuns
    requires s[24..32] == BarPairRuns + BarPairRuns && s[32..] == BarPairRuns + [""]
    ensures Concat(s) == ExampleLine
  {
    CutFive(s, 8, 16, 24, 32);
    ConcatFive(s[..8], s[8..16], s[16..24], s[24..32], s[32..]);
    ExampleRunsText();
  }

  lemma CutFive<T>(s: seq<T>, i: nat, j: nat, k: nat, l: nat)
    requires i <= j <= k <= l <= |s|
    ensures s == s[..i] + s[i..j] + s[j..k] + s[k..l] + s[l..]
  {
  }

  lemma ConcatFive(p0: seq<string>, p1: seq<string>, p2: seq<string>, p3: seq<string>, p4: seq<string>)
    ensures Concat(p0 + p1 + p2 + p3 + p4) == Concat(p0) + Concat(p1) + Concat(p2) + Concat(p3) + Concat(p4)
  {
    ConcatAppend(p0, p1);
    ConcatAppend(p0 + p1, p2);
    ConcatAppend(p0 + p1 + p2, p3);
    ConcatAppend(p0 + p1 + p2 + p3, p4);
  }

  // ----- A stream of lines -----

  function PointsOf(o: LineOutcome): seq<ProbePoint> {
    if o.Collect? then [o.point] else []
  }

  /**
   * The points collected when `handle` reads `lines`, at `times`, with the
   * counter at `n` before the first line. The stream lemmas are stated for any
   * line handler, so that they do not depend on how a single line is read.
   */
  function PointsBy(handle: (int, string, int) -> LineOutcome, n: Int32, lines: seq<string>, times: seq<int>): (r: seq<ProbePoint>)
    requires |times| == |lines|
    ensures |r| <= |lines|
    decreases |lines|
  {
    if lines == [] then []
    else PointsOf(handle(n, lines[0], times[0])) + PointsBy(handle, NextCount(n), lines[1..], times[1..])
  }

  /** The points collected when `read` reads every one of `lines` as a data line. */
  function DataPointsBy(read: (string, int) -> LineOutcome, lines: seq<string>, times: seq<int>): seq<ProbePoint>
    requires |times| == |lines|
    decreases |lines|
  {
    if lines == [] then []
    else PointsOf(read(lines[0], times[0])) + DataPointsBy(read, lines[1..], times[1..])
  }

  /** The points the probe collects from `lines`, read at `times`, with the counter at `n` before the first. */
  function StreamPoints(n: Int32, lines: seq<string>, times: seq<int>): (r: seq<ProbePoint>)
    requires |times| == |lines|
    ensures |r| <= |lines|
  {
    PointsBy(Outcome, n, lines, times)
  }

  /** The points of `lines` all read as data lines. */
  function DataPoints(lines: seq<string>, times: seq<int>): seq<ProbePoint>
    requires |times| == |lines|
  {
    DataPointsBy(DataOutcome, lines, times)
  }

  /** A handler that reads every line from counter 2 on as a data line yields the data points, while the counter does not wrap. */
  lemma {:induction false} DataFromTwo(handle: (int, string, int) -> LineOutcome, read: (string, int) -> LineOutcome,
                                        n: Int32, lines: seq<string>, times: seq<int>)
    requires |times| == |lines|
    requires 2 <= n && n + |lines| <= TwoTo31
    requires forall k: int, line: string, now: int :: 2 <= k ==> handle(k, line, now) == read(line, now)
    ensures PointsBy(handle, n, lines, times) == DataPointsBy(read, lines, times)
    decreases |lines|
  {
    if lines != [] {
      var line, now := lines[0], times[0];
      assert handle(n, line, now) == read(line, now);
      if |lines| > 1 {
        assert NextCount(n) == n + 1;
        DataFromTwo(handle, read, n + 1, lines[1..], times[1..]);
      } else {
        assert lines[1..] == [] && times[1..] == [];
        assert PointsBy(handle, NextCount(n), lines[1..], times[1..]) == [];
        assert DataPointsBy(read, lines[1..], times[1..]) == [];
      }
    }
  }

  /** From counter 2 on, `parseLine` reads every line as a data line. */
  lemma OutcomeAfterHeader()
    ensures forall k: int, line: string, now: int :: 2 <= k ==> Outcome(k, line, now) == DataOutcome(line, now)
  {
  }

  /** From counter 2 on, and while the counter does not wrap, the probe collects exactly the data points of its lines. */
  lemma StreamOfData(n: Int32, lines: seq<string>, times: seq<int>)
    requires |times| == |lines|
    requires 2 <= n && n + |lines| <= TwoTo31
    ensures StreamPoints(n, lines, times) == DataPoints(lines, times)
  {
    OutcomeAfterHeader();
    DataFromTwo(Outcome, DataOutcome, n, lines, times);
  }

  /**
   * Over dstat's first 2^31 lines, the points collected are those of the data
   * lines from the third line on, in order: nothing from the banner or the
   * header, nothing lost, nothing reordered.
   */
  lemma StreamFromStart(lines: seq<string>, times: seq<int>)
    requires |times| == |lines| && 2 <= |lines| <= TwoTo31
    ensures StreamPoints(0, lines, times) == DataPoints(lines[2..], times[2..])
  {
    var rest, restTimes := lines[1..], times[1..];
    assert rest[1..] == lines[2..] && restTimes[1..] == times[2..];
    BannerAndHeaderNotCollected(0, lines[0], times[0]);
    BannerAndHeaderNotCollected(1, rest[0], restTimes[0]);
    SkipBy(Outcome, 0, lines, times);
    SkipBy(Outcome, 1, rest, restTimes);
    StreamOfData(2, lines[2..], times[2..]);
  }

  /** A line that is not collected adds nothing to the stream's points. */
  lemma SkipBy(handle: (int, string, int) -> LineOutcome, n: Int32, lines: seq<string>, times: seq<int>)
    requires |times| == |lines| && |lines| > 0
    requires !handle(n, lines[0], times[0]).Collect?
    ensures PointsBy(handle, n, lines, times) == PointsBy(handle, NextCount(n), lines[1..], times[1..])
  {
    EmptyAppend(PointsBy(handle, NextCount(n), lines[1..], times[1..]));
  }

  lemma EmptyAppend<T>(x: seq<T>)
    ensures [] + x == x
  {
  }

  // ----- The probe and its closure -----

  /**
   * The buffer and the output stream go from `c0`, `out0` to `c1`, `out1` as
   * outcome `o` says: a collected point is appended to the buffer, a message
   * to the output, and nothing else changes.
   */
  predicate Applied(o: LineOutcome, c0: seq<ProbePoint>, c1: seq<ProbePoint>, out0: seq<Message>, out1: seq<Message>) {
    match o
    case Collect(p) => c1 == c0 + [p] && out1 == out0
    case Report(msg) => c1 == c0 && out1 == out0 + [msg]
    case Quiet => c1 == c0 && out1 == out0
  }

  /** `DStatProbe`: its configuration, its launcher, and the buffer of collected points. */
  class DStatProbe {
    /** The configuration's custom properties. */
    var props: map<string, string>
    /** `proc != null`: `start` has created the process launcher. */
    var hasProcess: bool
    /** `collected`: the points not yet handed out. */
    var collected: seq<ProbePoint>
    /** What was printed to `cfg.output()` and to `cfg.error()`. */
    var output: seq<Message>
    var errors: seq<Message>

    /** Every point ever collected, and every point handed out by `Points`. */
    ghost var history: seq<ProbePoint>
    ghost var drained: seq<ProbePoint>

    /** No point is lost or reordered: those handed out, then those waiting, are all that were collected. */
    ghost predicate Valid()
      reads this
    {
      history == drained + collected
    }

    constructor()
      ensures Valid()
      ensures props == map[] && !hasProcess
      ensures collected == [] && output == [] && errors == []
      ensures history == [] && drained == []
    {
      props := map[];
      hasProcess := false;
      collected := [];
      output := [];
      errors := [];
      history := [];
      drained := [];
    }

    /** `collectPoint`: appends one point to the buffer. */
    method CollectPoint(p: ProbePoint)
      requires Valid()
      modifies this
      ensures Valid()
      ensures collected == old(collected) + [p]
      ensures history == old(history) + [p] && drained == old(drained)
      ensures props == old(props) && hasProcess == old(hasProcess)
      ensures output == old(output) && errors == old(errors)
    {
      collected := collected + [p];
      history := history + [p];
    }

    /** `points()`: hands out the buffered points, oldest first, and starts an empty buffer. */
    method Points() returns (ret: seq<ProbePoint>)
      requires Valid()
      modifies this
      ensures Valid()
      ensures ret == old(collected) && collected == []
      ensures drained == old(drained) + ret && history == old(history)
      ensures props == old(props) && hasProcess == old(hasProcess)
      ensures output == old(output) && errors == old(errors)
    {
      ret := collected;
      collected := [];
      drained := drained + ret;
    }

    /** `parseLine(lineNum, line)`, with `now` for `System.currentTimeMillis()`. */
    method ParseLine(lineNum: int, line: string, now: int)
      requires Valid()
      modifies this
      ensures Valid()
      ensures Applied(Outcome(lineNum, line, now), old(collected), collected, old(output), output)
      ensures drained == old(drained) && errors == old(errors)
      ensures props == old(props) && hasProcess == old(hasProcess)
    {
      if lineNum == 0 {
        if !MatchBanner(line) {
          output := output + [UnexpectedFirstLine(line)];
        }
      } else if lineNum == 1 {
        if !MatchHeader(line) {
          output := output + [HeaderMismatch(line)];
        }
      } else {
        ParseDataLine(line, now);
      }
    }

    /** The data-line branch of `parseLine`: match VALUES_PAT, decode the groups, collect the point. */
    method ParseDataLine(line: string, now: int)
      requires Valid()
      modifies this
      ensures Valid()
      ensures Applied(DataOutcome(line, now), old(collected), collected, old(output), output)
      ensures drained == old(drained) && errors == old(errors)
      ensures props == old(props) && hasProcess == old(hasProcess)
    {
      ghost var o := DataOutcome(line, now);
      var m := MatchValues(line);
      if m.Some? {
        var values := DecodeRow(m.value);
        if values.Success? {
          assert o == Collect(ProbePoint(now, values.value));
          CollectPoint(ProbePoint(now, values.value));
        } else {
          assert o == Report(UndecodableLine(line, values.error));
          output := output + [UndecodableLine(line, values.error)];
        }
      } else {
        assert o == Report(UnparsableLine(line));
        output := output + [UnparsableLine(line)];
      }
    }

    /**
     * `start(cfg)`: builds the command from the configuration and a fresh line
     * closure with its counter at 0. `execFailure` is the message of the
     * exception `exec` threw, if it threw one.
     */
    method Start(cfgProps: map<string, string>, execFailure: Option<string>) returns (cmd: seq<string>, feed: LineFeed)
      requires Valid()
      modifies this
      ensures Valid()
      ensures cmd == Command(cfgProps) && cmd[0] == Path(cfgProps) && cmd[1..] == Options(cfgProps)
      ensures fresh(feed) && feed.probe == this && feed.lineNum == 0
      ensures props == cfgProps && hasProcess
      ensures execFailure.None? ==> output == old(output) + [Started(ExecCmd(cmd))] && errors == old(errors)
      ensures execFailure.Some? ==>
                errors == old(errors) + [CannotStart(ExecCmd(cmd), execFailure.value)] && output == old(output)
      ensures collected == old(collected) && history == old(history) && drained == old(drained)
    {
      props := cfgProps;
      feed := new LineFeed(this);
      hasProcess := true;
      cmd := [Path(props)] + Options(props);
      var execCmd := ExecCmd(cmd);
      if execFailure.None? {
        output := output + [Started(execCmd)];
      } else {
        errors := errors + [CannotStart(execCmd, execFailure.value)];
      }
    }

    /** `stop()`: once a launcher exists, shuts it down and says so. */
    method Stop()
      requires Valid()
      modifies this
      ensures Valid()
      ensures output == if old(hasProcess) then old(output) + [Stopped] else old(output)
      ensures props == old(props) && hasProcess == old(hasProcess) && errors == old(errors)
      ensures collected == old(collected) && history == old(history) && drained == old(drained)
    {
      if hasProcess {
        output := output + [Stopped];
      }
    }
  }

  /**
   * Two points collected, then two drains: the first drain returns both in
   * order, the second returns nothing.
   */
  method DrainTwice(a: ProbePoint, b: ProbePoint) returns (first: seq<ProbePoint>, second: seq<ProbePoint>)
    ensures first == [a, b] && second == []
  {
    var probe := new DStatProbe();
    probe.CollectPoint(a);
    probe.CollectPoint(b);
    first := probe.Points();
    second := probe.Points();
  }

  /** The closure `start` hands to the launcher: numbers each line and passes it to `parseLine`. */
  class LineFeed {
    /** The `AtomicInteger` holding the number of the next line. */
    var lineNum: Int32
    const probe: DStatProbe

    constructor(p: DStatProbe)
      ensures probe == p && lineNum == 0
    {
      probe := p;
      lineNum := 0;
    }

    /** `apply(s)`: `parseLine(lineNum.getAndIncrement(), s)`. */
    method Apply(line: string, now: int)
      requires probe.Valid()
      modifies this, probe
      ensures probe.Valid()
      ensures lineNum == NextCount(old(lineNum))
      ensures Applied(Outcome(old(lineNum), line, now), old(probe.collected), probe.collected, old(probe.output), probe.output)
      ensures probe.drained == old(probe.drained) && probe.errors == old(probe.errors)
      ensures probe.props == old(probe.props) && probe.hasProcess == old(probe.hasProcess)
    {
      var n := lineNum;
      lineNum := NextCount(n);
      probe.ParseLine(n, line, now);
    }
  }
}
