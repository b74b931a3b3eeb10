/**
 * The values of one probe point: the 18 groups of a data line, each decoded
 * with `parseValueWithUnit`, the four memory columns divided by 1024 (bytes to
 * kilobytes). The array literal is evaluated left to right, so the first group
 * that fails to decode is the one whose exception is reported.
 */
module RowDecoder {
  import opened Wrappers
  import opened CharClasses
  import opened JavaDecimal
  import opened UnitDecoder
  import opened LineLayout
  import opened ValuesPattern

  /** The memory columns `used`, `buff`, `cach`, `free` come first. */
  const MemoryColumns: nat := 4

  /** The value stored for column `col` when its group decodes to `v`. */
  function ColumnValue(v: real, col: nat): real {
    if col < MemoryColumns then v / 1024.0 else v
  }

  /**
   * Decodes `toks` with `decode`, the first of them being column `col`, stopping
   * at the first failure. The probe uses `decode` = `ParseValueWithUnit`; the
   * lemmas below hold for any decoding function.
   */
  function DecodeColumns<E>(decode: string -> Result<real, E>, toks: seq<string>, col: nat): (r: Result<seq<real>, E>)
    decreases |toks|
  {
    if toks == [] then Success([])
    else
      match decode(toks[0])
      case Failure(e) => Failure(e)
      case Success(v) =>
        match DecodeColumns(decode, toks[1..], col + 1)
        case Failure(e) => Failure(e)
        case Success(vs) => Success([ColumnValue(v, col)] + vs)
  }

  /** The `double[]` of one probe point, from the groups of a matched line. */
  function DecodeRow(groups: seq<string>): Result<seq<real>, DecodeError> {
    DecodeColumns(ParseValueWithUnit, groups, 0)
  }

  /** Every token decodes. */
  predicate AllDecode<E>(decode: string -> Result<real, E>, toks: seq<string>) {
    forall i :: 0 <= i < |toks| ==> decode(toks[i]).Success?
  }

  /**
   * Decoding succeeds exactly when every group decodes, and then yields one
   * value per group, in order, each the group's decoding scaled for its column.
   */
  lemma {:induction false} DecodeColumnsSuccess<E>(decode: string -> Result<real, E>, toks: seq<string>, col: nat)
    ensures DecodeColumns(decode, toks, col).Success? <==> AllDecode(decode, toks)
    ensures DecodeColumns(decode, toks, col).Success? ==>
              && |DecodeColumns(decode, toks, col).value| == |toks|
              && forall i :: 0 <= i < |toks| ==>
                   DecodeColumns(decode, toks, col).value[i] == ColumnValue(decode(toks[i]).value, col + i)
    decreases |toks|
  {
    if toks != [] {
      var tail := toks[1..];
      DecodeColumnsSuccess(decode, tail, col + 1);
      assert forall i :: 1 <= i < |toks| ==> toks[i] == tail[i - 1];
      if DecodeColumns(decode, toks, col).Success? {
        var vs := DecodeColumns(decode, toks, col).value;
        assert vs[0] == ColumnValue(decode(toks[0]).value, col);
        assert vs[1..] == DecodeColumns(decode, tail, col + 1).value;
      }
    }
  }

  /** The index of the first token that fails to decode, or `|toks|` if none does. */
  function FirstFailure<E>(decode: string -> Result<real, E>, toks: seq<string>): (k: nat)
    ensures k <= |toks|
    ensures forall i :: 0 <= i < k ==> decode(toks[i]).Success?
    ensures k < |toks| ==> decode(toks[k]).Failure?
  {
    if toks == [] || decode(toks[0]).Failure? then 0 else 1 + FirstFailure(decode, toks[1..])
  }

  /** A failed decoding carries the error of the first token that fails. */
  lemma {:induction false} DecodeColumnsFailure<E>(decode: string -> Result<real, E>, toks: seq<string>, col: nat)
    ensures DecodeColumns(decode, toks, col).Failure? <==> FirstFailure(decode, toks) < |toks|
    ensures DecodeColumns(decode, toks, col).Failure? ==>
              DecodeColumns(decode, toks, col).error == decode(toks[FirstFailure(decode, toks)]).error
    decreases |toks|
  {
    if toks != [] && decode(toks[0]).Success? {
      var tail := toks[1..];
      DecodeColumnsFailure(decode, tail, col + 1);
      if FirstFailure(decode, tail) < |tail| {
        assert tail[FirstFailure(decode, tail)] == toks[FirstFailure(decode, toks)];
      }
    }
  }

  /** A numeral followed by a digit is still a numeral. */
  lemma NumeralExtend(c: string, d: char)
    requires IsNumeral(c) && IsDigit(d)
    ensures IsNumeral(c + [d])
  {
    var t := c + [d];
    if !(|c| > 0 && AllDigits(c)) {
      var k := IndexOf(c, '.');
      assert t[..k] == c[..k];
      assert IndexOf(t, '.') == k by { IndexOfPrefix(c, [d], '.'); }
      assert t[k + 1..] == c[k + 1..] + [d];
    }
  }

  lemma {:induction false} IndexOfPrefix(a: string, b: string, c: char)
    requires IndexOf(a, c) < |a|
    ensures IndexOf(a + b, c) == IndexOf(a, c)
    decreases |a|
  {
    if a[0] != c {
      IndexOfPrefix(a[1..], b, c);
      assert (a + b)[1..] == a[1..] + b;
    }
  }

  /** A numeral ends in a digit. */
  lemma NumeralLast(c: string)
    requires IsNumeral(c)
    ensures |c| > 0 && IsDigit(c[|c| - 1])
  {
    if !(|c| > 0 && AllDigits(c)) {
      var k := IndexOf(c, '.');
      assert c[|c| - 1] == c[k + 1..][|c| - k - 2];
    }
  }

  /** `Double.parseDouble` accepts every numeral of VALUES_PAT. */
  lemma NumeralParses(c: string)
    requires IsNumeral(c)
    ensures ParseDouble(c).Some?
  {
    if |c| > 0 && AllDigits(c) {
      ParseDoubleDigits(c);
    } else {
      var k := IndexOf(c, '.');
      var ip, fp := c[..k], c[k + 1..];
      assert c == ip + "." + fp;
      ParseDoublePointed(ip, fp);
    }
  }

  /**
   * A field of a matched line decodes exactly when it ends in a digit or in one
   * of the magnitude letters B, k, M, G; any other trailing word character is
   * an unknown unit.
   */
  lemma TokenDecodes(t: string)
    requires IsToken(t)
    ensures ParseValueWithUnit(t).Success? <==> IsDigit(t[|t| - 1]) || UnitMultiplier(t[|t| - 1]).Some?
  {
    var last := t[|t| - 1];
    if IsNumeral(t) {
      NumeralLast(t);
      NumeralParses(t);
    } else {
      var c := t[..|t| - 1];
      assert t == c + [last];
      if IsDigit(last) {
        NumeralExtend(c, last);
        assert false;
      }
      if UnitMultiplier(last).Some? {
        NumeralParses(c);
        SuffixedValueScaled(c, last);
      }
    }
  }

  /** The predicate of `TokenDecodes`: the token ends in a digit or a magnitude letter. */
  predicate KnownUnit(t: string) {
    |t| > 0 && (IsDigit(t[|t| - 1]) || UnitMultiplier(t[|t| - 1]).Some?)
  }

  /** The groups of a matched line all decode exactly when each ends in a digit or a magnitude letter. */
  lemma GroupsDecode(line: string)
    requires MatchValues(line).Some?
    ensures DecodeRow(MatchValues(line).value).Success? <==>
              forall k :: 0 <= k < NumFields ==> KnownUnit(MatchValues(line).value[k])
  {
    MatchValuesGroups(line);
    TokensDecode(MatchValues(line).value);
  }

  /** A row of numeric tokens decodes exactly when each ends in a digit or a magnitude letter. */
  lemma TokensDecode(g: seq<string>)
    requires forall k :: 0 <= k < |g| ==> IsToken(g[k])
    ensures DecodeRow(g).Success? <==> forall k :: 0 <= k < |g| ==> KnownUnit(g[k])
  {
    DecodeColumnsSuccess(ParseValueWithUnit, g, 0);
    forall k | 0 <= k < |g|
      ensures ParseValueWithUnit(g[k]).Success? <==> KnownUnit(g[k])
    {
      TokenDecodes(g[k]);
    }
  }

  /** A decoded row has one value per column; the memory columns are the decoding over 1024, the rest the decoding itself. */
  lemma DecodeRowValues(groups: seq<string>, k: nat)
    requires DecodeRow(groups).Success? && k < |groups|
    ensures |DecodeRow(groups).value| == |groups|
    ensures ParseValueWithUnit(groups[k]).Success?
    ensures DecodeRow(groups).value[k] ==
              if k < MemoryColumns then ParseValueWithUnit(groups[k]).value / 1024.0
              else ParseValueWithUnit(groups[k]).value
  {
    DecodeColumnsSuccess(ParseValueWithUnit, groups, 0);
  }

  /** `5x` passes VALUES_PAT's token rule but names no known unit. */
  lemma UnknownSuffixToken()
    ensures IsToken("5x")
    ensures ParseValueWithUnit("5x") == Failure(UnknownUnit('x', "5x"))
  {
    assert "5x"[..1] == "5";
    assert IsNumeral("5");
  }

  /** `1024k` in a memory column is 1024 kilobytes: 1048576 bytes over 1024. */
  lemma MemoryColumnExample()
    ensures DecodeRow(["1024k"]) == Success([1024.0])
  {
    assert ParseValueWithUnit("1024k") == Success(1048576.0) by {
      DecodeNatTextWithUnit(1024, 'k');
      Digits1024();
    }
    SingleColumn(ParseValueWithUnit, "1024k", 1048576.0);
  }

  lemma SingleColumn<E>(decode: string -> Result<real, E>, t: string, v: real)
    requires decode(t) == Success(v)
    ensures DecodeColumns(decode, [t], 0) == Success([ColumnValue(v, 0)])
  {
    assert [t][1..] == [];
    assert DecodeColumns(decode, [], 1) == Success([]);
    assert [ColumnValue(v, 0)] + [] == [ColumnValue(v, 0)];
  }

  lemma Digits1024()
    ensures NatToDigits(1024) + ['k'] == "1024k"
  {
    assert NatToDigits(10) == "10";
    assert NatToDigits(102) == NatToDigits(10) + ['2'];
    assert NatToDigits(1024) == NatToDigits(102) + ['4'];
  }
}
