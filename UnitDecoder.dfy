/**
 * `parseValueWithUnit`: a dstat magnitude such as `12`, `1.5k`, `2M`, `3G` or `7B`,
 * decoded to a number of base units.
 */
module UnitDecoder {
  import opened Wrappers
  import opened CharClasses
  import opened JavaDecimal

  /** Why a value could not be decoded; each case is a NumberFormatException thrown by `parseValueWithUnit`. */
  datatype DecodeError =
    | EmptyValue                          // "Value is empty."
    | UnknownUnit(unit: char, value: string)  // "Unknown '<unit>' unit of measure for value '<value>'."
    | MalformedNumber(text: string)       // Double.parseDouble rejected `text`

  /** The factor a magnitude letter stands for: B = 1, k = 2^10, M = 2^20, G = 2^30. */
  function UnitMultiplier(u: char): (m: Option<nat>)
    ensures m.Some? <==> u == 'B' || u == 'k' || u == 'M' || u == 'G'
    ensures u == 'B' ==> m == Some(1)
    ensures u == 'k' ==> m == Some(1024)
    ensures u == 'M' ==> m == Some(1048576)
    ensures u == 'G' ==> m == Some(1073741824)
  {
    if u == 'B' then Some(1)
    else if u == 'k' then Some(1024)
    else if u == 'M' then Some(1048576)
    else if u == 'G' then Some(1073741824)
    else None
  }

  /**
   * A number reader with its NumberFormatException as a failure. The probe
   * reads with `Double.parseDouble` (`ParseDouble`); decoding is written for
   * any reader `parse`, so that its lemmas do not depend on how the number
   * itself is read.
   */
  function ReadNumber(parse: string -> Option<real>, text: string): (r: Result<real, DecodeError>)
    ensures r.Success? <==> parse(text).Some?
    ensures r.Success? ==> r.value == parse(text).value
    ensures r.Failure? ==> r.error == MalformedNumber(text)
  {
    match parse(text)
    case Some(v) => Success(v)
    case None => Failure(MalformedNumber(text))
  }

  /**
   * A value whose last character is a digit is read as a plain decimal;
   * otherwise the last character must be a magnitude letter, and the rest
   * is read as a decimal and multiplied by the letter's factor.
   */
  function DecodeWithUnit(parse: string -> Option<real>, val: string): (r: Result<real, DecodeError>)
    ensures r == Failure(EmptyValue) <==> val == []
    ensures r.Failure? && r.error.UnknownUnit? <==>
              val != [] && !IsDigit(val[|val| - 1]) && UnitMultiplier(val[|val| - 1]).None?
    ensures r.Success? ==> val != [] && (IsDigit(val[|val| - 1]) || UnitMultiplier(val[|val| - 1]).Some?)
  {
    if val == [] then
      Failure(EmptyValue)
    else
      var last := val[|val| - 1];
      if IsDigit(last) then
        ReadNumber(parse, val)
      else
        match UnitMultiplier(last)
        case None => Failure(UnknownUnit(last, val))
        case Some(m) =>
          match ReadNumber(parse, val[..|val| - 1])
          case Failure(e) => Failure(e)
          case Success(v) => Success(v * m as real)
  }

  /** `parseValueWithUnit(val)`. */
  function ParseValueWithUnit(val: string): (r: Result<real, DecodeError>)
    ensures r == Failure(EmptyValue) <==> val == []
    ensures r.Failure? && r.error.UnknownUnit? <==>
              val != [] && !IsDigit(val[|val| - 1]) && UnitMultiplier(val[|val| - 1]).None?
    ensures r.Success? ==> val != [] && (IsDigit(val[|val| - 1]) || UnitMultiplier(val[|val| - 1]).Some?)
  {
    DecodeWithUnit(ParseDouble, val)
  }

  lemma PlainWith(parse: string -> Option<real>, val: string)
    requires val != [] && IsDigit(val[|val| - 1])
    ensures DecodeWithUnit(parse, val).Success? <==> parse(val).Some?
    ensures parse(val).Some? ==> DecodeWithUnit(parse, val).value == parse(val).value
  {
  }

  /** A value ending in a digit is its plain decimal reading, with no scaling. */
  lemma PlainValueUnscaled(val: string)
    requires val != [] && IsDigit(val[|val| - 1])
    ensures ParseValueWithUnit(val).Success? <==> ParseDouble(val).Some?
    ensures ParseDouble(val).Some? ==> ParseValueWithUnit(val).value == ParseDouble(val).value
  {
    PlainWith(ParseDouble, val);
  }

  lemma SuffixedWith(parse: string -> Option<real>, prefix: string, u: char)
    requires UnitMultiplier(u).Some?
    ensures DecodeWithUnit(parse, prefix + [u]).Success? <==> parse(prefix).Some?
    ensures parse(prefix).Some? ==>
              DecodeWithUnit(parse, prefix + [u]).value == parse(prefix).value * UnitMultiplier(u).value as real
  {
    assert (prefix + [u])[..|prefix|] == prefix;
  }

  /** A value ending in a magnitude letter is the decimal before it times the letter's factor. */
  lemma SuffixedValueScaled(prefix: string, u: char)
    requires UnitMultiplier(u).Some?
    ensures ParseValueWithUnit(prefix + [u]).Success? <==> ParseDouble(prefix).Some?
    ensures ParseDouble(prefix).Some? ==>
              ParseValueWithUnit(prefix + [u]).value == ParseDouble(prefix).value * UnitMultiplier(u).value as real
  {
    SuffixedWith(ParseDouble, prefix, u);
  }

  lemma FailuresWith(parse: string -> Option<real>, val: string)
    ensures DecodeWithUnit(parse, val).Failure? <==>
              || val == []
              || (!IsDigit(val[|val| - 1]) && UnitMultiplier(val[|val| - 1]).None?)
              || (IsDigit(val[|val| - 1]) && parse(val).None?)
              || (UnitMultiplier(val[|val| - 1]).Some? && parse(val[..|val| - 1]).None?)
  {
  }

  /** Every failure is one of the three causes `parseValueWithUnit` throws for. */
  lemma DecodeFailures(val: string)
    ensures ParseValueWithUnit(val).Failure? <==>
              || val == []
              || (!IsDigit(val[|val| - 1]) && UnitMultiplier(val[|val| - 1]).None?)
              || (IsDigit(val[|val| - 1]) && ParseDouble(val).None?)
              || (UnitMultiplier(val[|val| - 1]).Some? && ParseDouble(val[..|val| - 1]).None?)
  {
    FailuresWith(ParseDouble, val);
  }

  /** Round trip: the decimal text of a number decodes to that number. */
  lemma DecodeNatText(n: nat)
    ensures ParseValueWithUnit(NatToDigits(n)) == Success(n as real)
  {
    var ds := NatToDigits(n);
    ParseDoubleDigits(ds);
    DigitsRoundTrip(n);
  }

  /** Round trip: the decimal text of a number followed by a magnitude letter decodes to the number times the factor. */
  lemma DecodeNatTextWithUnit(n: nat, u: char)
    requires UnitMultiplier(u).Some?
    ensures ParseValueWithUnit(NatToDigits(n) + [u]) == Success(n as real * UnitMultiplier(u).value as real)
  {
    var ds := NatToDigits(n);
    ParseDoubleDigits(ds);
    DigitsRoundTrip(n);
    SuffixedValueScaled(ds, u);
  }

  /** A value ending in a magnitude letter, after a prefix read as `v`, is `v` times the factor. */
  lemma SuffixedKnown(parse: string -> Option<real>, prefix: string, u: char, v: real)
    requires UnitMultiplier(u).Some? && parse(prefix) == Some(v)
    ensures DecodeWithUnit(parse, prefix + [u]) == Success(v * UnitMultiplier(u).value as real)
  {
    SuffixedWith(parse, prefix, u);
  }

  /** Example decodings, one lemma each. */
  lemma DecodeExample12()
    ensures ParseValueWithUnit("12") == Success(12.0)
  {
    Digits12();
    DecodeNatText(12);
  }

  lemma Digits12()
    ensures NatToDigits(12) == "12"
  {
    assert NatToDigits(1) == "1";
  }

  lemma DecodeExample2M()
    ensures ParseValueWithUnit("2M") == Success(2097152.0)
  {
    DecodeDigitWithUnit(2, 'M', "2M");
  }

  lemma DecodeExample3G()
    ensures ParseValueWithUnit("3G") == Success(3221225472.0)
  {
    DecodeDigitWithUnit(3, 'G', "3G");
  }

  lemma DecodeExample7B()
    ensures ParseValueWithUnit("7B") == Success(7.0)
  {
    DecodeDigitWithUnit(7, 'B', "7B");
  }

  lemma DecodeDigitWithUnit(n: nat, u: char, text: string)
    requires n < 10 && UnitMultiplier(u).Some?
    requires text == [DigitChar(n), u]
    ensures ParseValueWithUnit(text) == Success(n as real * UnitMultiplier(u).value as real)
  {
    DecodeNatTextWithUnit(n, u);
    assert text == NatToDigits(n) + [u];
  }

  lemma DecodeExample1point5k()
    ensures ParseValueWithUnit("1.5k") == Success(1536.0)
  {
    OnePointFive();
    assert ParseDouble("1" + "." + "5") == Some(1.5) by { ParseDoublePointed("1", "5"); }
    SuffixedKnown(ParseDouble, "1" + "." + "5", 'k', 1.5);
  }

  lemma OnePointFive()
    ensures "1.5k" == "1" + "." + "5" + ['k']
    ensures PointedValue("1", "5") == 1.5
  {
    assert DigitsValue("1") == 1;
    assert DigitsValue("5") == 5;
  }

  /** Example values that fail to decode. */
  lemma DecodeExamplesRejected()
    ensures ParseValueWithUnit("") == Failure(EmptyValue)
    ensures ParseValueWithUnit("abc") == Failure(UnknownUnit('c', "abc"))
    ensures ParseValueWithUnit("5x") == Failure(UnknownUnit('x', "5x"))
  {
  }
}
