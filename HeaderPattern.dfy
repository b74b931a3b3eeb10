/**
 * The header pattern HEADER_LINE: the 18 column names dstat prints on its
 * second line, with a bar after the 4th, 10th, 12th, 14th and 16th name and
 * whitespace between the others, the same layout as a data line.
 */
module HeaderPattern {
  import opened Wrappers
  import opened CharClasses
  import opened LineLayout
  import opened ValuesPattern

  /** The column names of HEADER_LINE, in order. */
  const HeaderNames: seq<string> :=
    ["used", "buff", "cach", "free", "usr", "sys", "idl", "wai", "hiq", "siq",
     "read", "writ", "recv", "send", "in", "out", "int", "csw"]

  /** HEADER_LINE: `^\s*`, each name and the separator after it, the last one being `\s*$`. */
  function HeaderPattern(): (p: seq<Elem>)
    ensures |p| == 2 * NumFields + 1
  {
    seq(2 * NumFields + 1, k requires 0 <= k < 2 * NumFields + 1 =>
      if k == 0 then AnySpace
      else if k % 2 == 1 then Literal(HeaderNames[k / 2])
      else SepAfter(k / 2 - 1))
  }

  /** `HEADER_LINE.matcher(line).matches()`. */
  predicate MatchHeader(line: string) {
    MatchPattern(HeaderPattern(), line).Some?
  }

  /** The layout of the header line, on its split. */
  predicate HeaderShape(sg: seq<string>) {
    && |sg| == 2 * NumFields + 1
    && AllSpace(sg[0])
    && AllSpace(sg[2 * NumFields])
    && (forall i :: 0 <= i < |sg| && i % 2 == 1 ==> sg[i] == HeaderNames[i / 2])
    && (forall i :: 0 < i < |sg| - 1 && i % 2 == 0 ==> SeparatorOk(i / 2 - 1, sg[i]))
  }

  lemma HeaderNamesOk(k: nat)
    requires k < NumFields
    ensures |HeaderNames[k]| > 0 && NoSep(HeaderNames[k])
  {
  }

  lemma HeaderPatternElem(i: nat)
    requires i < 2 * NumFields + 1
    ensures HeaderPattern()[i] == if i == 0 then AnySpace else if i % 2 == 1 then Literal(HeaderNames[i / 2]) else SepAfter(i / 2 - 1)
  {
  }

  lemma HeaderPatternAlternating()
    ensures Alternating(HeaderPattern())
  {
    var q := HeaderPattern();
    forall i | 0 <= i < |q|
      ensures (IsWordElem(q[i]) <==> i % 2 == 1) && LiteralOk(q[i])
    {
      HeaderPatternElem(i);
      if i % 2 == 1 {
        HeaderNamesOk(i / 2);
      }
    }
  }

  lemma HeaderPatternFits(sg: seq<string>)
    ensures Fits(HeaderPattern(), sg) <==> HeaderShape(sg)
  {
    var q := HeaderPattern();
    if |sg| == |q| {
      forall i | 0 <= i < |q|
        ensures ElemMatches(q[i], sg[i]) <==>
                  if i == 0 || i == 2 * NumFields then AllSpace(sg[i])
                  else if i % 2 == 1 then sg[i] == HeaderNames[i / 2]
                  else SeparatorOk(i / 2 - 1, sg[i])
      {
        HeaderPatternElem(i);
      }
    }
  }

  /** A line is the header exactly when its split has the header's layout. */
  lemma MatchHeaderSplit(line: string)
    ensures MatchHeader(line) <==> HeaderShape(Segments(line))
  {
    var q := HeaderPattern();
    HeaderPatternAlternating();
    MatchesIffFits(q, [], line);
    assert q + [] == q;
    HeaderPatternFits(Segments(line));
  }

  lemma ShapeFields(sg: seq<string>)
    requires HeaderShape(sg)
    ensures Fields(sg) == HeaderNames
  {
    var f := Fields(sg);
    forall k | 0 <= k < NumFields
      ensures f[k] == HeaderNames[k]
    {
      assert (2 * k + 1) / 2 == k;
      assert f[k] == sg[2 * k + 1];
      assert sg[2 * k + 1] == HeaderNames[(2 * k + 1) / 2];
    }
    SeqExt(f, HeaderNames);
  }

  /** The words of a header line are the 18 column names. */
  lemma HeaderWords(line: string)
    requires MatchHeader(line)
    ensures Words(line) == HeaderNames
  {
    MatchHeaderSplit(line);
    ShapeFields(Segments(line));
  }

  /** A numeric token starts with a digit or a point. */
  lemma TokenStart(t: string)
    requires IsToken(t)
    ensures IsDigit(t[0]) || t[0] == '.'
  {
    TokenNoSep(t);
    var c := if IsNumeral(t) then t else t[..|t| - 1];
    assert IsNumeral(c);
    NumeralNoSep(c);
    assert t[0] == c[0];
    if !(|c| > 0 && AllDigits(c)) {
      var k := IndexOf(c, '.');
      if k > 0 {
        assert c[0] == c[..k][0];
      }
    }
  }

  /** A data line is never the header: its first word is a number, not `used`. */
  lemma DataLineIsNotHeader(line: string)
    requires MatchValues(line).Some?
    ensures !MatchHeader(line)
  {
    MatchValuesSplit(line);
    MatchHeaderSplit(line);
    var sg := Segments(line);
    assert IsToken(sg[1]);
    TokenStart(sg[1]);
    assert sg[1] != HeaderNames[0] by {
      assert HeaderNames[0][0] == 'u';
    }
  }

  /** Every line laid out as the header is one: its split is the layout, and it matches. */
  lemma HeaderLayoutMatches(sg: seq<string>)
    requires HeaderShape(sg)
    ensures Segments(Concat(sg)) == sg
    ensures MatchHeader(Concat(sg))
  {
    forall i | 0 <= i < |sg| && i % 2 == 1
      ensures |sg[i]| > 0 && NoSep(sg[i])
    {
      HeaderNamesOk(i / 2);
    }
    forall i | 0 <= i < |sg| && i % 2 == 0
      ensures AllSep(sg[i]) && (0 < i < |sg| - 1 ==> |sg[i]| > 0)
    {
    }
    assert Alternation(sg);
    SegmentsOfAlternation(sg);
    MatchHeaderSplit(Concat(sg));
  }
}
