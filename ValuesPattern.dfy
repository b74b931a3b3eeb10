/**
 * The data-line pattern VALUES_PAT: 18 numeric fields, a bar after fields
 * 4, 10, 12, 14 and 16 (counting from 1), whitespace between the others.
 *
 * The pattern is built by a loop, as in the probe's static initializer. The
 * lemmas characterise the lines it accepts on their split into separator runs
 * and word runs, and show that the deterministic matcher finds a match
 * whenever the regex has one, with the same groups.
 */
module ValuesPattern {
  import opened Wrappers
  import opened CharClasses
  import opened LineLayout

  /** `numFields` in the static initializer. */
  const NumFields: nat := 18

  /** The 0-based field indices followed by a bar: after fields 4, 10, 12, 14 and 16. */
  predicate BarAfter(i: int) { i == 3 || i == 9 || i == 11 || i == 13 || i == 15 }

  /** The separator appended after field `i`. */
  function SepAfter(i: int): Elem {
    if i == NumFields - 1 then AnySpace else if BarAfter(i) then BarSep else SomeSpace
  }

  /** VALUES_PAT: `^\s*`, then each field and its separator, then `\s*$`. */
  function ValuesPattern(): (p: seq<Elem>)
    ensures |p| == 2 * NumFields + 2
  {
    seq(2 * NumFields + 2, k =>
      if k == 0 || k == 2 * NumFields + 1 then AnySpace
      else if k % 2 == 1 then Field
      else SepAfter(k / 2 - 1))
  }

  /** The static initializer: builds VALUES_PAT field by field. */
  method BuildValuesPattern() returns (p: seq<Elem>)
    ensures p == ValuesPattern()
  {
    p := [AnySpace];
    PatternStart();
    for i := 0 to NumFields
      invariant p == ValuesPattern()[..2 * i + 1]
    {
      ghost var before := p;
      p := p + [Field];
      if i < NumFields - 1 {
        if i == 3 || i == 9 || i == 11 || i == 13 || i == 15 {
          p := p + [BarSep];
        } else {
          p := p + [SomeSpace];
        }
      } else {
        p := p + [AnySpace];
      }
      assert p == before + [Field, SepAfter(i)];
      PatternStep(i);
    }
    PatternEnd();
    p := p + [AnySpace];
  }

  lemma PatternStart()
    ensures [AnySpace] == ValuesPattern()[..1]
  {
  }

  /** Two more elements of VALUES_PAT: field `i` and the separator after it. */
  lemma PatternStep(i: nat)
    requires i < NumFields
    ensures ValuesPattern()[..2 * i + 3] == ValuesPattern()[..2 * i + 1] + [Field, SepAfter(i)]
  {
    var p := ValuesPattern();
    assert p[2 * i + 1] == Field;
    assert p[2 * i + 2] == SepAfter(i);
  }

  lemma PatternEnd()
    ensures ValuesPattern()[..2 * NumFields + 1] + [AnySpace] == ValuesPattern()
  {
    var p := ValuesPattern();
    assert p == p[..2 * NumFields + 1] + [p[2 * NumFields + 1]];
  }

  /** The field pieces of a match of VALUES_PAT: the regex groups 1 to 18. */
  function Groups(pcs: seq<string>): (g: seq<string>)
    requires |pcs| >= 2 * NumFields
    ensures |g| == NumFields
  {
    seq(NumFields, k requires 0 <= k < NumFields => pcs[2 * k + 1])
  }

  /** `VALUES_PAT.matcher(line)` and `m.matches()`: the 18 groups when the whole line matches. */
  function MatchValues(line: string): (r: Option<seq<string>>)
    ensures r.Some? ==> |r.value| == NumFields
  {
    match MatchPattern(ValuesPattern(), line)
    case None => None
    case Some(pcs) =>
      MatchPatternLength(ValuesPattern(), line);
      Some(Groups(pcs))
  }

  lemma ValuesPatternField(k: nat)
    requires k < NumFields
    ensures ValuesPattern()[2 * k + 1] == Field
  {
  }

  /** A match yields 18 groups, each a numeric token. */
  lemma MatchValuesGroups(line: string)
    requires MatchValues(line).Some?
    ensures |MatchValues(line).value| == NumFields
    ensures forall k :: 0 <= k < NumFields ==> IsToken(MatchValues(line).value[k])
  {
    var p := ValuesPattern();
    MatchSound(p, line);
    var pcs := MatchPattern(p, line).value;
    FittingGroups(pcs);
  }

  /** The field pieces of a cut that fits VALUES_PAT are numeric tokens. */
  lemma FittingGroups(pcs: seq<string>)
    requires Fits(ValuesPattern(), pcs)
    ensures |pcs| >= 2 * NumFields
    ensures forall k :: 0 <= k < NumFields ==> IsToken(Groups(pcs)[k])
  {
    var p := ValuesPattern();
    assert |pcs| == |p|;
    forall k | 0 <= k < NumFields
      ensures IsToken(Groups(pcs)[k])
    {
      ValuesPatternField(k);
      FitsAt(p, pcs, 2 * k + 1);
    }
  }

  /** The separator run allowed after field `k` (0-based), for `k` below the last field. */
  predicate SeparatorOk(k: int, gap: string) {
    if BarAfter(k) then IsBarRun(gap) else |gap| > 0 && AllSpace(gap)
  }

  /**
   * The layout of a data line, stated on its split: exactly 18 fields, each a
   * numeric token; a bar run after fields 4, 10, 12, 14 and 16; whitespace only
   * between the others and at both ends.
   */
  predicate ValuesShape(sg: seq<string>) {
    && |sg| == 2 * NumFields + 1
    && AllSpace(sg[0])
    && AllSpace(sg[2 * NumFields])
    && (forall i :: 0 <= i < |sg| && i % 2 == 1 ==> IsToken(sg[i]))
    && (forall i :: 0 < i < |sg| - 1 && i % 2 == 0 ==> SeparatorOk(i / 2 - 1, sg[i]))
  }

  /** VALUES_PAT without its final `\s*$`. */
  function ValuesCore(): (q: seq<Elem>)
    ensures |q| == 2 * NumFields + 1
  {
    ValuesPattern()[..2 * NumFields + 1]
  }

  lemma ValuesCoreElem(i: nat)
    requires i < 2 * NumFields + 1
    ensures ValuesCore()[i] == if i == 0 || i == 2 * NumFields then AnySpace else if i % 2 == 1 then Field else SepAfter(i / 2 - 1)
  {
  }

  lemma ValuesCoreShape()
    ensures ValuesPattern() == ValuesCore() + [AnySpace]
    ensures Alternating(ValuesCore()) && InnerNonEmpty(ValuesCore())
  {
    var q := ValuesCore();
    forall i | 0 <= i < |q|
      ensures (IsWordElem(q[i]) <==> i % 2 == 1) && LiteralOk(q[i]) && (0 < i < |q| - 1 ==> q[i] != AnySpace)
    {
      ValuesCoreElem(i);
    }
  }

  /** Element by element, VALUES_PAT's core accepts exactly the layout `ValuesShape` describes. */
  lemma ValuesCoreFits(sg: seq<string>)
    ensures Fits(ValuesCore(), sg) <==> ValuesShape(sg)
  {
    var q := ValuesCore();
    if |sg| == |q| {
      forall i | 0 <= i < |q|
        ensures ElemMatches(q[i], sg[i]) <==>
                  if i == 0 || i == 2 * NumFields then AllSpace(sg[i])
                  else if i % 2 == 1 then IsToken(sg[i])
                  else SeparatorOk(i / 2 - 1, sg[i])
      {
        ValuesCoreElem(i);
      }
    }
  }

  /**
   * The matcher, read on the split of the line: a line matches exactly when
   * its split has the layout of a data line, and the groups are then its words.
   */
  lemma MatchValuesSplit(line: string)
    ensures MatchValues(line).Some? <==> ValuesShape(Segments(line))
    ensures MatchValues(line).Some? ==> MatchValues(line).value == Words(line)
  {
    var sg := Segments(line);
    ValuesCoreShape();
    AlternatingMatch(ValuesCore(), [AnySpace], line);
    ValuesCoreFits(sg);
    if ValuesShape(sg) {
      assert MatchPattern(ValuesPattern(), line) == Some(sg + [""]);
      GroupsOfSplit(sg);
    }
  }

  lemma GroupsOfSplit(sg: seq<string>)
    requires |sg| == 2 * NumFields + 1
    ensures Groups(sg + [""]) == Fields(sg)
  {
    var ext := sg + [""];
    var g, f := Groups(ext), Fields(sg);
    forall k | 0 <= k < NumFields
      ensures g[k] == f[k]
    {
      assert ext[2 * k + 1] == sg[2 * k + 1];
    }
    SeqExt(g, f);
  }

  lemma GroupsOfMerged(pcs: seq<string>, sg: seq<string>)
    requires |pcs| == 2 * NumFields + 2
    requires sg == pcs[..2 * NumFields] + [pcs[2 * NumFields] + pcs[2 * NumFields + 1]]
    ensures Groups(sg + [""]) == Groups(pcs)
  {
    var ext := sg + [""];
    var g, g' := Groups(ext), Groups(pcs);
    forall k | 0 <= k < NumFields
      ensures g[k] == g'[k]
    {
      assert ext[2 * k + 1] == sg[2 * k + 1] == pcs[2 * k + 1];
    }
    SeqExt(g, g');
  }

  /** With the last two pieces merged, a cut matching VALUES_PAT fits its core. */
  lemma SplitFitsCore(pcs: seq<string>, sg: seq<string>)
    requires Fits(ValuesPattern(), pcs)
    requires sg == pcs[..2 * NumFields] + [pcs[2 * NumFields] + pcs[2 * NumFields + 1]]
    ensures Fits(ValuesCore(), sg)
  {
    var q := ValuesCore();
    var p := ValuesPattern();
    var last := 2 * NumFields;
    forall i | 0 <= i < |q|
      ensures ElemMatches(q[i], sg[i])
    {
      FitsAt(p, pcs, i);
      assert p[i] == q[i];
      if i == last {
        FitsAt(p, pcs, last + 1);
        ValuesCoreElem(last);
        assert p[last + 1] == AnySpace;
      }
    }
  }

  /**
   * Completeness with respect to the regex: whenever the line can be cut into
   * pieces matching VALUES_PAT element by element, the matcher accepts it, and
   * the groups are the field pieces of that cut.
   */
  lemma MatchValuesComplete(line: string, pcs: seq<string>)
    requires Fits(ValuesPattern(), pcs) && Concat(pcs) == line
    ensures MatchValues(line) == Some(Groups(pcs))
  {
    var q := ValuesCore();
    var p := ValuesPattern();
    ValuesCoreShape();
    DecompositionIsSplit(q, pcs, line);
    var sg := Segments(line);
    SplitFitsCore(pcs, sg);
    AlternatingMatch(q, [AnySpace], line);
    assert MatchPattern(p, line) == Some(sg + [""]);
    GroupsOfMerged(pcs, sg);
  }

  /** A line whose words are not exactly 18 is not a data line. */
  lemma WrongFieldCountRejected(line: string)
    requires |Words(line)| != NumFields
    ensures MatchValues(line) == None
  {
    MatchValuesSplit(line);
  }

  lemma ShapeSeparators(sg: seq<string>, k: nat)
    requires ValuesShape(sg) && k < NumFields - 1
    ensures Count(sg[2 * k + 2], '|') == if BarAfter(k) then 1 else 0
  {
    var gap := sg[2 * k + 2];
    assert SeparatorOk((2 * k + 2) / 2 - 1, gap);
    if !BarAfter(k) {
      assert forall i :: 0 <= i < |gap| ==> gap[i] != '|';
    }
  }

  /** In a matched line, the separator after field `k` holds a bar exactly when VALUES_PAT puts one there. */
  lemma MatchedSeparators(line: string, k: nat)
    requires k < NumFields - 1
    ensures MatchValues(line).Some? ==>
              |Segments(line)| == 2 * NumFields + 1 &&
              Count(Segments(line)[2 * k + 2], '|') == if BarAfter(k) then 1 else 0
  {
    MatchValuesSplit(line);
    if MatchValues(line).Some? {
      ShapeSeparators(Segments(line), k);
    }
  }

  /** Every run sequence laid out as a data line concatenates to a line VALUES_PAT matches, with its fields as the groups. */
  lemma ValuesLayoutMatches(sg: seq<string>)
    requires ValuesShape(sg)
    ensures Segments(Concat(sg)) == sg
    ensures MatchValues(Concat(sg)) == Some(Fields(sg))
  {
    forall i | 0 <= i < |sg| && i % 2 == 1
      ensures |sg[i]| > 0 && NoSep(sg[i])
    {
      TokenNoSep(sg[i]);
    }
    forall i | 0 <= i < |sg| && i % 2 == 0
      ensures AllSep(sg[i]) && (0 < i < |sg| - 1 ==> |sg[i]| > 0)
    {
      if 0 < i < |sg| - 1 {
        assert SeparatorOk(i / 2 - 1, sg[i]);
      }
    }
    SegmentsOfAlternation(sg);
    MatchValuesSplit(Concat(sg));
  }

  /** The separator dstat prints after field `k`: a bar and a space at a group boundary, a space elsewhere. */
  function SepText(k: int): string {
    if BarAfter(k) then "| " else " "
  }

  /** The runs of the line dstat prints for the fields `fs`, with nothing before the first field or after the last. */
  function PrintedRuns(fs: seq<string>): (sg: seq<string>)
    requires |fs| == NumFields
    ensures |sg| == 2 * NumFields + 1
  {
    seq(2 * NumFields + 1, i requires 0 <= i < 2 * NumFields + 1 =>
      if i % 2 == 1 then fs[i / 2] else if i == 0 || i == 2 * NumFields then "" else SepText(i / 2 - 1))
  }

  /** Eighteen numeric tokens printed as dstat prints them form a data line whose words are the tokens. */
  lemma PrintedRunsShape(fs: seq<string>)
    requires |fs| == NumFields && forall k :: 0 <= k < NumFields ==> IsToken(fs[k])
    ensures ValuesShape(PrintedRuns(fs))
    ensures Fields(PrintedRuns(fs)) == fs
  {
    var sg := PrintedRuns(fs);
    forall i | 0 < i < |sg| - 1 && i % 2 == 0
      ensures SeparatorOk(i / 2 - 1, sg[i])
    {
      var k := i / 2 - 1;
      if BarAfter(k) {
        assert sg[i] == "| ";
        assert Count("| ", '|') == 1;
      } else {
        assert sg[i] == " ";
      }
    }
    var f := Fields(sg);
    forall k | 0 <= k < NumFields
      ensures f[k] == fs[k]
    {
      assert f[k] == sg[2 * k + 1];
    }
  }
}
