/**
 * The shape shared by dstat's header line and its data lines, and by the two
 * anchored regular expressions that check them: runs of whitespace or bars
 * alternating with word runs.
 *
 * A pattern is a sequence of elements. `MatchPattern` matches a line against
 * it deterministically (every word element takes the longest run without
 * whitespace or bars, every separator element the longest run of them). Its
 * soundness is the regex reading: the line is the concatenation of one piece
 * per element, each piece in its element's language. For alternating patterns
 * the lemmas below show that it accepts a line exactly when the line's plain
 * split (`Segments`) fits the pattern, and that any regex decomposition of the
 * line is that split.
 */
module LineLayout {
  import opened Wrappers
  import opened CharClasses

  /** The building blocks of the two line patterns. */
  datatype Elem =
    | AnySpace              // \s*
    | SomeSpace             // \s+
    | BarSep                // \s*\Q|\E\s*
    | Field                 // (\d*\.\d+\w?|\d+\w?)
    | Literal(text: string) // a fixed column name of the header

  /** Elements that take a word run rather than a separator run. */
  predicate IsWordElem(e: Elem) { e.Field? || e.Literal? }

  /** `\d*\.\d+`: digits, a point, at least one digit. */
  predicate PointedNumeral(c: string) {
    var k := IndexOf(c, '.');
    k + 1 < |c| && AllDigits(c[..k]) && AllDigits(c[k + 1..])
  }

  /** `\d*\.\d+` or `\d+`. */
  predicate IsNumeral(c: string) {
    (|c| > 0 && AllDigits(c)) || PointedNumeral(c)
  }

  /** `\d*\.\d+\w?|\d+\w?`: a numeral, optionally followed by one word character. */
  predicate IsToken(t: string) {
    IsNumeral(t) || (|t| > 0 && IsWordChar(t[|t| - 1]) && IsNumeral(t[..|t| - 1]))
  }

  /** `\s*\Q|\E\s*`: whitespace with exactly one bar in it. */
  predicate IsBarRun(w: string) {
    AllSep(w) && Count(w, '|') == 1
  }

  /** The text an element matches on its own. */
  predicate ElemMatches(e: Elem, piece: string) {
    match e
    case AnySpace => AllSpace(piece)
    case SomeSpace => |piece| > 0 && AllSpace(piece)
    case BarSep => IsBarRun(piece)
    case Field => IsToken(piece)
    case Literal(text) => piece == text
  }

  /** Each piece of `sg` matches the element of `q` at the same position. */
  predicate Fits(q: seq<Elem>, sg: seq<string>) {
    |sg| == |q| && forall i :: 0 <= i < |q| ==> ElemMatches(q[i], sg[i])
  }

  lemma FitsAt(q: seq<Elem>, sg: seq<string>, i: nat)
    requires Fits(q, sg) && i < |q|
    ensures ElemMatches(q[i], sg[i])
  {
  }

  lemma FitsFirst(q: seq<Elem>, sg: seq<string>)
    requires |q| >= 1 && |sg| >= 1
    ensures Fits(q, sg) <==> ElemMatches(q[0], sg[0]) && Fits(q[1..], sg[1..])
  {
    if ElemMatches(q[0], sg[0]) && Fits(q[1..], sg[1..]) {
      forall i | 1 <= i < |q|
        ensures ElemMatches(q[i], sg[i])
      {
        assert q[i] == q[1..][i - 1] && sg[i] == sg[1..][i - 1];
      }
    }
    if Fits(q, sg) {
      forall i | 0 <= i < |q| - 1
        ensures ElemMatches(q[1..][i], sg[1..][i])
      {
        assert q[1..][i] == q[i + 1] && sg[1..][i] == sg[i + 1];
      }
    }
  }

  lemma FitsCons(q: seq<Elem>, sg: seq<string>)
    requires |q| >= 2 && |sg| >= 2
    ensures Fits(q, sg) <==> ElemMatches(q[0], sg[0]) && ElemMatches(q[1], sg[1]) && Fits(q[2..], sg[2..])
  {
    if ElemMatches(q[0], sg[0]) && ElemMatches(q[1], sg[1]) && Fits(q[2..], sg[2..]) {
      forall i | 2 <= i < |q|
        ensures ElemMatches(q[i], sg[i])
      {
        assert q[i] == q[2..][i - 2] && sg[i] == sg[2..][i - 2];
      }
    }
    if Fits(q, sg) {
      forall i | 0 <= i < |q| - 2
        ensures ElemMatches(q[2..][i], sg[2..][i])
      {
        assert q[2..][i] == q[i + 2] && sg[2..][i] == sg[i + 2];
      }
    }
  }

  function Concat(ps: seq<string>): string {
    if ps == [] then [] else ps[0] + Concat(ps[1..])
  }

  lemma ConcatCons(a: string, b: seq<string>)
    ensures Concat([a] + b) == a + Concat(b)
  {
    assert ([a] + b)[1..] == b;
  }

  /** Concatenation distributes over appending run sequences. */
  lemma ConcatAppend(a: seq<string>, b: seq<string>)
    ensures Concat(a + b) == Concat(a) + Concat(b)
  {
    ConcatSplit(a + b, |a|);
    assert (a + b)[..|a|] == a;
    assert (a + b)[|a|..] == b;
  }

  /** Concatenation distributes over a cut of the run sequence. */
  lemma {:induction false} ConcatSplit(ps: seq<string>, k: nat)
    requires k <= |ps|
    ensures Concat(ps) == Concat(ps[..k]) + Concat(ps[k..])
    decreases k
  {
    if k == 0 {
      assert ps[k..] == ps;
      assert Concat(ps[..k]) == [];
    } else {
      ConcatSplit(ps[1..], k - 1);
      assert ps[1..][..k - 1] == ps[..k][1..];
      assert ps[1..][k - 1..] == ps[k..];
    }
  }

  /**
   * The matcher: each word element takes the longest run of characters that
   * are not whitespace or bars, each separator the longest run that is; the
   * pieces are then checked against their elements.
   */
  function MatchPattern(p: seq<Elem>, s: string): (r: Option<seq<string>>)
    decreases |p|
  {
    if p == [] then
      (if s == [] then Some([]) else None)
    else
      var piece := Piece(p[0], s);
      if ElemMatches(p[0], piece) then Prepend(piece, MatchPattern(p[1..], s[|piece|..])) else None
  }

  /** A match cuts the line into one piece per element. */
  lemma {:induction false} MatchPatternLength(p: seq<Elem>, s: string)
    requires MatchPattern(p, s).Some?
    ensures |MatchPattern(p, s).value| == |p|
    decreases |p|
  {
    if p != [] {
      MatchPatternLength(p[1..], s[|Piece(p[0], s)|..]);
    }
  }

  /** The run of `s` that element `e` takes. */
  function Piece(e: Elem, s: string): (piece: string)
    ensures |piece| <= |s| && piece == s[..|piece|]
  {
    if IsWordElem(e) then Word(s) else Gap(s)
  }

  function Prepend(piece: string, r: Option<seq<string>>): (r': Option<seq<string>>)
    ensures r'.Some? <==> r.Some?
    ensures r.Some? ==> r'.value == [piece] + r.value
  {
    match r
    case None => None
    case Some(rest) => Some([piece] + rest)
  }

  /** Soundness: a match is the line cut into one piece per element, each piece matching its element. */
  lemma {:induction false} MatchSound(p: seq<Elem>, s: string)
    requires MatchPattern(p, s).Some?
    ensures var pcs := MatchPattern(p, s).value;
            Fits(p, pcs) && Concat(pcs) == s
    decreases |p|
  {
    if p != [] {
      var piece := Piece(p[0], s);
      var rest := s[|piece|..];
      MatchStep(p, s);
      MatchSound(p[1..], rest);
      SoundStep(p, s, piece, MatchPattern(p[1..], rest).value);
    }
  }

  /** Putting a matching first piece in front of a sound cut of the rest gives a sound cut of the line. */
  lemma SoundStep(p: seq<Elem>, s: string, piece: string, tail: seq<string>)
    requires p != [] && |piece| <= |s| && piece == s[..|piece|] && ElemMatches(p[0], piece)
    requires Fits(p[1..], tail) && Concat(tail) == s[|piece|..]
    ensures Fits(p, [piece] + tail) && Concat([piece] + tail) == s
  {
    FitsPrepend(p, piece, tail);
    ConcatCons(piece, tail);
    assert piece + s[|piece|..] == s;
  }

  /** The first element takes its piece, and the rest of the pattern matches the rest of the line. */
  lemma MatchStep(p: seq<Elem>, s: string)
    requires p != [] && MatchPattern(p, s).Some?
    ensures ElemMatches(p[0], Piece(p[0], s))
    ensures MatchPattern(p[1..], s[|Piece(p[0], s)|..]).Some?
    ensures MatchPattern(p, s).value == [Piece(p[0], s)] + MatchPattern(p[1..], s[|Piece(p[0], s)|..]).value
  {
  }

  lemma FitsPrepend(p: seq<Elem>, piece: string, tail: seq<string>)
    requires p != [] && ElemMatches(p[0], piece) && Fits(p[1..], tail)
    ensures Fits(p, [piece] + tail)
  {
    var pcs := [piece] + tail;
    assert pcs[0] == piece && pcs[1..] == tail;
    FitsFirst(p, pcs);
  }

  /**
   * A line split into alternating runs: separators, a word, separators, ...,
   * a word, separators. The outer separator runs may be empty; everything
   * else is not.
   */
  function Segments(s: string): (sg: seq<string>)
    ensures |sg| > 0 && sg[0] == Gap(s)
    decreases |s|
  {
    var g := Gap(s);
    var rest := s[|g|..];
    if rest == [] then
      [g]
    else
      var w := Word(rest);
      [g, w] + Segments(rest[|w|..])
  }

  /** Unfolding `Segments` once. */
  lemma SegmentsStep(s: string)
    ensures var rest := s[|Gap(s)|..];
            if rest == [] then Segments(s) == [Gap(s)]
            else |Word(rest)| > 0 && Segments(s) == [Gap(s), Word(rest)] + Segments(rest[|Word(rest)|..])
  {
  }

  /** The word runs of a split line. */
  function Fields(sg: seq<string>): (f: seq<string>)
    ensures |f| == |sg| / 2
  {
    seq(|sg| / 2, k requires 0 <= k < |sg| / 2 => sg[2 * k + 1])
  }

  /** The runs of a line that are neither whitespace nor bars. */
  function Words(line: string): seq<string> {
    Fields(Segments(line))
  }

  /** Separator runs at even positions, non-empty word runs at odd ones, inner separator runs non-empty. */
  predicate Alternation(sg: seq<string>) {
    && |sg| % 2 == 1
    && (forall i :: 0 <= i < |sg| && i % 2 == 0 ==> AllSep(sg[i]))
    && (forall i :: 0 <= i < |sg| && i % 2 == 1 ==> |sg[i]| > 0 && NoSep(sg[i]))
    && (forall i :: 0 < i < |sg| - 1 && i % 2 == 0 ==> |sg[i]| > 0)
  }

  lemma OddPlusTwo(x: nat)
    requires x % 2 == 1
    ensures (x + 2) % 2 == 1
  {
  }

  lemma AlternationCons(g: string, w: string, tail: seq<string>)
    requires Alternation(tail) && AllSep(g) && |w| > 0 && NoSep(w)
    requires |tail[0]| > 0 || |tail| == 1
    ensures Alternation([g, w] + tail)
  {
    var sg := [g, w] + tail;
    assert |sg| == |tail| + 2;
    OddPlusTwo(|tail|);
    forall i | 2 <= i < |sg|
      ensures sg[i] == tail[i - 2]
    {
    }
  }

  lemma SplitAt(s: string, n: nat)
    requires n <= |s|
    ensures s[..n] + s[n..] == s
  {
  }

  lemma ConsPair<T>(a: T, b: T, tail: seq<T>)
    ensures [a, b] + tail == [a] + ([b] + tail)
  {
  }

  /** The split covers the line. */
  lemma {:induction false} SegmentsConcat(s: string)
    ensures Concat(Segments(s)) == s
    decreases |s|
  {
    var g := Gap(s);
    var rest := s[|g|..];
    SegmentsStep(s);
    SplitAt(s, |g|);
    if rest == [] {
      ConcatCons(g, []);
      assert [g] + [] == [g];
    } else {
      var w := Word(rest);
      var rest' := rest[|w|..];
      var tail := Segments(rest');
      SegmentsConcat(rest');
      SplitAt(rest, |w|);
      ConcatCons(w, tail);
      ConcatCons(g, [w] + tail);
      ConsPair(g, w, tail);
    }
  }

  /** The split alternates separator runs and word runs. */
  lemma {:induction false} SegmentsAlternation(s: string)
    ensures Alternation(Segments(s))
    decreases |s|
  {
    var g := Gap(s);
    var rest := s[|g|..];
    SegmentsStep(s);
    if rest != [] {
      var w := Word(rest);
      var rest' := rest[|w|..];
      var tail := Segments(rest');
      SegmentsAlternation(rest');
      assert tail[0] == Gap(rest');
      assert rest' == [] || IsSep(rest'[0]);
      AlternationCons(g, w, tail);
    }
  }

  lemma AlternationTail(sg: seq<string>)
    requires Alternation(sg) && |sg| > 1
    ensures |sg| >= 3 && Alternation(sg[2..])
    ensures AllSep(sg[0]) && |sg[1]| > 0 && NoSep(sg[1])
    ensures |sg| > 3 ==> |sg[2]| > 0
  {
    var t := sg[2..];
    forall i | 0 <= i < |t|
      ensures t[i] == sg[i + 2]
    {
    }
    assert (|sg| - 2) % 2 == 1 by {
      assert |sg| % 2 == 1;
    }
  }

  /** Text that is empty or starts with a separator character. */
  predicate StartsAtSep(s: string) { s == [] || IsSep(s[0]) }

  /** Round trip: splitting the concatenation of an alternating run sequence gives the sequence back. */
  lemma {:induction false} SegmentsOfAlternation(sg: seq<string>)
    requires Alternation(sg)
    ensures Segments(Concat(sg)) == sg
    decreases |sg|
  {
    var s := Concat(sg);
    var g := sg[0];
    if |sg| == 1 {
      ConcatCons(g, []);
      assert [g] + [] == sg;
      GapOfConcat(g, []);
      assert g + [] == g;
      SegmentsStep(s);
    } else {
      AlternationTail(sg);
      var w, tail := sg[1], sg[2..];
      var c := Concat(tail);
      ConsPairSplit(sg);
      ConcatCons(w, tail);
      ConcatCons(g, [w] + tail);
      var rest := w + c;
      assert s == g + rest;
      GapOfConcat(g, rest);
      assert |tail| > 1 ==> |tail[0]| > 0;
      TailStartsAtSep(tail);
      WordOfConcat(w, c);
      SegmentsStep(s);
      assert s[|g|..] == rest;
      assert rest[|w|..] == c;
      SegmentsOfAlternation(tail);
      ConsPair(g, w, tail);
    }
  }

  lemma TailStartsAtSep(tail: seq<string>)
    requires Alternation(tail)
    requires |tail| > 1 ==> |tail[0]| > 0
    ensures StartsAtSep(Concat(tail))
  {
    ConcatCons(tail[0], tail[1..]);
    assert tail == [tail[0]] + tail[1..];
    if tail[0] == [] {
      assert |tail| == 1 && tail[1..] == [];
      assert Concat(tail) == [];
    }
  }

  /** A header column name: non-empty, without whitespace or bars. */
  predicate LiteralOk(e: Elem) {
    e.Literal? ==> |e.text| > 0 && NoSep(e.text)
  }

  /** Elements alternate: separators at even positions, words at odd ones. */
  predicate Alternating(q: seq<Elem>) {
    |q| % 2 == 1 && forall i :: 0 <= i < |q| ==> (IsWordElem(q[i]) <==> i % 2 == 1) && LiteralOk(q[i])
  }

  lemma AlternatingTail(q: seq<Elem>)
    requires Alternating(q) && |q| > 1
    ensures |q| >= 3 && !IsWordElem(q[0]) && IsWordElem(q[1]) && LiteralOk(q[1]) && Alternating(q[2..])
  {
    forall i | 0 <= i < |q| - 2
      ensures (IsWordElem(q[2..][i]) <==> i % 2 == 1) && LiteralOk(q[2..][i])
    {
      assert q[2..][i] == q[i + 2];
    }
  }

  /** What may follow an alternating pattern: nothing, or a final `\s*`. */
  predicate IsTrailer(t: seq<Elem>) { t == [] || t == [AnySpace] }

  /** The pieces a trailer adds to a match of the split. */
  function TrailerPieces(t: seq<Elem>): seq<string> {
    if t == [] then [] else [""]
  }

  /** A trailer after a separator run that took all the whitespace. */
  lemma TrailerMatch(t: seq<Elem>, rest: string)
    requires IsTrailer(t)
    requires rest == [] || !IsSep(rest[0])
    ensures MatchPattern(t, rest) == if rest == [] then Some(TrailerPieces(t)) else None
  {
    if t != [] {
      GapOfConcat([], rest);
      assert [] + rest == rest;
      assert Gap(rest) == [];
      assert rest[0..] == rest;
      assert t[1..] == [];
      assert ElemMatches(AnySpace, []);
      if rest == [] {
        assert MatchPattern(t[1..], rest) == Some([]);
        var one: seq<string> := [[]];
        assert one + [] == one;
        assert MatchPattern(t, rest) == Some(one);
      } else {
        assert MatchPattern(t[1..], rest) == None;
      }
    }
  }

  /** Matching a separator element followed by a word element, one step each. */
  lemma MatchTwoSteps(q: seq<Elem>, s: string)
    requires |q| >= 2 && !IsWordElem(q[0]) && IsWordElem(q[1])
    ensures var g := Gap(s);
            var rest := s[|g|..];
            var w := Word(rest);
            MatchPattern(q, s) ==
              if ElemMatches(q[0], g) && ElemMatches(q[1], w) then Prepend(g, Prepend(w, MatchPattern(q[2..], rest[|w|..])))
              else None
  {
    assert Piece(q[0], s) == Gap(s);
    var rest := s[|Gap(s)|..];
    assert IsWordElem(q[1..][0]);
    assert Piece(q[1..][0], rest) == Word(rest);
    assert q[1..][1..] == q[2..];
  }

  /** The last separator element of an alternating pattern, then the trailer. */
  lemma AlternatingMatchLast(q: seq<Elem>, t: seq<Elem>, s: string)
    requires Alternating(q) && |q| == 1 && IsTrailer(t)
    ensures MatchPattern(q + t, s) ==
              if Fits(q, Segments(s)) then Some(Segments(s) + TrailerPieces(t)) else None
  {
    var p := q + t;
    var sg := Segments(s);
    var g := Gap(s);
    var rest := s[|g|..];
    SegmentsStep(s);
    assert p[0] == q[0] && p[1..] == t;
    assert Piece(p[0], s) == g;
    TrailerMatch(t, rest);
    if rest == [] {
      var all: seq<string> := [g] + TrailerPieces(t);
      assert all == sg + TrailerPieces(t);
    }
  }

  lemma ConsPairAppend<T>(a: T, b: T, tail: seq<T>, x: seq<T>)
    ensures [a] + ([b] + (tail + x)) == ([a, b] + tail) + x
  {
  }

  /**
   * For an alternating pattern and its trailer, the matcher succeeds exactly
   * when the split of the line fits the pattern element by element, and the
   * pieces are then the split.
   */
  lemma {:induction false} AlternatingMatch(q: seq<Elem>, t: seq<Elem>, s: string)
    requires Alternating(q) && IsTrailer(t)
    ensures MatchPattern(q + t, s) ==
              if Fits(q, Segments(s)) then Some(Segments(s) + TrailerPieces(t)) else None
    decreases |q|
  {
    if |q| == 1 {
      AlternatingMatchLast(q, t, s);
    } else {
      AlternatingTail(q);
      var p := q + t;
      var q' := q[2..];
      assert p[2..] == q' + t;
      assert p[0] == q[0] && p[1] == q[1];
      MatchTwoSteps(p, s);
      var g := Gap(s);
      var rest := s[|g|..];
      var w := Word(rest);
      SegmentsStep(s);
      if rest == [] {
        assert !ElemMatches(q[1], w);
        assert Segments(s) == [g];
      } else {
        var rest' := rest[|w|..];
        var tail := Segments(rest');
        var sg := [g, w] + tail;
        assert Segments(s) == sg;
        var m := MatchPattern(q' + t, rest');
        assert MatchPattern(p, s) == if ElemMatches(q[0], g) && ElemMatches(q[1], w) then Prepend(g, Prepend(w, m)) else None;
        AlternatingMatch(q', t, rest');
        assert sg[0] == g && sg[1] == w && sg[2..] == tail;
        FitsCons(q, sg);
        assert Fits(q, sg) <==> ElemMatches(q[0], g) && ElemMatches(q[1], w) && Fits(q', tail);
        if Fits(q, sg) {
          ConsPairAppend(g, w, tail, TrailerPieces(t));
        }
      }
    }
  }

  /** Matching a line is matching its split. */
  lemma MatchesIffFits(q: seq<Elem>, t: seq<Elem>, s: string)
    requires Alternating(q) && IsTrailer(t)
    ensures MatchPattern(q + t, s).Some? <==> Fits(q, Segments(s))
  {
    AlternatingMatch(q, t, s);
  }

  /** No separator strictly inside the pattern may match the empty string. */
  predicate InnerNonEmpty(q: seq<Elem>) {
    forall i :: 0 < i < |q| - 1 ==> q[i] != AnySpace
  }

  lemma PointedNoSep(c: string)
    requires PointedNumeral(c)
    ensures NoSep(c)
  {
    var k := IndexOf(c, '.');
    var ip, fp := c[..k], c[k + 1..];
    forall i | 0 <= i < |c|
      ensures !IsSep(c[i])
    {
      if i < k {
        assert c[i] == ip[i];
      } else if i > k {
        assert c[i] == fp[i - k - 1];
      }
    }
  }

  lemma NumeralNoSep(c: string)
    requires IsNumeral(c)
    ensures |c| > 0 && NoSep(c)
  {
    if !(|c| > 0 && AllDigits(c)) {
      PointedNoSep(c);
    }
  }

  /** A numeric token is never empty and holds no whitespace or bar. */
  lemma TokenNoSep(t: string)
    requires IsToken(t)
    ensures |t| > 0 && NoSep(t)
  {
    if !IsNumeral(t) {
      var c := t[..|t| - 1];
      NumeralNoSep(c);
      forall i | 0 <= i < |t|
        ensures !IsSep(t[i])
      {
        if i < |c| {
          assert t[i] == c[i];
        }
      }
    } else {
      NumeralNoSep(t);
    }
  }

  /** A word piece is never empty and holds no whitespace or bar. */
  lemma WordPiece(e: Elem, piece: string)
    requires IsWordElem(e) && LiteralOk(e) && ElemMatches(e, piece)
    ensures |piece| > 0 && NoSep(piece)
  {
    if e.Field? {
      TokenNoSep(piece);
    }
  }

  /** A separator piece is whitespace and bars, and not empty unless its element is `\s*`. */
  lemma SeparatorPiece(e: Elem, piece: string)
    requires !IsWordElem(e) && ElemMatches(e, piece)
    ensures AllSep(piece)
    ensures e != AnySpace ==> |piece| > 0
  {
    if e == BarSep {
      assert Count(piece, '|') != 0;
    }
  }

  lemma ConsPairSplit<T>(x: seq<T>)
    requires |x| >= 2
    ensures x == [x[0]] + ([x[1]] + x[2..])
  {
  }

  /** The text matched from a separator element on starts with a separator character, if with anything. */
  lemma LeadingSep(q: seq<Elem>, pcs: seq<string>)
    requires Alternating(q) && |q| >= 1
    requires |q| == 1 || q[0] != AnySpace
    requires Fits(q + [AnySpace], pcs)
    ensures Concat(pcs) == [] || IsSep(Concat(pcs)[0])
  {
    var p := q + [AnySpace];
    assert p[0] == q[0] && !IsWordElem(q[0]);
    FitsAt(p, pcs, 0);
    ConcatCons(pcs[0], pcs[1..]);
    assert pcs == [pcs[0]] + pcs[1..];
    SeparatorPiece(q[0], pcs[0]);
    if pcs[0] == [] {
      assert p[1] == AnySpace;
      FitsAt(p, pcs, 1);
      SeparatorPiece(p[1], pcs[1]);
      ConcatCons(pcs[1], pcs[2..]);
      assert pcs[1..] == [pcs[1]] + pcs[2..];
    }
  }

  lemma EmptyPrefix<T>(x: seq<T>, e: T)
    ensures x[..0] + [e] == [e]
  {
  }

  lemma SplitShift<T>(x: seq<T>, n: nat, e: T)
    requires 3 <= n && n + 1 == |x|
    ensures [x[0], x[1]] + (x[2..][..n - 3] + [e]) == x[..n - 1] + [e]
  {
  }

  /** The last separator piece and the final `\s*` piece together form the whole remaining text. */
  lemma DecompositionLast(q: seq<Elem>, pcs: seq<string>, s: string)
    requires Alternating(q) && |q| == 1
    requires Fits(q + [AnySpace], pcs) && Concat(pcs) == s
    ensures Segments(s) == pcs[..|q| - 1] + [pcs[|q| - 1] + pcs[|q|]]
  {
    var p := q + [AnySpace];
    assert p[0] == q[0] && !IsWordElem(p[0]) && p[1] == AnySpace;
    FitsAt(p, pcs, 0);
    FitsAt(p, pcs, 1);
    ConcatCons(pcs[0], pcs[1..]);
    ConcatCons(pcs[1], pcs[2..]);
    assert pcs[1..] == [pcs[1]] + pcs[2..] && pcs[2..] == [];
    var all := pcs[0] + pcs[1];
    assert s == all;
    SeparatorPiece(p[0], pcs[0]);
    SeparatorPiece(p[1], pcs[1]);
    assert AllSep(all);
    GapOfConcat(all, []);
    assert all + [] == all;
    SegmentsStep(s);
    EmptyPrefix(pcs, all);
  }

  /** One step of `DecompositionIsSplit`: the first two pieces are the first two runs of the split. */
  lemma DecompositionStep(q: seq<Elem>, pcs: seq<string>, s: string)
    requires Alternating(q) && InnerNonEmpty(q) && |q| > 1
    requires Fits(q + [AnySpace], pcs) && Concat(pcs) == s
    ensures |pcs| == |q| + 1
    ensures Alternating(q[2..]) && InnerNonEmpty(q[2..])
    ensures Fits(q[2..] + [AnySpace], pcs[2..])
    ensures Segments(s) == [pcs[0], pcs[1]] + Segments(Concat(pcs[2..]))
  {
    var p := q + [AnySpace];
    AlternatingTail(q);
    var q' := q[2..];
    var pcs' := pcs[2..];
    assert p[2..] == q' + [AnySpace];
    FitsCons(p, pcs);
    assert p[0] == q[0] && p[1] == q[1];
    WordPiece(q[1], pcs[1]);
    var c2 := Concat(pcs');
    ConsPairSplit(pcs);
    ConcatCons(pcs[1], pcs');
    ConcatCons(pcs[0], [pcs[1]] + pcs');
    var rest := pcs[1] + c2;
    assert s == pcs[0] + rest;
    SeparatorPiece(q[0], pcs[0]);
    GapOfConcat(pcs[0], rest);
    assert InnerNonEmpty(q') by {
      forall i | 0 < i < |q'| - 1
        ensures q'[i] != AnySpace
      {
        assert q'[i] == q[i + 2];
      }
    }
    assert |q'| == 1 || q'[0] != AnySpace by {
      if |q'| > 1 {
        assert q'[0] == q[2];
      }
    }
    LeadingSep(q', pcs');
    WordOfConcat(pcs[1], c2);
    SegmentsStep(s);
    assert s[|pcs[0]|..] == rest;
    assert rest[|pcs[1]|..] == c2;
  }

  /**
   * Any cut of a line into pieces matching an alternating pattern followed by
   * `\s*` is the line's split, except that the last two separator pieces are
   * merged in the split.
   */
  lemma {:induction false} DecompositionIsSplit(q: seq<Elem>, pcs: seq<string>, s: string)
    requires Alternating(q) && InnerNonEmpty(q)
    requires Fits(q + [AnySpace], pcs) && Concat(pcs) == s
    ensures Segments(s) == pcs[..|q| - 1] + [pcs[|q| - 1] + pcs[|q|]]
    decreases |q|
  {
    if |q| == 1 {
      DecompositionLast(q, pcs, s);
    } else {
      DecompositionStep(q, pcs, s);
      var q', pcs' := q[2..], pcs[2..];
      var c2 := Concat(pcs');
      DecompositionIsSplit(q', pcs', c2);
      var e := pcs[|q| - 1] + pcs[|q|];
      assert e == pcs'[|q'| - 1] + pcs'[|q'|];
      SplitShift(pcs, |q|, e);
    }
  }

  lemma SeqExt<T>(a: seq<T>, b: seq<T>)
    requires |a| == |b| && forall i :: 0 <= i < |a| ==> a[i] == b[i]
    ensures a == b
  {
  }
}
