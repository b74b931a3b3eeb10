/**
 * The banner pattern FIRST_LINE: the group titles dstat prints on its first
 * line (`memory-usage`, `total-cpu-usage`, `dsk/total`, `net/total`, `paging`,
 * `system`), each padded with dashes, one space between groups.
 *
 * The regex uses only single characters and starred character classes, so it
 * is modelled as a sequence of such atoms with the usual backtracking reading
 * of concatenation and star: `Matches(p, s)` holds when the whole of `s` is in
 * the language of `p`, which is what `Matcher.matches()` decides.
 */
module BannerPattern {
  import opened CharClasses

  /** The character classes the banner regex uses. */
  datatype CharClass =
    | WordChars     // \w
    | NonWordChars  // \W
    | SpaceChars    // \s
    | Exactly(c: char)

  predicate InClass(k: CharClass, c: char) {
    match k
    case WordChars => IsWordChar(c)
    case NonWordChars => !IsWordChar(c)
    case SpaceChars => IsSpace(c)
    case Exactly(d) => c == d
  }

  /** One atom of the regex: a fixed character, or a starred class. */
  datatype Atom = One(c: char) | Star(k: CharClass)

  /** Whole-string membership in the language of an atom sequence. */
  predicate Matches(p: seq<Atom>, s: string)
    decreases |s|, |p|
  {
    if p == [] then s == []
    else match p[0]
      case One(c) => |s| > 0 && s[0] == c && Matches(p[1..], s[1..])
      case Star(k) => Matches(p[1..], s) || (|s| > 0 && InClass(k, s[0]) && Matches(p, s[1..]))
  }

  /** A literal word, character by character. */
  function Lits(w: string): (p: seq<Atom>)
    ensures |p| == |w|
  {
    seq(|w|, i requires 0 <= i < |w| => One(w[i]))
  }

  const Dash: Atom := Star(Exactly('-'))

  /** `-*name-*`: one group title with its dashes. */
  function Column(w: string): seq<Atom> {
    [Dash] + Lits(w) + [Dash]
  }

  /** FIRST_LINE: `^\W*\w*`, the six group titles separated by single spaces, `\s*$`. */
  function BannerPattern(): seq<Atom> {
    [Star(NonWordChars), Star(WordChars)]
      + Column("memory-usage") + [One(' ')]
      + Column("total-cpu-usage") + [One(' ')]
      + Column("dsk/total") + [One(' ')]
      + Column("net/total") + [One(' ')]
      + Column("paging") + [One(' ')]
      + Column("system")
      + [Star(SpaceChars)]
  }

  /** `FIRST_LINE.matcher(line).matches()`. */
  predicate MatchBanner(line: string) {
    Matches(BannerPattern(), line)
  }

  /** The language of a concatenation contains the concatenations of its parts' words. */
  lemma {:induction false} MatchesConcat(p1: seq<Atom>, s1: string, p2: seq<Atom>, s2: string)
    requires Matches(p1, s1) && Matches(p2, s2)
    ensures Matches(p1 + p2, s1 + s2)
    decreases |s1|, |p1|
  {
    if p1 == [] {
      assert p1 + p2 == p2 && s1 + s2 == s2;
    } else {
      assert (p1 + p2)[0] == p1[0] && (p1 + p2)[1..] == p1[1..] + p2;
      match p1[0]
      case One(c) =>
        MatchesConcat(p1[1..], s1[1..], p2, s2);
        assert (s1 + s2)[0] == c && (s1 + s2)[1..] == s1[1..] + s2;
      case Star(k) =>
        if Matches(p1[1..], s1) {
          MatchesConcat(p1[1..], s1, p2, s2);
        } else {
          MatchesConcat(p1, s1[1..], p2, s2);
          assert (s1 + s2)[0] == s1[0] && (s1 + s2)[1..] == s1[1..] + s2;
        }
    }
  }

  /** A literal matches exactly its own text. */
  lemma {:induction false} LitsMatch(w: string, s: string)
    ensures Matches(Lits(w), s) <==> s == w
    decreases |w|
  {
    if w != [] {
      assert Lits(w)[0] == One(w[0]) && Lits(w)[1..] == Lits(w[1..]);
      LitsMatch(w[1..], if |s| > 0 then s[1..] else s);
      if |s| > 0 {
        assert s == [s[0]] + s[1..] && w == [w[0]] + w[1..];
      }
    }
  }

  /** A starred class matches every run of its characters. */
  lemma {:induction false} StarMatches(k: CharClass, s: string)
    requires forall i :: 0 <= i < |s| ==> InClass(k, s[i])
    ensures Matches([Star(k)], s)
    decreases |s|
  {
    var p := [Star(k)];
    assert p[1..] == [];
    if s != [] {
      StarMatches(k, s[1..]);
    }
  }

  /** `n` dashes. */
  function Dashes(n: nat): (d: string)
    ensures |d| == n
  {
    seq(n, i => '-')
  }

  lemma ColumnMatches(w: string, a: nat, b: nat)
    ensures Matches(Column(w), Dashes(a) + w + Dashes(b))
  {
    StarMatches(Exactly('-'), Dashes(a));
    StarMatches(Exactly('-'), Dashes(b));
    LitsMatch(w, w);
    MatchesConcat([Dash], Dashes(a), Lits(w), w);
    MatchesConcat([Dash] + Lits(w), Dashes(a) + w, [Dash], Dashes(b));
  }

  lemma SpaceMatches()
    ensures Matches([One(' ')], " ")
  {
    var p := [One(' ')];
    assert p[1..] == [];
    assert " "[1..] == [];
  }

  lemma EmptyMatches(k: CharClass)
    ensures Matches([Star(k)], [])
  {
    var p := [Star(k)];
    assert p[1..] == [];
  }

  /** A group title with `a` dashes before and `b` after. */
  function ColumnText(w: string, a: nat, b: nat): string {
    Dashes(a) + w + Dashes(b)
  }

  /** A banner line: the six titles with the given dash padding, one space apart. */
  function BannerText(d: seq<nat>): string
    requires |d| == 12
  {
    ColumnText("memory-usage", d[0], d[1]) + " "
      + ColumnText("total-cpu-usage", d[2], d[3]) + " "
      + ColumnText("dsk/total", d[4], d[5]) + " "
      + ColumnText("net/total", d[6], d[7]) + " "
      + ColumnText("paging", d[8], d[9]) + " "
      + ColumnText("system", d[10], d[11])
  }

  /** Appending one more group title after a space keeps the match. */
  lemma ExtendByColumn(p: seq<Atom>, s: string, w: string, a: nat, b: nat)
    requires Matches(p, s)
    ensures Matches(p + [One(' ')] + Column(w), s + " " + ColumnText(w, a, b))
  {
    SpaceMatches();
    MatchesConcat(p, s, [One(' ')], " ");
    ColumnMatches(w, a, b);
    MatchesConcat(p + [One(' ')], s + " ", Column(w), ColumnText(w, a, b));
  }

  /** Every banner line, however its titles are padded with dashes, matches FIRST_LINE. */
  lemma BannerTextMatches(d: seq<nat>)
    requires |d| == 12
    ensures MatchBanner(BannerText(d))
  {
    var head: seq<Atom> := [Star(NonWordChars), Star(WordChars)];
    EmptyMatches(NonWordChars);
    EmptyMatches(WordChars);
    MatchesConcat([Star(NonWordChars)], [], [Star(WordChars)], []);
    assert [Star(NonWordChars)] + [Star(WordChars)] == head;
    ColumnMatches("memory-usage", d[0], d[1]);
    MatchesConcat(head, [], Column("memory-usage"), ColumnText("memory-usage", d[0], d[1]));
    var p := head + Column("memory-usage");
    var s := ColumnText("memory-usage", d[0], d[1]);
    assert [] + s == s;
    ExtendByColumn(p, s, "total-cpu-usage", d[2], d[3]);
    p, s := p + [One(' ')] + Column("total-cpu-usage"), s + " " + ColumnText("total-cpu-usage", d[2], d[3]);
    ExtendByColumn(p, s, "dsk/total", d[4], d[5]);
    p, s := p + [One(' ')] + Column("dsk/total"), s + " " + ColumnText("dsk/total", d[4], d[5]);
    ExtendByColumn(p, s, "net/total", d[6], d[7]);
    p, s := p + [One(' ')] + Column("net/total"), s + " " + ColumnText("net/total", d[6], d[7]);
    ExtendByColumn(p, s, "paging", d[8], d[9]);
    p, s := p + [One(' ')] + Column("paging"), s + " " + ColumnText("paging", d[8], d[9]);
    ExtendByColumn(p, s, "system", d[10], d[11]);
    p, s := p + [One(' ')] + Column("system"), s + " " + ColumnText("system", d[10], d[11]);
    EmptyMatches(SpaceChars);
    MatchesConcat(p, s, [Star(SpaceChars)], []);
    assert s + [] == s;
  }

  /** After `\W*\w*` the pattern needs a dash or the first title's `m`, so
      a line cannot start with a word character followed by a non-word
      character that is not a dash. */
  lemma PrefixRejected(rest: seq<Atom>, t: string)
    ensures !Matches([Star(NonWordChars), Star(WordChars), Dash, One('m')] + rest, "a!" + t)
  {
    var p0 := [Star(NonWordChars), Star(WordChars), Dash, One('m')] + rest;
    var p1 := [Star(WordChars), Dash, One('m')] + rest;
    var p2 := [Dash, One('m')] + rest;
    var p3 := [One('m')] + rest;
    assert p0[1..] == p1 && p1[1..] == p2 && p2[1..] == p3;
    var s0 := "a!" + t;
    var s1 := "!" + t;
    assert s0[0] == 'a' && s0[1..] == s1 && s1[0] == '!';
    assert !Matches(p3, s0) && !Matches(p3, s1);
    assert !Matches(p2, s0) && !Matches(p2, s1);
    assert !Matches(p1, s1);
  }

  /** FIRST_LINE refuses every line that starts with `a!`: the text before the
      first title is a run of non-word characters and then a run of word
      characters, never a word character followed by a non-word one. */
  lemma BannerPrefixRejected(t: string)
    ensures !MatchBanner("a!" + t)
  {
    var p := BannerPattern();
    assert Lits("memory-usage")[0] == One('m');
    assert p[..4] == [Star(NonWordChars), Star(WordChars), Dash, One('m')];
    assert p == p[..4] + p[4..];
    PrefixRejected(p[4..], t);
  }
}
