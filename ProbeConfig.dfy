/**
 * What the probe reads from the benchmark configuration and what it declares:
 * the dstat executable (`path`), its arguments (`opts`), the command line it
 * reports, and the column descriptions (`metaInfo`).
 */
module ProbeConfig {
  import opened CharClasses
  import opened JavaDecimal
  import opened ValuesPattern
  import opened HeaderPattern

  /** Custom property naming the dstat executable. */
  const PathKey: string := "benchmark.probe.dstat.path"

  /** Custom property holding dstat's arguments. */
  const OptsKey: string := "benchmark.probe.dstat.opts"

  const DefaultIntervalSecs: nat := 1

  const DefaultPath: string := "dstat"

  /** Memory columns, all stat groups, no repeated headers, one line per interval. */
  const DefaultOpts: string := "-m --all --noheaders --noupdate " + NatToDigits(DefaultIntervalSecs)

  /** A custom property, with `dflt` when it is absent or empty. */
  function Setting(props: map<string, string>, key: string, dflt: string): (r: string)
    ensures key in props && props[key] != [] ==> r == props[key]
    ensures !(key in props && props[key] != []) ==> r == dflt
  {
    if key !in props || props[key] == [] then dflt else props[key]
  }

  /** `path(cfg)`: the configured executable, `dstat` by default; never empty. */
  function Path(props: map<string, string>): (r: string)
    ensures r != []
    ensures PathKey in props && props[PathKey] != [] ==> r == props[PathKey]
    ensures !(PathKey in props && props[PathKey] != []) ==> r == DefaultPath
  {
    Setting(props, PathKey, DefaultPath)
  }

  // ----- String.split("\\s+") -----

  predicate NoSpace(s: string) { forall i :: 0 <= i < |s| ==> !IsSpace(s[i]) }

  /** The runs between maximal whitespace runs, the one before the first and the one after the last included. */
  function Chunks(s: string): (c: seq<string>)
    ensures |c| > 0
    decreases |s|
  {
    var w := NonSpaces(s);
    if |w| == |s| then [w]
    else
      var rest := s[|w|..];
      var g := Spaces(rest);
      assert |g| > 0;
      [w] + Chunks(rest[|g|..])
  }

  /** Drops the empty strings at the end, as `split` with limit 0 does. */
  function StripTrailingEmpty(l: seq<string>): (r: seq<string>)
    ensures |r| <= |l| && r == l[..|r|]
    ensures r != [] ==> r[|r| - 1] != []
  {
    if l != [] && l[|l| - 1] == [] then StripTrailingEmpty(l[..|l| - 1]) else l
  }

  /** `s.split("\\s+")`: the whole string when it has no whitespace, else the chunks without trailing empties. */
  function SplitOnSpaces(s: string): seq<string> {
    if NoSpace(s) then [s] else StripTrailingEmpty(Chunks(s))
  }

  /** `opts(cfg)`: the configured arguments, or the default ones, split on whitespace. */
  function Options(props: map<string, string>): seq<string> {
    SplitOnSpaces(Setting(props, OptsKey, DefaultOpts))
  }

  /** `cmdParams`: the executable followed by its arguments. */
  function Command(props: map<string, string>): (cmd: seq<string>)
    ensures |cmd| > 0 && cmd[0] == Path(props)
    ensures cmd[1..] == Options(props)
  {
    [Path(props)] + Options(props)
  }

  lemma {:induction false} ChunksNoSpace(s: string)
    ensures forall i :: 0 <= i < |Chunks(s)| ==> NoSpace(Chunks(s)[i])
    decreases |s|
  {
    var w := NonSpaces(s);
    if |w| < |s| {
      var rest := s[|w|..];
      var g := Spaces(rest);
      ChunksNoSpace(rest[|g|..]);
    }
  }

  /** No argument produced by the split holds whitespace. */
  lemma SplitNoSpace(s: string)
    ensures forall i :: 0 <= i < |SplitOnSpaces(s)| ==> NoSpace(SplitOnSpaces(s)[i])
  {
    if !NoSpace(s) {
      ChunksNoSpace(s);
    }
  }

  /** Words joined with `sep`. */
  function JoinWith(ws: seq<string>, sep: string): string
    decreases |ws|
  {
    if ws == [] then [] else if |ws| == 1 then ws[0] else ws[0] + sep + JoinWith(ws[1..], sep)
  }

  /** Nonempty words free of whitespace. */
  predicate AreWords(ws: seq<string>) {
    forall i :: 0 <= i < |ws| ==> ws[i] != [] && NoSpace(ws[i])
  }

  lemma {:induction false} NonSpacesOfConcat(w: string, rest: string)
    requires NoSpace(w)
    requires rest == [] || IsSpace(rest[0])
    ensures NonSpaces(w + rest) == w
    decreases |w|
  {
    if w != [] {
      NonSpacesOfConcat(w[1..], rest);
      assert (w + rest)[1..] == w[1..] + rest;
    } else {
      assert w + rest == rest;
    }
  }

  /** A whitespace run followed by text that does not start with whitespace is that text's maximal whitespace prefix. */
  lemma {:induction false} SpacesOfConcat(g: string, rest: string)
    requires AllSpace(g)
    requires rest == [] || !IsSpace(rest[0])
    ensures Spaces(g + rest) == g
    decreases |g|
  {
    if g == [] {
      assert g + rest == rest;
    } else {
      assert (g + rest)[1..] == g[1..] + rest;
      SpacesOfConcat(g[1..], rest);
    }
  }

  /** Whitespace runs that may stand between two words: nonempty and whitespace only. */
  predicate AreGaps(gaps: seq<string>) {
    forall i :: 0 <= i < |gaps| ==> gaps[i] != [] && AllSpace(gaps[i])
  }

  /** The words with `gaps[i]` between word i and word i + 1, and the whitespace `trail` after the last word. */
  function Spaced(ws: seq<string>, gaps: seq<string>, trail: string): string
    decreases |ws|
  {
    if ws == [] then trail
    else if |ws| == 1 || gaps == [] then ws[0] + trail
    else ws[0] + gaps[0] + Spaced(ws[1..], gaps[1..], trail)
  }

  /** Nonempty words, one whitespace run between each two, and whitespace after the last. */
  predicate SpacedLayout(ws: seq<string>, gaps: seq<string>, trail: string) {
    |ws| > 0 && AreWords(ws) && |gaps| + 1 == |ws| && AreGaps(gaps) && AllSpace(trail)
  }

  /** Spaced words start with the first word's first character. */
  lemma SpacedStart(ws: seq<string>, gaps: seq<string>, trail: string)
    requires SpacedLayout(ws, gaps, trail)
    ensures |Spaced(ws, gaps, trail)| > 0 && Spaced(ws, gaps, trail)[0] == ws[0][0]
  {
  }

  /** A string free of whitespace is a single chunk. */
  lemma ChunksOfWord(w: string)
    requires NoSpace(w)
    ensures Chunks(w) == [w]
  {
    NonSpacesOfConcat(w, []);
    assert w + [] == w;
  }

  /** A whitespace-free run, a whitespace run, then text starting otherwise: the run is the first chunk. */
  lemma ChunksCons(w: string, g: string, r: string)
    requires NoSpace(w) && g != [] && AllSpace(g)
    requires r == [] || !IsSpace(r[0])
    ensures Chunks(w + g + r) == [w] + Chunks(r)
  {
    var s := w + g + r;
    assert s == w + (g + r);
    NonSpacesOfConcat(w, g + r);
    assert s[|w|..] == g + r;
    SpacesOfConcat(g, r);
    assert (g + r)[|g|..] == r;
  }

  /** Chunking spaced words gives the words back, and one empty chunk after them when whitespace trails. */
  lemma {:induction false} ChunksOfSpaced(ws: seq<string>, gaps: seq<string>, trail: string)
    requires SpacedLayout(ws, gaps, trail)
    ensures Chunks(Spaced(ws, gaps, trail)) == ws + (if trail == [] then [] else [[]])
    decreases |ws|
  {
    var tl: seq<string> := if trail == [] then [] else [[]];
    if |ws| == 1 {
      assert ws == [ws[0]];
      if trail == [] {
        assert Spaced(ws, gaps, trail) == ws[0] + [];
        assert ws[0] + [] == ws[0];
        ChunksOfWord(ws[0]);
      } else {
        assert Spaced(ws, gaps, trail) == ws[0] + trail + [];
        ChunksCons(ws[0], trail, []);
        ChunksOfWord([]);
      }
    } else {
      var w, g, r := ws[0], gaps[0], Spaced(ws[1..], gaps[1..], trail);
      assert Spaced(ws, gaps, trail) == w + g + r;
      SpacedStart(ws[1..], gaps[1..], trail);
      ChunksCons(w, g, r);
      ChunksOfSpaced(ws[1..], gaps[1..], trail);
      assert [w] + (ws[1..] + tl) == ws + tl;
    }
  }

  /** Dropping trailing empties leaves a list ending in a nonempty string as it is, also after one empty string is added. */
  lemma StripOne(l: seq<string>)
    requires l != [] && l[|l| - 1] != []
    ensures StripTrailingEmpty(l) == l
    ensures StripTrailingEmpty(l + [[]]) == l
  {
    assert (l + [[]])[..|l|] == l;
  }

  /**
   * `split("\\s+")` of words separated by any whitespace runs, with any whitespace
   * before and after them: the words, after one empty argument when whitespace leads.
   */
  lemma SplitOfSpaced(lead: string, ws: seq<string>, gaps: seq<string>, trail: string)
    requires AllSpace(lead) && SpacedLayout(ws, gaps, trail)
    ensures SplitOnSpaces(lead + Spaced(ws, gaps, trail)) == (if lead == [] then ws else [[]] + ws)
  {
    if lead != [] {
      SplitLeadSpaced(lead, ws, gaps, trail);
    } else {
      assert lead + Spaced(ws, gaps, trail) == Spaced(ws, gaps, trail);
      SplitSpaced(ws, gaps, trail);
    }
  }

  /** Spaced words with leading whitespace split to an empty argument followed by the words. */
  lemma SplitLeadSpaced(lead: string, ws: seq<string>, gaps: seq<string>, trail: string)
    requires lead != [] && AllSpace(lead) && SpacedLayout(ws, gaps, trail)
    ensures SplitOnSpaces(lead + Spaced(ws, gaps, trail)) == [[]] + ws
  {
    var x := Spaced(ws, gaps, trail);
    var s := lead + x;
    var tl: seq<string> := if trail == [] then [] else [[]];
    SpacedStart(ws, gaps, trail);
    ChunksOfSpaced(ws, gaps, trail);
    assert IsSpace(s[0]);
    LeadingChunk(lead, x);
    assert [[]] + (ws + tl) == ([[]] + ws) + tl;
    SplitOfChunks(s, [[]] + ws, tl);
  }

  /** Spaced words without leading whitespace split to the words. */
  lemma SplitSpaced(ws: seq<string>, gaps: seq<string>, trail: string)
    requires SpacedLayout(ws, gaps, trail)
    ensures SplitOnSpaces(Spaced(ws, gaps, trail)) == ws
  {
    var x := Spaced(ws, gaps, trail);
    if |ws| == 1 && trail == [] {
      assert x == ws[0] + [];
      assert x == ws[0];
      assert NoSpace(x);
      assert ws == [ws[0]];
    } else {
      var tl: seq<string> := if trail == [] then [] else [[]];
      ChunksOfSpaced(ws, gaps, trail);
      SpacedHasSpace(ws, gaps, trail);
      SplitOfChunks(x, ws, tl);
    }
  }

  /** A string with whitespace whose chunks are `l`, then at most one empty chunk, splits to `l` when `l` ends nonempty. */
  lemma SplitOfChunks(s: string, l: seq<string>, tl: seq<string>)
    requires !NoSpace(s) && l != [] && l[|l| - 1] != []
    requires (tl == [] || tl == [[]]) && Chunks(s) == l + tl
    ensures SplitOnSpaces(s) == l
  {
    StripOne(l);
    if tl == [] {
      assert l + tl == l;
    }
  }

  /** Leading whitespace makes an empty first chunk and is otherwise dropped. */
  lemma LeadingChunk(lead: string, x: string)
    requires lead != [] && AllSpace(lead)
    requires x == [] || !IsSpace(x[0])
    ensures Chunks(lead + x) == [[]] + Chunks(x)
  {
    var s := lead + x;
    assert [] + lead + x == s;
    ChunksCons([], lead, x);
  }

  /** Spaced words hold whitespace unless they are one word with nothing after it. */
  lemma SpacedHasSpace(ws: seq<string>, gaps: seq<string>, trail: string)
    requires SpacedLayout(ws, gaps, trail)
    requires |ws| > 1 || trail != []
    ensures !NoSpace(Spaced(ws, gaps, trail))
  {
    var x := Spaced(ws, gaps, trail);
    if |ws| > 1 {
      assert x == ws[0] + gaps[0] + Spaced(ws[1..], gaps[1..], trail);
    } else {
      assert x == ws[0] + trail;
    }
    assert IsSpace(x[|ws[0]|]);
  }

  /** Words joined by single spaces are spaced words with one-space gaps. */
  lemma {:induction false} JoinIsSpaced(ws: seq<string>)
    requires |ws| > 0
    ensures JoinWith(ws, " ") == Spaced(ws, seq(|ws| - 1, _ => " "), [])
    decreases |ws|
  {
    var gaps := seq(|ws| - 1, _ => " ");
    if |ws| == 1 {
      assert ws[0] + [] == ws[0];
    } else {
      JoinIsSpaced(ws[1..]);
      assert gaps[1..] == seq(|ws[1..]| - 1, _ => " ");
    }
  }

  /** Round trip: `split("\\s+")` of words joined by single spaces is the words. */
  lemma SplitOfJoin(ws: seq<string>)
    requires |ws| > 0 && AreWords(ws)
    ensures SplitOnSpaces(JoinWith(ws, " ")) == ws
  {
    JoinIsSpaced(ws);
    var gaps := seq(|ws| - 1, _ => " ");
    assert AreGaps(gaps);
    SplitOfSpaced([], ws, gaps, []);
    assert [] + Spaced(ws, gaps, []) == Spaced(ws, gaps, []);
  }

  /** Leading whitespace in the configured options yields an empty first argument. */
  lemma LeadingSpaceSplit(s: string)
    requires |s| > 0 && IsSpace(s[0]) && !AllSpace(s)
    ensures |SplitOnSpaces(s)| > 0 && SplitOnSpaces(s)[0] == []
  {
    assert !NoSpace(s);
    assert NonSpaces(s) == [];
    var c := Chunks(s);
    var i :| 0 <= i < |s| && !IsSpace(s[i]);
    ChunksReach(s, i);
    var k :| 0 <= k < |c| && c[k] != [];
    StripKeeps(c, k);
  }

  /** Dropping trailing empties keeps everything up to the last nonempty string. */
  lemma {:induction false} StripKeeps(l: seq<string>, k: nat)
    requires k < |l| && l[k] != []
    ensures |StripTrailingEmpty(l)| > k
    decreases |l|
  {
    if l[|l| - 1] == [] {
      StripKeeps(l[..|l| - 1], k);
    }
  }

  /** A chunk after the first holds every non-whitespace character past the leading run, so the chunks do not all vanish. */
  lemma {:induction false} ChunksReach(s: string, i: nat)
    requires i < |s| && !IsSpace(s[i])
    ensures exists k :: 0 <= k < |Chunks(s)| && Chunks(s)[k] != []
    decreases |s|
  {
    var w := NonSpaces(s);
    if |w| == |s| {
      assert Chunks(s)[0] == s;
    } else if i < |w| {
      assert Chunks(s)[0] == w;
    } else {
      var rest := s[|w|..];
      var g := Spaces(rest);
      var t := rest[|g|..];
      assert i >= |w| + |g|;
      ChunksReach(t, i - |w| - |g|);
      var k :| 0 <= k < |Chunks(t)| && Chunks(t)[k] != [];
      assert Chunks(s)[k + 1] == Chunks(t)[k];
    }
  }

  /** The default options, as dstat receives them. */
  const DefaultArgs: seq<string> := ["-m", "--all", "--noheaders", "--noupdate", "1"]

  lemma JoinCons(w: string, ws: seq<string>)
    requires |ws| > 0
    ensures JoinWith([w] + ws, " ") == w + " " + JoinWith(ws, " ")
  {
    assert ([w] + ws)[1..] == ws;
  }

  lemma DefaultOptsText()
    ensures DefaultOpts == JoinWith(DefaultArgs, " ")
  {
    DefaultOptsLiteral();
    DefaultTailText();
    DefaultArgsCons();
    JoinCons("-m", DefaultArgs[1..]);
    DefaultOptsPieces();
  }

  lemma DefaultOptsPieces()
    ensures "-m" + " " + "--all --noheaders --noupdate 1" == "-m --all --noheaders --noupdate 1"
  {
  }

  /** `DEFAULT_OPTS` with the interval written out. */
  lemma DefaultOptsLiteral()
    ensures DefaultOpts == "-m --all --noheaders --noupdate 1"
  {
    assert NatToDigits(1) == "1";
  }

  lemma DefaultArgsCons()
    ensures ["-m"] + DefaultArgs[1..] == DefaultArgs
  {
  }

  lemma DefaultTailText()
    ensures JoinWith(DefaultArgs[1..], " ") == "--all --noheaders --noupdate 1"
  {
    DefaultLastText();
    JoinCons("--all", DefaultArgs[2..]);
    assert ["--all"] + DefaultArgs[2..] == DefaultArgs[1..];
  }

  lemma DefaultLastText()
    ensures JoinWith(DefaultArgs[2..], " ") == "--noheaders --noupdate 1"
  {
    assert JoinWith(["1"], " ") == "1";
    JoinCons("--noupdate", ["1"]);
    JoinCons("--noheaders", ["--noupdate", "1"]);
    assert ["--noheaders"] + ["--noupdate", "1"] == DefaultArgs[2..];
  }

  lemma DefaultArgsAreWords()
    ensures |DefaultArgs| > 0 && AreWords(DefaultArgs)
  {
  }

  /** Without (or with an empty) `opts` property, dstat gets `-m --all --noheaders --noupdate 1`. */
  lemma DefaultOptions(props: map<string, string>)
    requires OptsKey !in props || props[OptsKey] == []
    ensures Options(props) == DefaultArgs
  {
    DefaultOptsText();
    DefaultArgsAreWords();
    SplitOfJoin(DefaultArgs);
  }

  /**
   * A configured `opts` of words separated by any whitespace runs is passed on
   * word for word; trailing whitespace is dropped, and leading whitespace adds
   * an empty first argument.
   */
  lemma ConfiguredOptions(props: map<string, string>, lead: string, ws: seq<string>, gaps: seq<string>, trail: string)
    requires AllSpace(lead) && SpacedLayout(ws, gaps, trail)
    requires OptsKey in props && props[OptsKey] == lead + Spaced(ws, gaps, trail)
    ensures Options(props) == (if lead == [] then ws else [[]] + ws)
  {
    SpacedStart(ws, gaps, trail);
    SplitOfSpaced(lead, ws, gaps, trail);
  }

  /** Tabs and runs of spaces separate arguments too, and trailing whitespace adds none. */
  lemma TabbedOptionsExample()
    ensures SplitOnSpaces("-m\t--all  1 ") == ["-m", "--all", "1"]
  {
    var ws, gaps := ["-m", "--all", "1"], ["\t", "  "];
    assert SpacedLayout(ws, gaps, " ");
    assert Spaced(ws, gaps, " ") == "-m\t--all  1 ";
    SplitOfSpaced([], ws, gaps, " ");
    assert [] + "-m\t--all  1 " == "-m\t--all  1 ";
  }

  // ----- The command line as the probe reports it -----

  /** Drops the characters `start`'s `replaceAll(",|\\[|\\]", "")` removes. */
  function Unbracket(s: string): (r: string)
    ensures |r| <= |s|
    ensures forall i :: 0 <= i < |r| ==> r[i] != ',' && r[i] != '[' && r[i] != ']'
  {
    if s == [] then []
    else if s[0] == ',' || s[0] == '[' || s[0] == ']' then Unbracket(s[1..])
    else [s[0]] + Unbracket(s[1..])
  }

  /** `execCmd`: the list's `toString()`, `[a, b, c]`, with commas and brackets removed. */
  function ExecCmd(cmd: seq<string>): string {
    Unbracket("[" + JoinWith(cmd, ", ") + "]")
  }

  lemma {:induction false} UnbracketAppend(a: string, b: string)
    ensures Unbracket(a + b) == Unbracket(a) + Unbracket(b)
    decreases |a|
  {
    if a != [] {
      UnbracketAppend(a[1..], b);
      assert (a + b)[1..] == a[1..] + b;
    } else {
      assert a + b == b;
    }
  }

  /** Every element with its commas and brackets removed. */
  function UnbracketAll(cmd: seq<string>): (r: seq<string>)
    ensures |r| == |cmd|
  {
    seq(|cmd|, i requires 0 <= i < |cmd| => Unbracket(cmd[i]))
  }

  lemma {:induction false} UnbracketJoin(cmd: seq<string>)
    ensures Unbracket(JoinWith(cmd, ", ")) == JoinWith(UnbracketAll(cmd), " ")
    decreases |cmd|
  {
    var u := UnbracketAll(cmd);
    if |cmd| > 1 {
      var tail := cmd[1..];
      var j := JoinWith(tail, ", ");
      UnbracketJoin(tail);
      assert UnbracketAll(tail) == u[1..];
      UnbracketAppend(cmd[0] + ", ", j);
      UnbracketAppend(cmd[0], ", ");
      assert Unbracket(", ") == " ";
    } else if |cmd| == 1 {
      assert JoinWith(u, " ") == u[0];
    }
  }

  /** The reported command: the arguments, each without commas or brackets, one space apart. */
  lemma ExecCmdText(cmd: seq<string>)
    ensures ExecCmd(cmd) == JoinWith(UnbracketAll(cmd), " ")
  {
    UnbracketAppend("[" + JoinWith(cmd, ", "), "]");
    UnbracketAppend("[", JoinWith(cmd, ", "));
    assert Unbracket("[") == [] && Unbracket("]") == [];
    UnbracketJoin(cmd);
  }

  // ----- metaInfo -----

  /** `metaInfo()`: the time column, then one description per dstat column. */
  function MetaInfo(): (m: seq<string>)
    ensures |m| == 1 + NumFields && m[0] == "Time, ms"
  {
    ["Time, ms", "memory used", "memory buff", "memory cach", "memory free", "cpu usr",
     "cpu sys", "cpu idl", "cpu wai", "cpu hiq", "cpu siq", "dsk read", "dsk writ", "net recv", "net send",
     "paging in", "paging out", "system int", "system csw"]
  }

  /** The stat group of column `k`, as FIRST_LINE names the groups. */
  function GroupTitle(k: nat): string {
    if k < 4 then "memory" else if k < 10 then "cpu" else if k < 12 then "dsk"
    else if k < 14 then "net" else if k < 16 then "paging" else "system"
  }

  /** Entry `k + 1` of `metaInfo` is column `k`'s group followed by its HEADER_LINE name. */
  lemma MetaInfoNamesColumns(k: nat)
    requires k < NumFields
    ensures MetaInfo()[k + 1] == GroupTitle(k) + " " + HeaderNames[k]
  {
    if k < 4 {
      MemoryEntries(k);
    } else if k < 10 {
      CpuEntries(k);
    } else {
      OtherEntries(k);
    }
  }

  lemma MemoryEntries(k: nat)
    requires k < 4
    ensures MetaInfo()[k + 1] == "memory " + HeaderNames[k]
  {
  }

  lemma CpuEntries(k: nat)
    requires 4 <= k < 10
    ensures MetaInfo()[k + 1] == "cpu " + HeaderNames[k]
  {
  }

  lemma OtherEntries(k: nat)
    requires 10 <= k < NumFields
    ensures MetaInfo()[k + 1] == GroupTitle(k) + " " + HeaderNames[k]
  {
  }

  /** The groups change exactly where VALUES_PAT places a bar. */
  lemma GroupsChangeAtBars(k: nat)
    requires k < NumFields - 1
    ensures GroupTitle(k) != GroupTitle(k + 1) <==> BarAfter(k)
  {
  }
}
