# DStatProbe in Dafny

A model of the Yardstick `DStatProbe`, a benchmark probe that runs the Linux
`dstat` tool and turns its text output into probe points. dstat prints a banner
line naming its stat groups, then a header line naming its 18 columns, then one
line of 18 numbers per interval. The probe numbers the lines it receives. It
checks line 0 against the banner pattern FIRST_LINE and line 1 against the
header pattern HEADER_LINE. It matches every later line against VALUES_PAT and
decodes each of the 18 fields with `parseValueWithUnit` (`12`, `1.5k`, `2M`,
`3G`, `7B`). The first four values, the memory columns, are divided by 1024.
The resulting point goes into a buffer that `points()` drains.

Modules, in dependency order:

- `Wrappers`: `Option` and `Result`.
- `CharClasses`: Java's regex classes `\d`, `\s`, `\w`, and maximal runs of separator and word characters.
- `JavaDecimal`: `Double.parseDouble` on decimal text, with exact `real` values. It covers `String.trim`, a sign, digits with an optional point, an exponent, and an `f`/`d` type suffix.
- `UnitDecoder`: `parseValueWithUnit`. Each `NumberFormatException` is a `DecodeError` case. The decoding is written for any number reader (`DecodeWithUnit`). `ParseValueWithUnit` instantiates it with `ParseDouble`.
- `LineLayout`: the regex elements VALUES_PAT and HEADER_LINE are made of (`\s*`, `\s+`, `\s*\Q|\E\s*`, a numeric field, a column name). It defines a deterministic matcher over them and `Segments`, the split of a line into alternating separator and word runs. The lemmas show the matcher accepts a line exactly when that split fits the pattern element by element. They also show the matcher is complete for the regex's own semantics: any cut of the line into pieces that match the elements yields the same groups.
- `ValuesPattern`: VALUES_PAT, built by the static initializer's loop, and its characterisation on the split line.
- `HeaderPattern`: HEADER_LINE, with the 18 column names.
- `BannerPattern`: FIRST_LINE as a sequence of characters and starred character classes, read as whole-string regex membership.
- `RowDecoder`: the `double[]` array literal of `parseLine`. Groups are decoded left to right, and the first failure wins.
- `ProbeConfig`: `path`, `opts` with Java's `split("\\s+")`, the `execCmd` display text, and `metaInfo`.
- `Probes`: the effect of `parseLine` on one line (`Outcome`); the 32-bit line counter; the class `DStatProbe` with its `collected` buffer, `collectPoint`, `points`, `parseLine`, `start` and `stop`; and the class `LineFeed` for the closure `start` creates around its `AtomicInteger`.

Points of the code worth knowing when reading the model:

- `parseLine` prints warnings and errors alike to `cfg.output()`. Only a failed `exec` in `start` goes to `cfg.error()`.
- The line counter is a Java `int` (an `AtomicInteger`). It goes negative after 2^31 lines and is 0 again after 2^32, where the banner check happens once more.
- FIRST_LINE names six stat groups: `memory-usage`, `total-cpu-usage`, `dsk/total`, `net/total`, `paging` and `system`.
- A numeric field is `\d*\.\d+\w?` or `\d+\w?`. So `.5` is a field and `5.` is not, and any word character may end a field (`5x`). Such a field passes the pattern and is then rejected by the decoder.

## Model

| member | source | states |
|---|---|---|
| UnitDecoder.UnitMultiplier | src/main/java/org/yardstick/probes/DStatProbe.java:212-223 | a factor exists exactly for B, k, M, G: 1, 2^10, 2^20 and 2^30 |
| UnitDecoder.ParseValueWithUnit | src/main/java/org/yardstick/probes/DStatProbe.java:203-226 | fails with EmptyValue exactly on the empty value; fails with UnknownUnit exactly when the last character is neither a digit nor a magnitude letter; success implies one of the two |
| UnitDecoder.PlainValueUnscaled | src/main/java/org/yardstick/probes/DStatProbe.java:207-210 | a value ending in a digit decodes exactly when parseDouble accepts it, to parseDouble's value, unscaled |
| UnitDecoder.SuffixedValueScaled | src/main/java/org/yardstick/probes/DStatProbe.java:212-225 | prefix + letter decodes exactly when parseDouble accepts the prefix, to the prefix's value times the letter's factor |
| UnitDecoder.DecodeFailures | src/main/java/org/yardstick/probes/DStatProbe.java:203-225 | decoding fails exactly on the empty value, an unknown last character, or text parseDouble rejects |
| UnitDecoder.DecodeNatText | src/main/java/org/yardstick/probes/DStatProbe.java:209-210 | round trip: the decimal text of n decodes to n |
| UnitDecoder.DecodeNatTextWithUnit | src/main/java/org/yardstick/probes/DStatProbe.java:212-225 | round trip: the decimal text of n plus a letter decodes to n times the factor |
| UnitDecoder.DecodeExample12 | src/main/java/org/yardstick/probes/DStatProbe.java:209-210 | `12` decodes to 12 |
| UnitDecoder.DecodeExample2M | src/main/java/org/yardstick/probes/DStatProbe.java:218-219 | `2M` decodes to 2097152 |
| UnitDecoder.DecodeExample3G | src/main/java/org/yardstick/probes/DStatProbe.java:220-221 | `3G` decodes to 3221225472 |
| UnitDecoder.DecodeExample7B | src/main/java/org/yardstick/probes/DStatProbe.java:214-215 | `7B` decodes to 7 |
| UnitDecoder.DecodeExample1point5k | src/main/java/org/yardstick/probes/DStatProbe.java:216-217 | `1.5k` decodes to 1536 |
| UnitDecoder.DecodeExamplesRejected | src/main/java/org/yardstick/probes/DStatProbe.java:204-205 | the empty value, `abc` and `5x` fail, the last two as unknown units |
| JavaDecimal.ParseDouble | src/main/java/org/yardstick/probes/DStatProbe.java:209-225 | `Double.parseDouble` on decimal text, exactly: ParseDoubleDigits, ParseDoublePointed and PlainUnsigned give its value on the text the decoder passes it |
| JavaDecimal.DigitsRoundTrip | src/main/java/org/yardstick/probes/DStatProbe.java:210 | the digits of n denote n |
| JavaDecimal.ParseDoubleDigits | src/main/java/org/yardstick/probes/DStatProbe.java:210 | parseDouble of a digit string is the number it denotes |
| JavaDecimal.ParseDoublePointed | src/main/java/org/yardstick/probes/DStatProbe.java:225 | parseDouble of `ip.fp` (fp nonempty) is ip plus the fraction |
| JavaDecimal.PlainUnsigned | src/main/java/org/yardstick/probes/DStatProbe.java:210 | text starting with a digit or point, ending in a digit, without exponent, is read as its mantissa |
| ValuesPattern.BuildValuesPattern | src/main/java/org/yardstick/probes/DStatProbe.java:56-77 | the loop builds exactly VALUES_PAT: `\s*`, 18 fields, a bar after fields 4, 10, 12, 14, 16, whitespace between the others, `\s*\s*$` |
| ValuesPattern.MatchValues | src/main/java/org/yardstick/probes/DStatProbe.java:170-172 | `VALUES_PAT.matcher(line).matches()` and its groups: a match has 18 groups; MatchValuesSplit and MatchValuesComplete state which lines match and what the groups are |
| ValuesPattern.MatchValuesGroups | src/main/java/org/yardstick/probes/DStatProbe.java:56-77 | a match has 18 groups, each a numeral optionally followed by one word character |
| ValuesPattern.MatchValuesSplit | src/main/java/org/yardstick/probes/DStatProbe.java:56-77 | a line matches exactly when its split has the data-line layout, and the groups are then its words |
| ValuesPattern.MatchValuesComplete | src/main/java/org/yardstick/probes/DStatProbe.java:170-172 | whenever the line can be cut to match VALUES_PAT element by element, the matcher accepts it with that cut's groups |
| ValuesPattern.ValuesCoreFits | src/main/java/org/yardstick/probes/DStatProbe.java:59-74 | element by element, the pattern accepts exactly the data-line layout |
| ValuesPattern.WrongFieldCountRejected | src/main/java/org/yardstick/probes/DStatProbe.java:56-77 | a line with other than 18 words does not match |
| ValuesPattern.MatchedSeparators | src/main/java/org/yardstick/probes/DStatProbe.java:64-69 | in a matched line the separator after field k holds one bar where the builder put one, none elsewhere |
| ValuesPattern.ValuesLayoutMatches | src/main/java/org/yardstick/probes/DStatProbe.java:56-77 | every run sequence with the data-line layout concatenates to a line that matches, with its word runs as the groups |
| ValuesPattern.PrintedRunsShape | src/main/java/org/yardstick/probes/DStatProbe.java:59-74 | 18 numeric tokens, one space apart and a bar and a space at each group boundary, have the data-line layout, with the tokens as words |
| LineLayout.MatchSound | src/main/java/org/yardstick/probes/DStatProbe.java:170-172 | a match cuts the line into pieces, one per element, each matching its element |
| LineLayout.MatchPatternLength | src/main/java/org/yardstick/probes/DStatProbe.java:170-172 | a match cuts the line into exactly one piece per element of the pattern |
| LineLayout.AlternatingMatch | src/main/java/org/yardstick/probes/DStatProbe.java:170-172 | for alternating patterns the matcher succeeds exactly when the split fits, with the split as pieces |
| LineLayout.SegmentsConcat | src/main/java/org/yardstick/probes/DStatProbe.java:170-172 | the split concatenates back to the line |
| LineLayout.SegmentsOfAlternation | src/main/java/org/yardstick/probes/DStatProbe.java:170-172 | round trip: splitting the concatenation of an alternating run sequence gives it back |
| LineLayout.DecompositionIsSplit | src/main/java/org/yardstick/probes/DStatProbe.java:170-172 | every cut matching an alternating pattern is the split, up to the final `\s*` |
| HeaderPattern.MatchHeader | src/main/java/org/yardstick/probes/DStatProbe.java:163-165 | `HEADER_LINE.matcher(line).matches()`: MatchHeaderSplit states exactly which lines match, HeaderWords what their words are |
| HeaderPattern.HeaderPattern | src/main/java/org/yardstick/probes/DStatProbe.java:46-48 | HEADER_LINE has one element per name and separator, 37 in all |
| HeaderPattern.MatchHeaderSplit | src/main/java/org/yardstick/probes/DStatProbe.java:46-51 | a line matches HEADER_LINE exactly when its split has the header layout |
| HeaderPattern.HeaderWords | src/main/java/org/yardstick/probes/DStatProbe.java:46-48 | the words of a header line are the 18 column names in order |
| HeaderPattern.HeaderLayoutMatches | src/main/java/org/yardstick/probes/DStatProbe.java:46-51 | every run sequence laid out as the header concatenates to a matching line whose split it is |
| HeaderPattern.DataLineIsNotHeader | src/main/java/org/yardstick/probes/DStatProbe.java:46-62 | no line matches both VALUES_PAT and HEADER_LINE |
| BannerPattern.MatchBanner | src/main/java/org/yardstick/probes/DStatProbe.java:157-159 | `FIRST_LINE.matcher(line).matches()`: BannerTextMatches shows every dash-padded banner with the six group titles matches |
| BannerPattern.MatchesConcat | src/main/java/org/yardstick/probes/DStatProbe.java:39-40 | the language of a concatenation holds the concatenation of its parts' words |
| BannerPattern.LitsMatch | src/main/java/org/yardstick/probes/DStatProbe.java:39-40 | a literal matches exactly its own text |
| BannerPattern.StarMatches | src/main/java/org/yardstick/probes/DStatProbe.java:39-40 | a starred class matches every run of its characters |
| BannerPattern.BannerTextMatches | src/main/java/org/yardstick/probes/DStatProbe.java:39-43 | every banner with the six group titles, however padded with dashes, matches FIRST_LINE |
| BannerPattern.BannerPrefixRejected | src/main/java/org/yardstick/probes/DStatProbe.java:39-40 | no line starting with a word character followed by a non-word character other than a dash matches FIRST_LINE, since before the first title it allows only `\W*` then `\w*` |
| RowDecoder.DecodeRow | src/main/java/org/yardstick/probes/DStatProbe.java:174-185 | the `double[]` literal over the 18 groups: DecodeRowValues gives each value, DecodeColumnsSuccess and DecodeColumnsFailure when it is built and which error escapes |
| RowDecoder.DecodeColumns | src/main/java/org/yardstick/probes/DStatProbe.java:175-185 | left-to-right evaluation of the array elements from a given column: DecodeColumnsSuccess and DecodeColumnsFailure state its result for any decoder |
| RowDecoder.DecodeColumnsSuccess | src/main/java/org/yardstick/probes/DStatProbe.java:174-185 | the row decodes exactly when every group does, with one value per group in order, memory columns over 1024 |
| RowDecoder.DecodeColumnsFailure | src/main/java/org/yardstick/probes/DStatProbe.java:173-192 | a failed row carries the error of the first group that fails |
| RowDecoder.FirstFailure | src/main/java/org/yardstick/probes/DStatProbe.java:175-185 | the index before which every group decodes and at which one fails |
| RowDecoder.TokenDecodes | src/main/java/org/yardstick/probes/DStatProbe.java:203-225 | a field of VALUES_PAT decodes exactly when it ends in a digit or B, k, M, G |
| RowDecoder.GroupsDecode | src/main/java/org/yardstick/probes/DStatProbe.java:172-186 | the groups of a matched line decode exactly when each ends in a digit or a magnitude letter |
| RowDecoder.TokensDecode | src/main/java/org/yardstick/probes/DStatProbe.java:174-189 | a row of numeric tokens decodes exactly when each token ends in a digit or a magnitude letter |
| RowDecoder.DecodeRowValues | src/main/java/org/yardstick/probes/DStatProbe.java:176-184 | value k of a decoded row is the decoding of group k, over 1024 for k below 4 |
| RowDecoder.UnknownSuffixToken | src/main/java/org/yardstick/probes/DStatProbe.java:203-223 | `5x` is a field of VALUES_PAT but fails to decode as an unknown unit |
| RowDecoder.MemoryColumnExample | src/main/java/org/yardstick/probes/DStatProbe.java:176 | `1024k` in column 0 is stored as 1024 |
| ProbeConfig.Path | src/main/java/org/yardstick/probes/DStatProbe.java:232-236 | the configured path when present and nonempty, `dstat` otherwise; never empty |
| ProbeConfig.SplitOnSpaces | src/main/java/org/yardstick/probes/DStatProbe.java:247 | `split("\\s+")`: SplitOfSpaced and SplitOfJoin give it back the words, SplitNoSpace keeps whitespace out of every part, LeadingSpaceSplit gives the empty first part |
| ProbeConfig.SplitOfSpaced | src/main/java/org/yardstick/probes/DStatProbe.java:247 | words separated by any nonempty whitespace runs, with any whitespace before and after, split back to the words; leading whitespace adds one empty first part, trailing whitespace adds none |
| ProbeConfig.SplitOfJoin | src/main/java/org/yardstick/probes/DStatProbe.java:247 | round trip: split of words joined by single spaces is the words |
| ProbeConfig.SplitNoSpace | src/main/java/org/yardstick/probes/DStatProbe.java:247 | no element of the split holds whitespace |
| ProbeConfig.LeadingSpaceSplit | src/main/java/org/yardstick/probes/DStatProbe.java:247 | options starting with whitespace give an empty first argument |
| ProbeConfig.Options | src/main/java/org/yardstick/probes/DStatProbe.java:242-248 | `opts(cfg)`: DefaultOptions gives the five default arguments, ConfiguredOptions the configured words |
| ProbeConfig.DefaultOptions | src/main/java/org/yardstick/probes/DStatProbe.java:242-248 | without the property (or with it empty) the options are `-m`, `--all`, `--noheaders`, `--noupdate`, `1` |
| ProbeConfig.ConfiguredOptions | src/main/java/org/yardstick/probes/DStatProbe.java:242-248 | a configured value of words separated by any whitespace runs is passed on word for word; trailing whitespace is dropped, leading whitespace adds an empty first argument |
| ProbeConfig.TabbedOptionsExample | src/main/java/org/yardstick/probes/DStatProbe.java:247 | `-m`, a tab, `--all`, two spaces, `1` and a space split into `-m`, `--all`, `1` |
| ProbeConfig.DefaultOptsText | src/main/java/org/yardstick/probes/DStatProbe.java:36 | DEFAULT_OPTS is the default arguments joined by spaces |
| ProbeConfig.Command | src/main/java/org/yardstick/probes/DStatProbe.java:102-105 | `cmdParams`: the path first, then exactly the options |
| ProbeConfig.ExecCmd | src/main/java/org/yardstick/probes/DStatProbe.java:107 | the list's `toString()` with every comma and bracket removed: ExecCmdText states the text it gives |
| ProbeConfig.ExecCmdText | src/main/java/org/yardstick/probes/DStatProbe.java:107 | the displayed command is the arguments without commas or brackets, one space apart |
| ProbeConfig.MetaInfo | src/main/java/org/yardstick/probes/DStatProbe.java:129-133 | 19 entries, the first `Time, ms`; MetaInfoNamesColumns describes every other one |
| ProbeConfig.MetaInfoNamesColumns | src/main/java/org/yardstick/probes/DStatProbe.java:129-133 | entry k+1 is column k's stat group and its HEADER_LINE name |
| ProbeConfig.GroupsChangeAtBars | src/main/java/org/yardstick/probes/DStatProbe.java:129-133 | the stat group changes exactly where VALUES_PAT puts a bar |
| Probes.WrapInt32Spec | src/main/java/org/yardstick/probes/DStatProbe.java:93 | wrapping fixes every int and changes a value by a multiple of 2^32 |
| Probes.NextCount | src/main/java/org/yardstick/probes/DStatProbe.java:96 | `getAndIncrement`'s new value: NextCountSpec shows it is the 32-bit wrap of n + 1 |
| Probes.NextCountSpec | src/main/java/org/yardstick/probes/DStatProbe.java:96 | getAndIncrement leaves the 32-bit wrap of n + 1 |
| Probes.CountAfterStep | src/main/java/org/yardstick/probes/DStatProbe.java:93-96 | one more line takes the counter from its value after k lines to its value after k+1 |
| Probes.CountAfterValues | src/main/java/org/yardstick/probes/DStatProbe.java:93-96 | line k is numbered k below 2^31, negatively up to 2^32, and 0 again at 2^32 |
| Probes.Outcome | src/main/java/org/yardstick/probes/DStatProbe.java:155-197 | `parseLine`'s dispatch on the line number: BannerOutcome, HeaderOutcome and DataLineCollectedIff state its outcome on lines 0, 1 and later |
| Probes.DataOutcome | src/main/java/org/yardstick/probes/DStatProbe.java:169-195 | the else branch of `parseLine`: a point, the decode error, or the unparsable-line error, as CollectedPoint, UndecodableOutcome and WrongFieldCountOutcome state |
| Probes.BannerAndHeaderNotCollected | src/main/java/org/yardstick/probes/DStatProbe.java:156-168 | lines 0 and 1 never collect a point; their only message is the banner warning or the header error |
| Probes.BannerOutcome | src/main/java/org/yardstick/probes/DStatProbe.java:156-161 | line 0 passes quietly exactly when it matches FIRST_LINE, and otherwise warns |
| Probes.PaddedBannerQuiet | src/main/java/org/yardstick/probes/DStatProbe.java:156-161 | dstat's banner raises no warning |
| Probes.HeaderOutcome | src/main/java/org/yardstick/probes/DStatProbe.java:162-168 | line 1 passes quietly exactly when its split is the header layout, whose words are the column names |
| Probes.DataLineCollectedIff | src/main/java/org/yardstick/probes/DStatProbe.java:169-195 | a later line is collected exactly when it has the data layout and every field ends in a digit or a magnitude letter |
| Probes.CollectedPoint | src/main/java/org/yardstick/probes/DStatProbe.java:172-187 | a collected point has the read time and 18 values, value k the decoded word k, over 1024 for k below 4 |
| Probes.DataLineCollected | src/main/java/org/yardstick/probes/DStatProbe.java:169-187 | a later line with the data layout whose words all end in a digit or a magnitude letter is collected at the read time, value k its word k decoded, over 1024 for k below 4 |
| Probes.PrintedLineLayout | src/main/java/org/yardstick/probes/DStatProbe.java:59-74 | the line printed for 18 numeric tokens has the data layout, and its words are the tokens |
| Probes.DataLineExample | src/main/java/org/yardstick/probes/DStatProbe.java:170-187 | read as line 2, the data line of `1024k 512k 256k 2048k` and fourteen `0` fields, with bars at the group boundaries, is collected with the values 1024, 512, 256, 2048 and fourteen zeros |
| Probes.PrintedLineOutcome | src/main/java/org/yardstick/probes/DStatProbe.java:169-187 | read after the header, the line dstat prints for 18 tokens with known units is collected with the tokens' column values |
| Probes.CollectedValues | src/main/java/org/yardstick/probes/DStatProbe.java:169-187 | a later line with the data layout whose column values are `vs` is collected as the point of `vs` at the read time |
| Probes.UndecodableOutcome | src/main/java/org/yardstick/probes/DStatProbe.java:173-192 | a matched line that does not decode reports the first failing word's error |
| Probes.WrongFieldCountOutcome | src/main/java/org/yardstick/probes/DStatProbe.java:169-195 | a later line without exactly 18 words is reported unparsable |
| Probes.MisplacedBarOutcome | src/main/java/org/yardstick/probes/DStatProbe.java:169-195 | a later line with a bar missing or misplaced is reported unparsable |
| Probes.RepeatedHeaderOutcome | src/main/java/org/yardstick/probes/DStatProbe.java:162-195 | a header line after line 1 is reported unparsable |
| Probes.StreamFromStart | src/main/java/org/yardstick/probes/DStatProbe.java:155-197 | over the first 2^31 lines, the points collected are those of the data lines from line 2 on, in order |
| Probes.StreamPoints | src/main/java/org/yardstick/probes/DStatProbe.java:92-98 | the closure hands each line to `parseLine` with the next counter value, and each line gives at most one point; StreamFromStart and StreamOfData state which points |
| Probes.StreamOfData | src/main/java/org/yardstick/probes/DStatProbe.java:169-195 | from counter 2 on, every line is read on the data path |
| Probes.DStatProbe.constructor | src/main/java/org/yardstick/probes/DStatProbe.java:86 | an empty buffer, no launcher, nothing printed |
| Probes.DStatProbe.CollectPoint | src/main/java/org/yardstick/probes/DStatProbe.java:147-149 | appends the point to the buffer and to the history; nothing else changes |
| Probes.DStatProbe.Points | src/main/java/org/yardstick/probes/DStatProbe.java:136-142 | returns the buffer, oldest first, and leaves it empty; drained points plus waiting points stay the full history |
| Probes.DStatProbe.ParseLine | src/main/java/org/yardstick/probes/DStatProbe.java:155-197 | buffer and output change exactly as the line's outcome says: a point appended, a message printed, or nothing |
| Probes.DStatProbe.ParseDataLine | src/main/java/org/yardstick/probes/DStatProbe.java:169-195 | the data-line branch: buffer and output change as the line's data outcome says, a point appended or an error printed |
| Probes.DStatProbe.Start | src/main/java/org/yardstick/probes/DStatProbe.java:89-117 | the command is the path and the options; a fresh closure with its counter at 0; the start message on output, or the failure on the error stream |
| Probes.DStatProbe.Stop | src/main/java/org/yardstick/probes/DStatProbe.java:120-126 | prints the stop message once a launcher exists, and nothing otherwise |
| Probes.DrainTwice | src/main/java/org/yardstick/probes/DStatProbe.java:136-149 | two appends then two drains: both points in order, then none |
| Probes.LineFeed.constructor | src/main/java/org/yardstick/probes/DStatProbe.java:92-93 | the counter starts at 0 |
| Probes.LineFeed.Apply | src/main/java/org/yardstick/probes/DStatProbe.java:95-97 | the counter advances once whatever the outcome, and the line is handled under its old value |

## Left out

- Process lifecycle: `BenchmarkProcessLauncher.exec` and `shutdown` are foreign I/O. `Start` takes the outcome of `exec` as a parameter (`execFailure`), and `Stop` records only its message.
- Message text: messages are abstract values that carry the line, the decode error or the command. The wording and the HEADER_LINE display in the header error are not modelled.
- Concurrency: `synchronized` on `points` and `collectPoint`, and the atomicity of the `AtomicInteger`. Every method is single-threaded.
- `System.currentTimeMillis()` becomes the parameter `now`.
- The benchmark configuration becomes a map of custom properties. `cfg.output()` and `cfg.error()` become the sequences `output` and `errors`.
- The dstat process feeding the closure line by line is outside the probe. `StreamPoints` states the effect of a whole line sequence at the level of outcomes, through the generic `PointsBy`.
- UnitDecoder.ParseValueWithUnit: decimals are exact reals, so IEEE-754 rounding in `parseDouble` and in the division by 1024 is not modelled.
- JavaDecimal.ParseDouble: `NaN`, `Infinity` and hexadecimal floating-point text are rejected, where Java accepts them. Only VALUES_PAT fields reach the decoder in the probe, and those are plain decimals.
- UnitDecoder.ParseValueWithUnit: `Character.isDigit` is ASCII `0`-`9`. For a value ending in another Unicode digit, Java fails inside `parseDouble`, while the model reports an unknown unit. Both paths fail.
- BannerPattern.BannerTextMatches: proves that banners laid out as dstat prints them (six dash-padded group titles) match, but not the converse. Before the first title FIRST_LINE allows only a run of non-word characters and then a run of word characters (BannerPrefixRejected shows one consequence), and since a dash is itself a non-word character, the cut between that prefix and the `-*` padding of `memory-usage` is ambiguous; characterising every accepted line would mean inverting the backtracking match over those overlapping stars, which the model does not do.
