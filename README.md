# audit-stats, modelled in Dafny

audit-stats reads Linux audit log lines of the form `key=value key=value …` and
builds a frequency table. The table has three levels:

- subject
- field name
- field value → number of times seen

Every level keeps its keys in first-insertion order.

This project models the core of that program:

- The token-boundary scan `find_next_split` (module `Tokenizer`). It is a pure
  scan function, and the loop is proved equal to it.
- The line parser `parse_line` (module `Record`):
  - trimming;
  - the token loop;
  - splitting a token on `=`;
  - the two punctuation-stripping loops;
  - the insertion-ordered map of pairs;
  - the parse-or-default reading of the twenty `Entry` fields.
- `increment_stat` and the aggregation body of `main` (module `Aggregate`):
  - the choice of subject (`file`, else `exe`, else `comm`, else `hash`, else
    `"UNKNOWN"`);
  - the 19-entry allow-list, from which `hash` is commented out;
  - the fold of every line into the table.

  The table that is updated in place is the class `Aggregate.Stats`. Its
  methods are proved equal to pure fold functions, and the invariants are proved
  about those functions.

Helper modules:

- `Text`: `str::trim` and `str::trim_matches`.
- `OrderedMap`: `IndexMap` as a key sequence plus a map.
- `Decimal`: `u32` parsing and `to_string`.
- `Wrappers`: `Option` and `Result`.

Module `WorkedLine` follows the line `pid=100 uid=0` through the whole
pipeline.

Two behaviours of the code are not what a reader of an audit line would
expect. The model follows the code in both:

- **The last `key=value` token of every line is dropped.** The loop of
  `parse_line` (src/main.rs:77-105) stops as soon as `find_next_split` reports
  no further split, so it never inserts the remainder. A reader would expect
  `file="/etc/passwd" pid=42 uid=0` to yield `uid = 0`, and two copies of
  `type=SYSCALL pid=100 uid=0` to count `uid.0` twice; the code does neither.
  - `Record.TokensDropLast` proves that a line of n tokens contributes only its
    first n - 1.
  - `WorkedLine.LineTwice` proves, for the line `pid=100 uid=0` read twice, that
    `pid.100` is counted twice and `uid.0` never.
- **A token without `=` makes the source panic** (`unwrap` at src/main.rs:93).
  The model turns this into the error `MissingValue(token)`, which ends the
  run.

## Model

| member | source | states |
|---|---|---|
| Text.Trim | src/main.rs:74 | `trim`: the result is the line with whitespace peeled off its two ends, never longer, with no whitespace at either end, and non-empty when the line does not end in whitespace |
| Text.TrimSet | src/main.rs:88-91 | both ends stripped of a character set: the result is obtained by peeling only characters of the set off the ends, neither end is in the set, it is strictly shorter when an end was in the set, and an end not in the set is kept |
| Text.TrimMatches | src/main.rs:88-91 | `trim_matches(c)`: the same guarantees as `TrimSet` for the one-character set `{c}` |
| Text.TrimSetIdempotent | src/main.rs:74 | trimming an already trimmed string changes nothing |
| Text.PeelsInfix | src/main.rs:78 | what trimming leaves is a contiguous slice of the original |
| Tokenizer.Step | src/main.rs:57-68 | the scan state after one character, with the four tests applied in source order; `StepChangesState` states what each test changes |
| Tokenizer.ScanFrom | src/main.rs:53-70 | the scan returns 0 or a position in the rest of the line |
| Tokenizer.SplitIndex | src/main.rs:49-71 | `find_next_split` returns 0 or an index inside the line |
| Tokenizer.FindNextSplit | src/main.rs:49-71 | the loop with its three mutable variables and four ordered tests returns exactly `SplitIndex` |
| Tokenizer.ScanFromFindsFirstSplit | src/main.rs:53-56 | scanning from position i in the state reached there finds the first token-ending space at or after i, or reports that there is none |
| Tokenizer.SplitIndexIsFirstSplit | src/main.rs:49-71 | a nonzero result is a space at top level (depth 0, outside both kinds of quotes) and no earlier position is one; 0 means there is none, or the line starts with one |
| Tokenizer.SplitIndexZeroMeansNoSplit | src/main.rs:70 | for a line not starting with a space (as every trimmed line), 0 means exactly that no space ends a token |
| Tokenizer.StepChangesState | src/main.rs:57-68 | a quote flag flips iff its quote is read at depth 0 while the other kind is closed; the depth rises or falls by one iff a parenthesis is read outside both kinds of quotes; it changes by at most one |
| Tokenizer.DepthBounded | src/main.rs:63-68 | after i characters the depth lies between -i and i |
| Tokenizer.NoSplitWhileBelowZero | src/main.rs:54 | after an unmatched `)` the depth stays negative and no space ends a token until a `(` is read |
| Tokenizer.ParenthesizedSpaceExample | src/main.rs:63-68 | in `a=(1 2) b=3` the first token ends at index 7, after the parentheses |
| OrderedMap.Empty | src/main.rs:76 | `IndexMap::new()` is a valid map with no keys |
| OrderedMap.Get | src/main.rs:107-109 | `get` finds a value iff the key is present, and the value found is the key's value |
| OrderedMap.Insert | src/main.rs:102 | `insert` keeps the map valid; the key then maps to the new value and every other key is unchanged; a present key keeps its place and a new key goes last |
| OrderedMap.InsertPresent | src/main.rs:102 | inserting the value a key already has changes nothing |
| OrderedMap.InsertOverrides | src/main.rs:102 | a second insert of a key overrides the first |
| Decimal.ParseU32 | src/main.rs:119-121 | `u32` parsing accepts a text exactly when, after an optional `+`, it is a non-empty string of digits whose value is below 2^32, and then returns that value; the empty text is rejected |
| Decimal.ParseU32OrZero | src/main.rs:121 | `unwrap_or_default`: a rejected text reads as 0, and an accepted one as its value |
| Decimal.ToDecimal | src/main.rs:232-243 | `to_string` gives a non-empty string of digits without a leading zero |
| Decimal.ValueOfToDecimal | src/main.rs:232-243 | the digits of `to_string(n)` denote n |
| Decimal.DecimalRoundTrip | src/main.rs:232-243 | a `u32` written with `to_string` parses back to itself |
| Decimal.RejectedTexts | src/main.rs:119-121 | `""`, `"+"`, `"-1"`, `"notanumber"` and `"4294967296"` are rejected |
| Decimal.AcceptedTexts | src/main.rs:119-121 | `"4294967295"` reads as 2^32 - 1 and `"+42"` as 42 |
| Decimal.LimitDigits | src/main.rs:119-121 | the digits `4294967295` denote 2^32 - 1 and `4294967296` denote 2^32 |
| Record.IndexOf | src/main.rs:79 | the position of the first occurrence of a character, or none exactly when it does not occur |
| Record.SplitOnEquals | src/main.rs:79-80 | the first two pieces of `split('=')`: none iff the token has no `=`; otherwise the key is the text before the first `=` and the value is the text after it up to the next `=` or the end, and neither contains `=` |
| Record.KeyStripPass | src/main.rs:88-91 | one pass of the key loop peels only quotes and parentheses off the ends, and shrinks a key the loop test accepts |
| Record.StrippedKey | src/main.rs:81-92 | the final key is the original with quotes and parentheses peeled off its ends, and the loop test rejects it |
| Record.StripKey | src/main.rs:80-92 | the key loop computes `StrippedKey` |
| Record.StrippedKeyIdempotent | src/main.rs:81-92 | stripping a stripped key changes nothing |
| Record.ValueStripPass | src/main.rs:99-100 | one pass of the value loop peels only quotes off the ends, and shrinks a value the loop test accepts |
| Record.StrippedValue | src/main.rs:94-101 | the final value is the original with only quotes peeled off its ends, and neither end is a quote |
| Record.StripValue | src/main.rs:93-101 | the value loop computes `StrippedValue` |
| Record.StrippedValueIdempotent | src/main.rs:94-101 | stripping a stripped value changes nothing |
| Record.ValueStripExample | src/main.rs:94-101 | the value `"(x)"` with its quotes becomes `(x)`: parentheses survive value stripping |
| Record.KeyStripExample | src/main.rs:81-92 | the key `("a")` becomes `a`: the passes repeat until no wrapping is left |
| Record.KeyStripUnwrappedExample | src/main.rs:81-86 | the key `)a(` is left alone: only `(` is tested at the front and `)` at the back |
| Record.ParsePair | src/main.rs:79-101 | a token gives an error iff it has no `=`, and the error names the token; otherwise the pair is the stripped key before the first `=` and the stripped value after it |
| Record.TokensDropLast | src/main.rs:77-105 | the tokens the loop takes from a trimmed line are all its tokens except the last |
| Record.Tokens | src/main.rs:74-105 | the tokens the loop takes, each trimmed, up to but not including the remainder; `TokensDropLast` relates them to the full tokenization |
| Record.Pairs | src/main.rs:77-101 | the pairs exist iff every token parses, and then the i-th pair is the pair of the i-th token |
| Record.PairsFailAtFirstBadToken | src/main.rs:93 | the line fails iff some token has no `=`, and then with the first such token |
| Record.InsertAll | src/main.rs:102 | `map.insert` of each pair in order; `InsertAllLastWins` and `InsertAllKeyOrder` state the resulting values and key order |
| Record.InsertAllLastWins | src/main.rs:102 | after the inserts, a key's value is the value of its last pair, or what it had before when no pair has it |
| Record.InsertAllKeyOrder | src/main.rs:102 | after the inserts, the map is valid and its keys are the old keys followed by the new keys in order of first occurrence |
| Record.NumberOf | src/main.rs:119-154 | a number field is absent iff its key is absent; a present key gives the `u32` reading of its text, or 0 when the text is rejected |
| Record.BuildEntry | src/main.rs:106-167 | the twenty fields read from the map; `StringFieldFromMap` and `NumberFieldFromMap` state each field |
| Record.StringFieldFromMap | src/main.rs:107-118 | each string field holds the map's value for its key as it is, or is absent with the key |
| Record.NumberFieldFromMap | src/main.rs:119-154 | each number field is absent with its key, the `u32` reading of the value when it parses, and 0 otherwise |
| Record.Parse | src/main.rs:73-168 | `parse_line` as a function: the entry built from the pairs of the tokens of the trimmed line, or the first token's error |
| Record.ParseLine | src/main.rs:73-168 | the parsing loop computes `Parse(line)`: the entry built from the inserted pairs, or the error of the first token without `=` |
| Record.OneTokenLineIsEmpty | src/main.rs:75-77 | a line with no token-ending space parses to an entry with every field absent |
| Aggregate.AllowListFacts | src/main.rs:226-247 | the 19 allow-listed names are distinct and do not include `hash` |
| Aggregate.Subject | src/main.rs:216-221 | the subject of an entry; `SubjectPriority` states the priority order |
| Aggregate.SubjectPriority | src/main.rs:216-221 | the subject is `file` if present, else `exe`, else `comm`, else `hash`, else `"UNKNOWN"` |
| Aggregate.NumberText | src/main.rs:232-243 | a number field's text is present iff the number is; it is the canonical decimal (digits only, no sign, no leading zero) and parses back to the number |
| Aggregate.Listing | src/main.rs:226-247 | the listing walked per line has the 19 allow-listed names in source order |
| Aggregate.ListingFields | src/main.rs:226-247 | each listed name carries the entry's field of that same name: a string field as it is, a number field as its decimal text |
| Aggregate.ListingFacts | src/main.rs:231 | each name is listed once and `hash` never |
| Aggregate.Incremented | src/main.rs:172-178 | `increment_stat` adds exactly one to the count of (name, value), leaves every other count alone, and adds only `name` to the field names |
| Aggregate.WithBucket | src/main.rs:223-225 | afterwards the subject has a bucket; an existing subject leaves the table unchanged, a new one is appended at the end of the key order with an empty bucket |
| Aggregate.IncrementedKeepsShape | src/main.rs:172-178 | `increment_stat` keeps the bucket well formed (valid maps, counts of at least 1), and existing keys keep their places |
| Aggregate.CountAll | src/main.rs:226-251 | the bucket after `increment_stat` for each present field of a listing, in order; `CountAllCounts` and `CountAllFieldOrder` state its counts and field names |
| Aggregate.CountOne | src/main.rs:248-250 | one listing entry is one `increment_stat` when its value is present, and nothing otherwise |
| Aggregate.CountAllAppend | src/main.rs:226-251 | the listing is counted strictly in order: counting `a + c` is counting `a`, then `c` |
| Aggregate.CountAllCounts | src/main.rs:226-251 | counting a listing with distinct names adds one exactly for each present (name, value); a field name is in the bucket afterwards iff it was before or is listed with a present value |
| Aggregate.CountAllFieldOrder | src/main.rs:226-251 | afterwards the bucket's field names are the old ones in their places, then each present listed name that is new, once, in listing order |
| Aggregate.CountAllKeepsShape | src/main.rs:248-250 | counting a listing keeps the bucket well formed, and existing keys keep their places |
| Aggregate.FoldEntry | src/main.rs:216-251 | the table after one entry: the subject's bucket made sure of, then the listing counted into it |
| Aggregate.FoldEntryCounts | src/main.rs:216-251 | one entry: its subject gets a bucket even when nothing is counted; each present allow-listed (name, value) under that subject is counted once more; every other count and every other bucket is unchanged; the subject's field names are its old ones followed by the new present allow-listed names in listing order, and no others |
| Aggregate.FoldLines | src/main.rs:192-252 | the table after each line in turn is parsed and folded in, or the first bad line's error; `FoldLinesAppend` and `FoldLinesKeepsShape` state its properties |
| Aggregate.FoldEntryWellFormed | src/main.rs:223-251 | one entry keeps the table well formed at every level |
| Aggregate.FoldEntryExtends | src/main.rs:223-251 | one entry appends keys after the existing ones at all three levels and moves none |
| Aggregate.FoldEntryNoHash | src/main.rs:231 | no bucket ever gets a `hash` field |
| Aggregate.FoldLinesAppend | src/main.rs:192-252 | lines are folded strictly in order: folding `a + b` is folding `a`, then `b` |
| Aggregate.FoldLinesKeepsShape | src/main.rs:191-252 | folding any lines keeps the table well formed and free of `hash`, and only ever appends keys |
| Aggregate.Stats.constructor | src/main.rs:191 | the table starts empty and valid |
| Aggregate.Stats.EnsureSubject | src/main.rs:223-225 | a missing subject gets an empty bucket at the end; an existing one is left alone |
| Aggregate.Stats.IncrementStat | src/main.rs:249 | the subject's bucket is replaced by its `increment_stat` result, in place |
| Aggregate.Stats.CountInto | src/main.rs:226-251 | the loop over the listing leaves the subject's bucket as `CountAll` of the listing |
| Aggregate.Stats.AddEntry | src/main.rs:216-251 | the per-line body leaves the table as `FoldEntry`, valid, and still free of `hash` |
| Aggregate.Stats.AddLines | src/main.rs:192-252 | the line loop succeeds iff `FoldLines` does, leaves the table as its result, and otherwise reports the first line's error |
| Aggregate.Summarize | src/main.rs:191-252 | the table from an empty start is `FoldLines` of the lines; when it exists it is well formed and has no `hash` field |
| WorkedLine.LastTokenDropped | src/main.rs:77-105 | `pid=100 uid=0` yields only the token `pid=100`, whereas its full tokenization also has `uid=0` |
| WorkedLine.TokenSplits | src/main.rs:79-93 | `pid=100` splits into the key `pid` and the value `100` |
| WorkedLine.TokenParses | src/main.rs:79-102 | `pid=100` gives the pair (`pid`, `100`), nothing being stripped |
| WorkedLine.TokenPairs | src/main.rs:79-102 | the token list `[pid=100]` gives the one pair (`pid`, `100`) |
| WorkedLine.HundredParses | src/main.rs:122-124 | `100` reads as 100, and 100 is written back as `100` |
| WorkedLine.LineEntry | src/main.rs:73-168 | the line parses to the entry of a map holding only `pid` → `100` |
| WorkedLine.LineParses | src/main.rs:122-130 | that entry has `pid` 100 and no `uid` |
| WorkedLine.EntryListing | src/main.rs:216-247 | an entry with no subject fields, `pid` 100 and no `uid` is counted under `"UNKNOWN"`; `pid` is listed as `100` and `uid` is not listed |
| WorkedLine.FoldOneLine | src/main.rs:192-214 | folding one parsed line is folding its entry |
| WorkedLine.TwiceFolds | src/main.rs:192-214 | folding a parsed line twice is folding its entry twice |
| WorkedLine.EntryTwiceCounts | src/main.rs:248-250 | such an entry folded in twice counts `pid.100` twice and `uid.0` zero times |
| WorkedLine.LineTwice | src/main.rs:191-252 | two copies of `pid=100 uid=0` give `UNKNOWN.pid.100 = 2` and no `uid` count |

## Left out

- Command-line parsing (`clap`, the output format option) is not modelled. The
  `Cli` type and the first lines of `main` are left out because they are I/O
  around the core.
- Reading the file or standard input is not modelled; the model takes the lines
  as a sequence of strings. This also leaves out the `unwrap` on opening the
  file and the splitting of the text by `lines()`.
- YAML and JSON output is not modelled: it is serialisation of the finished
  table, whose key order the model does state.
- Text.Trim: only the ASCII members of Unicode's whitespace set are trimmed.
  Unicode whitespace beyond ASCII is not modelled.
- Tokenizer.FindNextSplit: indices are character indices. The source uses the
  returned character index as a byte index when it slices. The two agree on
  ASCII; non-ASCII lines, where they differ or slicing may panic, are not
  modelled.
- Tokenizer.FindNextSplit: the parenthesis depth is an unbounded integer. The
  source's `i32` could only overflow on a line of at least 2^31 characters;
  `DepthBounded` shows the depth never exceeds the line length.
- Aggregate.Incremented: counts are unbounded naturals. The source's `usize`
  overflow, which needs 2^64 equal values, is not modelled.
- Record.ParseLine: the panic on a token without `=` is modelled as an error
  result. `Aggregate.Stats.AddLines` returns that error with the table as
  updated so far. The source aborts and prints nothing.
- Aggregate.Stats.IncrementStat: in the source, `increment_stat` takes the
  subject's bucket by mutable borrow (`get_mut(&name).unwrap()`). In the model
  it is a method of the table that names the subject, and its precondition
  that the subject has a bucket stands for the `unwrap`, which never fails
  after `EnsureSubject`.
- String fields use `.parse::<String>()`, which never fails. They are modelled
  as the value text itself.
