/**
 * The token boundary scan of `find_next_split`: the index of the first space that
 * lies outside both kinds of quotes and at parenthesis depth 0, or 0 when there is
 * none. Indices are character indices.
 */
module Tokenizer {

  /** The three pieces of scan state: a signed parenthesis depth, which is never
      clamped, and the single- and double-quote flags. */
  datatype ScanState = ScanState(parens: int, quoted: bool, doubleQuoted: bool)

  const Start: ScanState := ScanState(0, false, false)

  /** A space read in this state ends a token. */
  predicate AtTopLevel(st: ScanState) {
    st.parens == 0 && !st.quoted && !st.doubleQuoted
  }

  /** The state after reading `c`. The four tests run in the source's order, each
      one seeing the flags the earlier ones may have changed. */
  function Step(st: ScanState, c: char): ScanState {
    var doubleQuoted := if c == '"' && !st.quoted && st.parens == 0 then !st.doubleQuoted else st.doubleQuoted;
    var quoted := if c == '\'' && !doubleQuoted && st.parens == 0 then !st.quoted else st.quoted;
    var parens :=
      if c == '(' && !quoted && !doubleQuoted then st.parens + 1
      else if c == ')' && !quoted && !doubleQuoted then st.parens - 1
      else st.parens;
    ScanState(parens, quoted, doubleQuoted)
  }

  /** The state in which `line[i]` is read. */
  function StateAt(line: string, i: nat): ScanState
    requires i <= |line|
  {
    if i == 0 then Start else Step(StateAt(line, i - 1), line[i - 1])
  }

  /** Position `i` holds a space that ends a token. */
  predicate IsSplitAt(line: string, i: nat)
    requires i < |line|
  {
    line[i] == ' ' && AtTopLevel(StateAt(line, i))
  }

  /** The scan from position `i` in state `st`. */
  function ScanFrom(line: string, i: nat, st: ScanState): (r: nat)
    requires i <= |line|
    ensures r == 0 || i <= r < |line|
    decreases |line| - i
  {
    if i == |line| then 0
    else if line[i] == ' ' && AtTopLevel(st) then i
    else ScanFrom(line, i + 1, Step(st, line[i]))
  }

  /** The value `find_next_split` returns. */
  function SplitIndex(line: string): (r: nat)
    ensures r == 0 || r < |line|
  {
    ScanFrom(line, 0, Start)
  }

  method FindNextSplit(line: string) returns (r: nat)
    ensures r == SplitIndex(line)
  {
    var parens := 0;
    var quoted := false;
    var doubleQuoted := false;
    for i := 0 to |line|
      invariant ScanFrom(line, i, ScanState(parens, quoted, doubleQuoted)) == SplitIndex(line)
    {
      var c := line[i];
      if c == ' ' && !doubleQuoted && !quoted && parens == 0 {
        return i;
      }
      if c == '"' && !quoted && parens == 0 {
        doubleQuoted := !doubleQuoted;
      }
      if c == '\'' && !doubleQuoted && parens == 0 {
        quoted := !quoted;
      }
      if c == '(' && !quoted && !doubleQuoted {
        parens := parens + 1;
      }
      if c == ')' && !quoted && !doubleQuoted {
        parens := parens - 1;
      }
    }
    return 0;
  }

  lemma {:induction false} ScanFromFindsFirstSplit(line: string, i: nat)
    requires i <= |line|
    ensures var r := ScanFrom(line, i, StateAt(line, i));
      && (r > 0 ==> IsSplitAt(line, r) && forall j | i <= j < r :: !IsSplitAt(line, j))
      && (r == 0 ==> (i == 0 < |line| && IsSplitAt(line, 0)) || forall j | i <= j < |line| :: !IsSplitAt(line, j))
    decreases |line| - i
  {
    if i < |line| && !(line[i] == ' ' && AtTopLevel(StateAt(line, i))) {
      assert StateAt(line, i + 1) == Step(StateAt(line, i), line[i]);
      ScanFromFindsFirstSplit(line, i + 1);
    }
  }

  /** `SplitIndex` is the first index at which a space ends a token; 0 means either
      that there is no such index or that the line starts with such a space. */
  lemma SplitIndexIsFirstSplit(line: string)
    ensures var r := SplitIndex(line);
      && (r > 0 ==> r < |line| && IsSplitAt(line, r) && forall j | 0 <= j < r :: !IsSplitAt(line, j))
      && (r == 0 ==> (|line| > 0 && line[0] == ' ') || forall j | 0 <= j < |line| :: !IsSplitAt(line, j))
  {
    ScanFromFindsFirstSplit(line, 0);
  }

  /** For a line that does not start with a space, 0 means exactly "no split". */
  lemma SplitIndexZeroMeansNoSplit(line: string)
    requires |line| > 0 && line[0] != ' '
    ensures SplitIndex(line) == 0 <==> forall j | 0 <= j < |line| :: !IsSplitAt(line, j)
  {
    SplitIndexIsFirstSplit(line);
  }

  /** A quote flag flips only at depth 0 and only while the other kind of quote is
      closed; the depth moves by one, only outside both kinds of quotes. */
  lemma StepChangesState(st: ScanState, c: char)
    ensures Step(st, c).quoted != st.quoted <==> c == '\'' && !st.doubleQuoted && st.parens == 0
    ensures Step(st, c).doubleQuoted != st.doubleQuoted <==> c == '"' && !st.quoted && st.parens == 0
    ensures Step(st, c).parens == st.parens + 1 <==> c == '(' && !st.quoted && !st.doubleQuoted
    ensures Step(st, c).parens == st.parens - 1 <==> c == ')' && !st.quoted && !st.doubleQuoted
    ensures Step(st, c).parens - st.parens in {-1, 0, 1}
  {
  }

  /** The depth never strays further from 0 than the number of characters read. */
  lemma {:induction false} DepthBounded(line: string, i: nat)
    requires i <= |line|
    ensures -(i as int) <= StateAt(line, i).parens <= i
  {
    if i > 0 {
      DepthBounded(line, i - 1);
    }
  }

  /** After an unmatched `)` the depth is negative and stays so, and no space ends a
      token, until a `(` is read. */
  lemma {:induction false} NoSplitWhileBelowZero(line: string, i: nat, j: nat)
    requires i <= j <= |line|
    requires StateAt(line, i).parens < 0
    requires forall k | i <= k < j :: line[k] != '('
    ensures StateAt(line, j).parens < 0
    ensures forall k | i <= k < j :: !IsSplitAt(line, k)
    decreases j - i
  {
    if i < j {
      assert StateAt(line, i + 1) == Step(StateAt(line, i), line[i]);
      NoSplitWhileBelowZero(line, i + 1, j);
    }
  }

  /** In `a=(1 2) b=3` the space inside the parentheses does not end a token. */
  lemma ParenthesizedSpaceExample()
    ensures SplitIndex("a=(1 2) b=3") == 7
  {
  }
}
