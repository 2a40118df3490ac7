/**
 * `parse_line`: one audit line to an `Entry` of twenty optional fields. The line is
 * cut into tokens at the spaces `find_next_split` reports, each token is split on
 * `=` into a key and a value, wrapping punctuation is stripped from both, and the
 * pairs go into an insertion-ordered map from which the fields are read.
 */
module Record {
  import opened Wrappers
  import opened Text
  import opened Tokenizer
  import opened OrderedMap
  import opened Decimal

  /** The parsed record: string fields hold the value text as it is, number fields
      its `u32` reading. `typ` is the field read from the key `type`. */
  datatype Entry = Entry(
    typ: Option<string>,
    msg: Option<string>,
    file: Option<string>,
    hash: Option<string>,
    ppid: Option<U32>,
    pid: Option<U32>,
    auid: Option<U32>,
    uid: Option<U32>,
    gid: Option<U32>,
    euid: Option<U32>,
    suid: Option<U32>,
    fsuid: Option<U32>,
    egid: Option<U32>,
    sgid: Option<U32>,
    fsgid: Option<U32>,
    sig: Option<U32>,
    tty: Option<string>,
    ses: Option<string>,
    comm: Option<string>,
    exe: Option<string>)

  /** The one way a line can fail: a token without `=`, where the source panics on
      the missing value. */
  datatype ParseError = MissingValue(token: string)

  type Fields = OMap<string, string>

  /* ---------- Splitting a token on `=` ---------- */

  /** The index of the first `c` in `s`. */
  function IndexOf(s: string, c: char): (r: Option<nat>)
    ensures r.None? <==> c !in s
    ensures r.Some? ==> r.value < |s| && s[r.value] == c && c !in s[..r.value]
  {
    if s == [] then None
    else if s[0] == c then Some(0)
    else match IndexOf(s[1..], c)
      case None => None
      case Some(i) => (assert s[..i + 1] == [s[0]] + s[1..][..i]; Some(i + 1))
  }

  /** The first two pieces of `token.split('=')`: the text before the first `=`
      and the text between it and the next `=` (or the end). No `=` at all leaves
      no second piece. */
  function SplitOnEquals(token: string): (r: Option<(string, string)>)
    ensures r.None? <==> '=' !in token
    ensures r.Some? ==>
      var (key, value) := r.value;
      && '=' !in key && '=' !in value
      && |key| + 1 + |value| <= |token|
      && token[..|key|] == key && token[|key|] == '='
      && token[|key| + 1..|key| + 1 + |value|] == value
      && (|key| + 1 + |value| == |token| || token[|key| + 1 + |value|] == '=')
  {
    match IndexOf(token, '=')
    case None => None
    case Some(i) =>
      var rest := token[i + 1..];
      var value := match IndexOf(rest, '=') case None => rest case Some(j) => rest[..j];
      Some((token[..i], value))
  }

  /* ---------- Stripping keys ---------- */

  /** The characters key stripping may remove. */
  const KeyMarks: set<char> := {'"', '\'', '(', ')'}

  /** The test of the key-stripping loop: a key that starts with `"`, `'` or `(`,
      or ends with `"`, `'` or `)`. */
  predicate KeyWrapped(k: string) {
    |k| > 0 && (k[0] in {'"', '\'', '('} || k[|k| - 1] in {'"', '\'', ')'})
  }

  /** One pass of the key-stripping loop body. */
  function KeyStripPass(k: string): (r: string)
    ensures Peels(k, KeyMarks, r)
    ensures KeyWrapped(k) ==> |r| < |k|
  {
    var a := TrimMatches(k, '"');
    var b := TrimMatches(a, '\'');
    var c := TrimMatches(b, '(');
    var d := TrimMatches(c, ')');
    PeelsWiden(k, {'"'}, KeyMarks, a);
    PeelsWiden(a, {'\''}, KeyMarks, b);
    PeelsWiden(b, {'('}, KeyMarks, c);
    PeelsWiden(c, {')'}, KeyMarks, d);
    PeelsTransitive(k, KeyMarks, a, b);
    PeelsTransitive(k, KeyMarks, b, c);
    PeelsTransitive(k, KeyMarks, c, d);
    d
  }

  /** The key the stripping loop ends with: the original with quotes and
      parentheses peeled off its ends, and no longer wrapped. */
  function StrippedKey(k: string): (r: string)
    ensures Peels(k, KeyMarks, r)
    ensures !KeyWrapped(r)
    decreases |k|
  {
    if KeyWrapped(k) then
      var next := KeyStripPass(k);
      var r := StrippedKey(next);
      PeelsTransitive(k, KeyMarks, next, r);
      r
    else k
  }

  method StripKey(key: string) returns (r: string)
    ensures r == StrippedKey(key)
  {
    r := key;
    while KeyWrapped(r)
      invariant StrippedKey(r) == StrippedKey(key)
      decreases |r|
    {
      ghost var before := r;
      r := TrimMatches(r, '"');
      r := TrimMatches(r, '\'');
      r := TrimMatches(r, '(');
      r := TrimMatches(r, ')');
      assert r == KeyStripPass(before);
    }
  }

  /** Running the stripping loop on its own result changes nothing. */
  lemma StrippedKeyIdempotent(k: string)
    ensures StrippedKey(StrippedKey(k)) == StrippedKey(k)
  {
  }

  /* ---------- Stripping values ---------- */

  /** The characters value stripping may remove: quotes, never parentheses. */
  const QuoteMarks: set<char> := {'"', '\''}

  /** The test of the value-stripping loop. */
  predicate ValueWrapped(v: string) {
    |v| > 0 && (v[0] in QuoteMarks || v[|v| - 1] in QuoteMarks)
  }

  /** One pass of the value-stripping loop body. */
  function ValueStripPass(v: string): (r: string)
    ensures Peels(v, QuoteMarks, r)
    ensures ValueWrapped(v) ==> |r| < |v|
  {
    var a := TrimMatches(v, '"');
    var b := TrimMatches(a, '\'');
    PeelsWiden(v, {'"'}, QuoteMarks, a);
    PeelsWiden(a, {'\''}, QuoteMarks, b);
    PeelsTransitive(v, QuoteMarks, a, b);
    b
  }

  /** The value the stripping loop ends with: only quotes are peeled off its ends,
      and it neither starts nor ends with a quote. */
  function StrippedValue(v: string): (r: string)
    ensures Peels(v, QuoteMarks, r)
    ensures !ValueWrapped(r)
    decreases |v|
  {
    if ValueWrapped(v) then
      var next := ValueStripPass(v);
      var r := StrippedValue(next);
      PeelsTransitive(v, QuoteMarks, next, r);
      r
    else v
  }

  method StripValue(value: string) returns (r: string)
    ensures r == StrippedValue(value)
  {
    r := value;
    while ValueWrapped(r)
      invariant StrippedValue(r) == StrippedValue(value)
      decreases |r|
    {
      ghost var before := r;
      r := TrimMatches(r, '"');
      r := TrimMatches(r, '\'');
      assert r == ValueStripPass(before);
    }
  }

  lemma StrippedValueIdempotent(v: string)
    ensures StrippedValue(StrippedValue(v)) == StrippedValue(v)
  {
  }

  /** Parentheses survive value stripping but not key stripping; key stripping
      tests only `(` at the front and `)` at the back. */
  lemma ValueStripExample()
    ensures StrippedValue("\"(x)\"") == "(x)"
  {
    var v := "\"(x)\"";
    assert TrimLeft(v, {'"'}) == "(x)\"" by { assert v[1..] == "(x)\""; }
    assert TrimRight("(x)\"", {'"'}) == "(x)" by { assert "(x)\""[..3] == "(x)"; }
    assert ValueStripPass(v) == "(x)";
  }

  lemma KeyStripExample()
    ensures StrippedKey("(\"a\")") == "a"
  {
    var k := "(\"a\")";
    assert TrimMatches(k, '"') == k;
    assert TrimMatches(k, '\'') == k;
    assert TrimMatches(k, '(') == "\"a\")" by { assert k[1..] == "\"a\")"; }
    assert TrimMatches("\"a\")", ')') == "\"a\"" by { assert "\"a\")"[..3] == "\"a\""; }
    assert KeyStripPass(k) == "\"a\"";
    var q := "\"a\"";
    assert TrimLeft(q, {'"'}) == "a\"" by { assert q[1..] == "a\""; }
    assert TrimRight("a\"", {'"'}) == "a" by { assert "a\""[..1] == "a"; }
    assert KeyStripPass(q) == "a";
  }

  lemma KeyStripUnwrappedExample()
    ensures StrippedKey(")a(") == ")a("
  {
  }

  /** One token to its key and value, or the error the source panics with. */
  function ParsePair(token: string): (r: Result<(string, string), ParseError>)
    ensures r.Err? <==> '=' !in token
    ensures r.Err? ==> r.error == MissingValue(token)
    ensures r.Ok? ==>
      && SplitOnEquals(token).Some?
      && r.value == (StrippedKey(SplitOnEquals(token).value.0), StrippedValue(SplitOnEquals(token).value.1))
  {
    match SplitOnEquals(token)
    case None => Err(MissingValue(token))
    case Some((key, value)) => Ok((StrippedKey(key), StrippedValue(value)))
  }

  /* ---------- Cutting a line into tokens ---------- */

  /** The tokens the loop of `parse_line` takes from a trimmed line: each one is
      the text up to the next split; the loop stops as soon as no split is left,
      so the remainder is never taken. */
  function Tokens(rest: string): seq<string>
    decreases |rest|
  {
    var next := SplitIndex(rest);
    if next == 0 then [] else [Trim(rest[..next])] + Tokens(Trim(rest[next..]))
  }

  /** The tokenization a reader expects: as `Tokens`, but with the remainder as the
      last token. */
  function AllTokens(rest: string): seq<string>
    decreases |rest|
  {
    var next := SplitIndex(rest);
    if next == 0 then (if rest == [] then [] else [rest])
    else [Trim(rest[..next])] + AllTokens(Trim(rest[next..]))
  }

  /** The loop of `parse_line` takes every token of a trimmed line except the
      last: a line of n tokens contributes only its first n - 1. */
  lemma {:induction false} TokensDropLast(rest: string)
    requires rest == Trim(rest)
    ensures rest == [] ==> Tokens(rest) == [] && AllTokens(rest) == []
    ensures rest != [] ==> |AllTokens(rest)| > 0 && Tokens(rest) + [AllTokens(rest)[|AllTokens(rest)| - 1]] == AllTokens(rest)
    decreases |rest|
  {
    var next := SplitIndex(rest);
    if next != 0 {
      var tail := Trim(rest[next..]);
      TrimSetIdempotent(rest[next..], AsciiWhitespace);
      assert rest[next..][|rest[next..]| - 1] == rest[|rest| - 1];
      assert tail != [];
      TokensDropLast(tail);
      assert Tokens(rest) + [AllTokens(tail)[|AllTokens(tail)| - 1]]
          == [Trim(rest[..next])] + (Tokens(tail) + [AllTokens(tail)[|AllTokens(tail)| - 1]]);
    }
  }

  /* ---------- Filling the ordered map ---------- */

  /** The key-value pairs of the tokens, in order, or the first token's error. */
  function Pairs(tokens: seq<string>): (r: Result<seq<(string, string)>, ParseError>)
    ensures r.Ok? <==> forall i | 0 <= i < |tokens| :: ParsePair(tokens[i]).Ok?
    ensures r.Ok? ==> |r.value| == |tokens| && forall i | 0 <= i < |tokens| :: r.value[i] == ParsePair(tokens[i]).value
  {
    if tokens == [] then Ok([])
    else match ParsePair(tokens[0])
      case Err(e) => Err(e)
      case Ok(pair) =>
        match Pairs(tokens[1..])
        case Err(e) => Err(e)
        case Ok(pairs) => Ok([pair] + pairs)
  }

  /** The pairs fail exactly when some token lacks `=`, and then with the first
      such token. */
  lemma {:induction false} PairsFailAtFirstBadToken(tokens: seq<string>)
    ensures Pairs(tokens).Err? <==> exists i | 0 <= i < |tokens| :: '=' !in tokens[i]
    ensures Pairs(tokens).Err? ==> exists i | 0 <= i < |tokens| ::
      && Pairs(tokens).error == MissingValue(tokens[i])
      && '=' !in tokens[i]
      && forall j | 0 <= j < i :: '=' in tokens[j]
    decreases |tokens|
  {
    if tokens != [] {
      PairsFailAtFirstBadToken(tokens[1..]);
      assert forall i | 1 <= i < |tokens| :: tokens[i] == tokens[1..][i - 1];
      if '=' !in tokens[0] {
        assert Pairs(tokens).error == MissingValue(tokens[0]);
      } else if Pairs(tokens[1..]).Err? {
        var i :| 0 <= i < |tokens| - 1 && Pairs(tokens[1..]).error == MissingValue(tokens[1..][i])
          && '=' !in tokens[1..][i] && forall j | 0 <= j < i :: '=' in tokens[1..][j];
        assert forall j | 1 <= j < i + 1 :: '=' in tokens[j] by {
          forall j | 1 <= j < i + 1 ensures '=' in tokens[j] { assert tokens[j] == tokens[1..][j - 1]; }
        }
        assert Pairs(tokens).error == MissingValue(tokens[i + 1]);
      }
    }
  }

  /** `map.insert` for each pair in order. */
  function InsertAll(m: Fields, pairs: seq<(string, string)>): Fields
    decreases |pairs|
  {
    if pairs == [] then m else InsertAll(Insert(m, pairs[0].0, pairs[0].1), pairs[1..])
  }

  /** The value of the last pair with key `k`, if any. */
  function LastValue(pairs: seq<(string, string)>, k: string): Option<string>
    decreases |pairs|
  {
    if pairs == [] then None
    else match LastValue(pairs[1..], k)
      case Some(v) => Some(v)
      case None => if pairs[0].0 == k then Some(pairs[0].1) else None
  }

  /** When a key repeats the last value wins; a key that no pair has keeps what it
      had. */
  lemma {:induction false} InsertAllLastWins(m: Fields, pairs: seq<(string, string)>, k: string)
    ensures Get(InsertAll(m, pairs), k) == if LastValue(pairs, k).Some? then LastValue(pairs, k) else Get(m, k)
    decreases |pairs|
  {
    if pairs != [] {
      InsertAllLastWins(Insert(m, pairs[0].0, pairs[0].1), pairs[1..], k);
    }
  }

  /** The keys of `pairs` not in `seen`, each once, in order of first occurrence. */
  function NewKeys(seen: seq<string>, pairs: seq<(string, string)>): seq<string>
    decreases |pairs|
  {
    if pairs == [] then []
    else if pairs[0].0 in seen then NewKeys(seen, pairs[1..])
    else [pairs[0].0] + NewKeys(seen + [pairs[0].0], pairs[1..])
  }

  /** Keys are listed in order of first occurrence; a repeated key keeps its place. */
  lemma {:induction false} InsertAllKeyOrder(m: Fields, pairs: seq<(string, string)>)
    requires Valid(m)
    ensures Valid(InsertAll(m, pairs))
    ensures InsertAll(m, pairs).keys == m.keys + NewKeys(m.keys, pairs)
    decreases |pairs|
  {
    if pairs != [] {
      var next := Insert(m, pairs[0].0, pairs[0].1);
      InsertAllKeyOrder(next, pairs[1..]);
      if pairs[0].0 !in m.keys {
        assert next.keys + NewKeys(next.keys, pairs[1..]) == m.keys + ([pairs[0].0] + NewKeys(m.keys + [pairs[0].0], pairs[1..]));
      }
    }
  }

  /* ---------- Building the entry ---------- */

  /** `map.get(name).map(|v| v.parse().unwrap_or_default())` for a `u32` field. */
  function NumberOf(text: Option<string>): (r: Option<U32>)
    ensures r.None? <==> text.None?
    ensures text.Some? && ParseU32(text.value).None? ==> r == Some(0)
    ensures text.Some? && ParseU32(text.value).Some? ==> r == ParseU32(text.value)
  {
    match text
    case None => None
    case Some(t) => Some(ParseU32OrZero(t))
  }

  function BuildEntry(m: Fields): Entry {
    Entry(
      typ := Get(m, "type"),
      msg := Get(m, "msg"),
      file := Get(m, "file"),
      hash := Get(m, "hash"),
      ppid := NumberOf(Get(m, "ppid")),
      pid := NumberOf(Get(m, "pid")),
      auid := NumberOf(Get(m, "auid")),
      uid := NumberOf(Get(m, "uid")),
      gid := NumberOf(Get(m, "gid")),
      euid := NumberOf(Get(m, "euid")),
      suid := NumberOf(Get(m, "suid")),
      fsuid := NumberOf(Get(m, "fsuid")),
      egid := NumberOf(Get(m, "egid")),
      sgid := NumberOf(Get(m, "sgid")),
      fsgid := NumberOf(Get(m, "fsgid")),
      sig := NumberOf(Get(m, "sig")),
      tty := Get(m, "tty"),
      ses := Get(m, "ses"),
      comm := Get(m, "comm"),
      exe := Get(m, "exe"))
  }

  /** The keys of the string fields and of the number fields. */
  const StringKeys: seq<string> := ["type", "msg", "file", "hash", "tty", "ses", "comm", "exe"]
  const NumberKeys: seq<string> := ["ppid", "pid", "auid", "uid", "gid", "euid", "suid", "fsuid", "egid", "sgid", "fsgid", "sig"]

  /** The string field read from key `name`. */
  function StringField(e: Entry, name: string): Option<string> {
    match name
    case "type" => e.typ
    case "msg" => e.msg
    case "file" => e.file
    case "hash" => e.hash
    case "tty" => e.tty
    case "ses" => e.ses
    case "comm" => e.comm
    case "exe" => e.exe
    case _ => None
  }

  /** The number field read from key `name`. */
  function NumberField(e: Entry, name: string): Option<U32> {
    match name
    case "ppid" => e.ppid
    case "pid" => e.pid
    case "auid" => e.auid
    case "uid" => e.uid
    case "gid" => e.gid
    case "euid" => e.euid
    case "suid" => e.suid
    case "fsuid" => e.fsuid
    case "egid" => e.egid
    case "sgid" => e.sgid
    case "fsgid" => e.fsgid
    case "sig" => e.sig
    case _ => None
  }

  /** A present string key gives its field the value text unchanged; an absent
      one leaves the field absent. */
  lemma StringFieldFromMap(m: Fields, name: string)
    requires name in StringKeys
    ensures StringField(BuildEntry(m), name) == Get(m, name)
  {
  }

  /** Parse-or-default for number keys: an absent key leaves the field absent; a
      present key gives its `u32` reading, or 0 when the text is empty, not
      decimal or too large. */
  lemma NumberFieldFromMap(m: Fields, name: string)
    requires name in NumberKeys
    ensures name !in m.entries ==> NumberField(BuildEntry(m), name) == None
    ensures name in m.entries && ParseU32(m.entries[name]).None? ==> NumberField(BuildEntry(m), name) == Some(0)
    ensures name in m.entries && ParseU32(m.entries[name]).Some? ==> NumberField(BuildEntry(m), name) == ParseU32(m.entries[name])
  {
    assert NumberField(BuildEntry(m), name) == NumberOf(Get(m, name));
  }

  /* ---------- The whole line ---------- */

  /** What `parse_line` produces from the remaining text `rest` once `fields`
      holds the pairs inserted so far. */
  function ParseRest(rest: string, fields: Fields): Result<Entry, ParseError> {
    match Pairs(Tokens(rest))
    case Err(e) => Err(e)
    case Ok(pairs) => Ok(BuildEntry(InsertAll(fields, pairs)))
  }

  /** What `parse_line` produces from a line. */
  function Parse(line: string): Result<Entry, ParseError> {
    ParseRest(Trim(line), Empty())
  }

  method ParseLine(line: string) returns (r: Result<Entry, ParseError>)
    ensures r == Parse(line)
  {
    var rest := Trim(line);
    var next := FindNextSplit(rest);
    var fields: Fields := Empty();
    while next != 0
      invariant next == SplitIndex(rest)
      invariant ParseRest(rest, fields) == Parse(line)
      decreases |rest|
    {
      var element := Trim(rest[..next]);
      var split := SplitOnEquals(element);
      if split.None? {
        return Err(MissingValue(element));
      }
      var key := StripKey(split.value.0);
      var value := StripValue(split.value.1);
      fields := Insert(fields, key, value);
      rest := Trim(rest[next..]);
      next := FindNextSplit(rest);
    }
    return Ok(BuildEntry(fields));
  }

  /** A line with at most one token parses to an entry with every field absent. */
  lemma OneTokenLineIsEmpty(line: string)
    requires SplitIndex(Trim(line)) == 0
    ensures Parse(line) == Ok(BuildEntry(Empty()))
    ensures forall name | name in StringKeys :: StringField(Parse(line).value, name) == None
    ensures forall name | name in NumberKeys :: NumberField(Parse(line).value, name) == None
  {
  }
}
