/**
 * One concrete line followed through the parser and the aggregation: the line
 * `pid=100 uid=0`, read twice. Its last token, `uid=0`, is never taken, so
 * `uid` stays absent and is never counted.
 */
module WorkedLine {
  import opened Wrappers
  import opened Text
  import opened Tokenizer
  import opened OrderedMap
  import opened Decimal
  import opened Record
  import opened Aggregate

  const Line: string := "pid=100 uid=0"

  lemma LineSplits()
    ensures Trim(Line) == Line
    ensures SplitIndex(Line) == 7
    ensures SplitIndex("uid=0") == 0
    ensures Trim("pid=100") == "pid=100"
    ensures Trim(" uid=0") == "uid=0"
  {
    assert " uid=0"[1..] == "uid=0";
  }

  /** The loop takes `pid=100` and stops; a reader would expect `uid=0` too. */
  lemma LastTokenDropped()
    ensures Tokens(Line) == ["pid=100"]
    ensures AllTokens(Line) == ["pid=100", "uid=0"]
  {
    LineSplits();
    assert Line[..7] == "pid=100";
    assert Line[7..] == " uid=0";
  }

  lemma IndexOfEquals()
    ensures IndexOf("pid=100", '=') == Some(3)
  {
    var token := "pid=100";
    assert token[1..] == "id=100" && token[1..][1..] == "d=100" && token[1..][1..][1..] == "=100";
  }

  lemma TokenSplits()
    ensures SplitOnEquals("pid=100") == Some(("pid", "100"))
  {
    var token := "pid=100";
    IndexOfEquals();
    assert token[4..] == "100";
    assert IndexOf("100", '=') == None;
    assert token[..3] == "pid";
  }

  lemma TokenParses()
    ensures ParsePair("pid=100") == Ok(("pid", "100"))
  {
    TokenSplits();
    assert StrippedKey("pid") == "pid" by { assert !KeyWrapped("pid"); }
    assert StrippedValue("100") == "100" by { assert !ValueWrapped("100"); }
  }

  lemma TokenPairs()
    ensures Pairs(["pid=100"]) == Ok([("pid", "100")])
  {
    var tokens := ["pid=100"];
    TokenParses();
    assert tokens[0] == "pid=100" && tokens[1..] == [];
    assert Pairs(tokens[1..]) == Ok([]);
    var pairs: seq<(string, string)> := [];
    assert [("pid", "100")] + pairs == [("pid", "100")];
    assert Pairs(tokens) == Ok([("pid", "100")] + pairs);
  }

  lemma HundredParses()
    ensures ParseU32("100") == Some(100)
    ensures ToDecimal(100) == "100"
  {
    assert ValueOf("100") == 100 by { assert "100"[..2] == "10"; assert "10"[..1] == "1"; }
    assert ToDecimal(100) == ToDecimal(10) + ['0'];
  }

  /** The fields of the line: only `pid`, with its text. */
  const LineFields: Fields := Insert(Empty(), "pid", "100")

  lemma LineEntry()
    ensures Parse(Line) == Ok(BuildEntry(LineFields))
  {
    LineSplits();
    LastTokenDropped();
    TokenPairs();
    assert InsertAll(Empty(), [("pid", "100")]) == LineFields;
  }

  /** The entry of the line: only `pid` is present, as 100. */
  lemma LineParses()
    ensures Parse(Line).Ok?
    ensures Parse(Line).value.pid == Some(100)
    ensures Parse(Line).value.uid == None
  {
    LineEntry();
    HundredParses();
    assert Get(LineFields, "uid") == None;
    assert Get(LineFields, "pid") == Some("100");
    assert BuildEntry(LineFields).pid == NumberOf(Some("100"));
  }

  lemma EntryFields()
    ensures BuildEntry(LineFields).file == None && BuildEntry(LineFields).exe == None
    ensures BuildEntry(LineFields).comm == None && BuildEntry(LineFields).hash == None
    ensures BuildEntry(LineFields).pid == Some(100) && BuildEntry(LineFields).uid == None
  {
    assert Get(LineFields, "file") == None && Get(LineFields, "exe") == None;
    assert Get(LineFields, "comm") == None && Get(LineFields, "hash") == None;
    assert Get(LineFields, "uid") == None;
    assert Get(LineFields, "pid") == Some("100");
    HundredParses();
  }

  /** An entry with none of the subject fields, `pid` 100 and no `uid` is counted
      under "UNKNOWN"; its `pid` is listed as "100" and its `uid` is not listed. */
  lemma EntryListing(e: Entry)
    requires e.file == None && e.exe == None && e.comm == None && e.hash == None
    requires e.pid == Some(100) && e.uid == None
    ensures Subject(e) == Unknown
    ensures ("pid", Some("100")) in Listing(e)
    ensures ("uid", Some("0")) !in Listing(e)
  {
    var r := Listing(e);
    HundredParses();
    assert r[6] == ("pid", Some("100"));
    AllowListFacts();
    assert AllowList[8] == "uid";
    forall j | 0 <= j < |r|
      ensures r[j] != ("uid", Some("0"))
    {
      if j == 8 {
        assert r[8].1 == None;
      } else {
        assert r[j].0 == AllowList[j] != AllowList[8];
      }
    }
  }

  lemma FoldOneLine(t: Table, line: string, e: Entry)
    requires Parse(line) == Ok(e)
    ensures FoldLines(t, [line]) == Ok(FoldEntry(t, e))
  {
    assert [line][1..] == [];
  }

  /** Reading a line twice is folding its entry in twice. */
  lemma TwiceFolds(line: string, e: Entry)
    requires Parse(line) == Ok(e)
    ensures FoldLines(Empty(), [line, line]) == Ok(FoldEntry(FoldEntry(Empty(), e), e))
  {
    FoldOneLine(Empty(), line, e);
    FoldOneLine(FoldEntry(Empty(), e), line, e);
    FoldLinesAppend(Empty(), [line], [line]);
    assert [line] + [line] == [line, line];
  }

  /** Such an entry folded in twice: its `pid` value is counted twice under
      "UNKNOWN", and its `uid` never. */
  lemma EntryTwiceCounts(e: Entry)
    requires Subject(e) == Unknown
    requires ("pid", Some("100")) in Listing(e) && ("uid", Some("0")) !in Listing(e)
    ensures Count(FoldEntry(FoldEntry(Empty(), e), e), Unknown, "pid", "100") == 2
    ensures Count(FoldEntry(FoldEntry(Empty(), e), e), Unknown, "uid", "0") == 0
  {
    FoldEntryCounts(Empty(), e);
    FoldEntryCounts(FoldEntry(Empty(), e), e);
  }

  /** The line read twice: its `pid` value is counted twice under "UNKNOWN",
      and its `uid` never. */
  lemma LineTwice()
    ensures FoldLines(Empty(), [Line, Line]).Ok?
    ensures Count(FoldLines(Empty(), [Line, Line]).value, Unknown, "pid", "100") == 2
    ensures Count(FoldLines(Empty(), [Line, Line]).value, Unknown, "uid", "0") == 0
  {
    var e := BuildEntry(LineFields);
    EntryFields();
    EntryListing(e);
    LineEntry();
    TwiceFolds(Line, e);
    EntryTwiceCounts(e);
  }
}
