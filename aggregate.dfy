/**
 * The fold of parsed entries into the three-level frequency table
 * subject -> field name -> field value -> count, every level ordered by first
 * insertion: `increment_stat` and the body of the per-line loop of `main`.
 */
module Aggregate {
  import opened Wrappers
  import opened OrderedMap
  import opened Decimal
  import opened Record

  /** value text -> number of times seen */
  type Counts = OMap<string, nat>
  /** field name -> counts of its values */
  type Bucket = OMap<string, Counts>
  /** subject -> its bucket */
  type Table = OMap<string, Bucket>

  const Unknown: string := "UNKNOWN"

  /** The fields counted, in the order they are counted. `hash` is not among them. */
  const AllowList: seq<string> :=
    ["type", "exe", "msg", "file", "sig", "ppid", "pid", "auid", "uid", "gid",
     "euid", "suid", "fsuid", "egid", "sgid", "fsgid", "tty", "ses", "comm"]

  lemma AllowListFacts()
    ensures forall i, j | 0 <= i < j < |AllowList| :: AllowList[i] != AllowList[j]
    ensures "hash" !in AllowList
  {
  }

  /* ---------- What one entry contributes ---------- */

  /** The bucket an entry is counted under: its `file`, else its `exe`, else its
      `comm`, else its `hash`, else "UNKNOWN". */
  function Subject(e: Entry): string {
    match e.file
    case Some(f) => f
    case None =>
      match e.exe
      case Some(x) => x
      case None =>
        match e.comm
        case Some(c) => c
        case None =>
          match e.hash
          case Some(h) => h
          case None => Unknown
  }

  lemma SubjectPriority(e: Entry)
    ensures e.file.Some? ==> Subject(e) == e.file.value
    ensures e.file.None? && e.exe.Some? ==> Subject(e) == e.exe.value
    ensures e.file.None? && e.exe.None? && e.comm.Some? ==> Subject(e) == e.comm.value
    ensures e.file.None? && e.exe.None? && e.comm.None? && e.hash.Some? ==> Subject(e) == e.hash.value
    ensures e.file.None? && e.exe.None? && e.comm.None? && e.hash.None? ==> Subject(e) == Unknown
  {
  }

  /** The text a number field is counted under: `v.to_string()`. */
  function NumberText(n: Option<U32>): (r: Option<string>)
    ensures r.Some? <==> n.Some?
    ensures r.Some? ==> ParseU32(r.value) == n
    ensures r.Some? ==> |r.value| > 0 && AllDigits(r.value) && (|r.value| > 1 ==> r.value[0] != '0')
  {
    match n
    case Some(v) => (DecimalRoundTrip(v); Some(ToDecimal(v)))
    case None => None
  }

  /** The array the per-line loop walks: each allow-listed field name with its
      value as text, in the order they are counted. */
  function Listing(e: Entry): (r: seq<(string, Option<string>)>)
    ensures |r| == |AllowList| && forall i | 0 <= i < |r| :: r[i].0 == AllowList[i]
  {
    [("type", e.typ), ("exe", e.exe), ("msg", e.msg), ("file", e.file),
     ("sig", NumberText(e.sig)), ("ppid", NumberText(e.ppid)), ("pid", NumberText(e.pid)),
     ("auid", NumberText(e.auid)), ("uid", NumberText(e.uid)), ("gid", NumberText(e.gid)),
     ("euid", NumberText(e.euid)), ("suid", NumberText(e.suid)), ("fsuid", NumberText(e.fsuid)),
     ("egid", NumberText(e.egid)), ("sgid", NumberText(e.sgid)), ("fsgid", NumberText(e.fsgid)),
     ("tty", e.tty), ("ses", e.ses), ("comm", e.comm)]
  }

  /** The field read from key `name`, as the text it is counted under. */
  function FieldText(e: Entry, name: string): Option<string> {
    if name in NumberKeys then NumberText(NumberField(e, name)) else StringField(e, name)
  }

  /** `ListingFields` for the indices 0 to 3; the other groups of indices follow. */
  lemma ListingFieldsFrom0(e: Entry)
    ensures forall i | 0 <= i < 4 :: Listing(e)[i].1 == FieldText(e, Listing(e)[i].0)
  {
    var r := Listing(e);
    forall i | 0 <= i < 4
      ensures r[i].1 == FieldText(e, r[i].0)
    {
      match i
      case 0 =>
        assert "type" !in NumberKeys && StringField(e, "type") == e.typ;
        assert r[0] == ("type", e.typ);
      case 1 =>
        assert "exe" !in NumberKeys && StringField(e, "exe") == e.exe;
        assert r[1] == ("exe", e.exe);
      case 2 =>
        assert "msg" !in NumberKeys && StringField(e, "msg") == e.msg;
        assert r[2] == ("msg", e.msg);
      case 3 =>
        assert "file" !in NumberKeys && StringField(e, "file") == e.file;
        assert r[3] == ("file", e.file);
    }
  }

  lemma ListingFieldsFrom4(e: Entry)
    ensures forall i | 4 <= i < 8 :: Listing(e)[i].1 == FieldText(e, Listing(e)[i].0)
  {
    var r := Listing(e);
    forall i | 4 <= i < 8
      ensures r[i].1 == FieldText(e, r[i].0)
    {
      match i
      case 4 =>
        assert "sig" in NumberKeys && NumberField(e, "sig") == e.sig;
        assert r[4] == ("sig", NumberText(e.sig));
      case 5 =>
        assert "ppid" in NumberKeys && NumberField(e, "ppid") == e.ppid;
        assert r[5] == ("ppid", NumberText(e.ppid));
      case 6 =>
        assert "pid" in NumberKeys && NumberField(e, "pid") == e.pid;
        assert r[6] == ("pid", NumberText(e.pid));
      case 7 =>
        assert "auid" in NumberKeys && NumberField(e, "auid") == e.auid;
        assert r[7] == ("auid", NumberText(e.auid));
    }
  }

  lemma ListingFieldsFrom8(e: Entry)
    ensures forall i | 8 <= i < 12 :: Listing(e)[i].1 == FieldText(e, Listing(e)[i].0)
  {
    var r := Listing(e);
    forall i | 8 <= i < 12
      ensures r[i].1 == FieldText(e, r[i].0)
    {
      match i
      case 8 =>
        assert "uid" in NumberKeys && NumberField(e, "uid") == e.uid;
        assert r[8] == ("uid", NumberText(e.uid));
      case 9 =>
        assert "gid" in NumberKeys && NumberField(e, "gid") == e.gid;
        assert r[9] == ("gid", NumberText(e.gid));
      case 10 =>
        assert "euid" in NumberKeys && NumberField(e, "euid") == e.euid;
        assert r[10] == ("euid", NumberText(e.euid));
      case 11 =>
        assert "suid" in NumberKeys && NumberField(e, "suid") == e.suid;
        assert r[11] == ("suid", NumberText(e.suid));
    }
  }

  lemma ListingFieldsFrom12(e: Entry)
    ensures forall i | 12 <= i < 16 :: Listing(e)[i].1 == FieldText(e, Listing(e)[i].0)
  {
    var r := Listing(e);
    forall i | 12 <= i < 16
      ensures r[i].1 == FieldText(e, r[i].0)
    {
      match i
      case 12 =>
        assert "fsuid" in NumberKeys && NumberField(e, "fsuid") == e.fsuid;
        assert r[12] == ("fsuid", NumberText(e.fsuid));
      case 13 =>
        assert "egid" in NumberKeys && NumberField(e, "egid") == e.egid;
        assert r[13] == ("egid", NumberText(e.egid));
      case 14 =>
        assert "sgid" in NumberKeys && NumberField(e, "sgid") == e.sgid;
        assert r[14] == ("sgid", NumberText(e.sgid));
      case 15 =>
        assert "fsgid" in NumberKeys && NumberField(e, "fsgid") == e.fsgid;
        assert r[15] == ("fsgid", NumberText(e.fsgid));
    }
  }

  lemma ListingFieldsFrom16(e: Entry)
    ensures forall i | 16 <= i < 19 :: Listing(e)[i].1 == FieldText(e, Listing(e)[i].0)
  {
    var r := Listing(e);
    forall i | 16 <= i < 19
      ensures r[i].1 == FieldText(e, r[i].0)
    {
      match i
      case 16 =>
        assert "tty" !in NumberKeys && StringField(e, "tty") == e.tty;
        assert r[16] == ("tty", e.tty);
      case 17 =>
        assert "ses" !in NumberKeys && StringField(e, "ses") == e.ses;
        assert r[17] == ("ses", e.ses);
      case 18 =>
        assert "comm" !in NumberKeys && StringField(e, "comm") == e.comm;
        assert r[18] == ("comm", e.comm);
    }
  }

  /** Each listed name carries the entry's field of that name: a string field as
      it is, a number field as its decimal text. */
  lemma ListingFields(e: Entry)
    ensures forall i | 0 <= i < |Listing(e)| :: Listing(e)[i].1 == FieldText(e, Listing(e)[i].0)
  {
    ListingFieldsFrom0(e);
    ListingFieldsFrom4(e);
    ListingFieldsFrom8(e);
    ListingFieldsFrom12(e);
    ListingFieldsFrom16(e);
  }

  /** No two entries of a listing have the same field name. */
  predicate DistinctNames(fields: seq<(string, Option<string>)>) {
    forall i, j | 0 <= i < j < |fields| :: fields[i].0 != fields[j].0
  }

  /** Each allow-listed field is listed once, and `hash` is never listed. */
  lemma ListingFacts(e: Entry)
    ensures DistinctNames(Listing(e))
    ensures forall i | 0 <= i < |Listing(e)| :: Listing(e)[i].0 != "hash"
  {
    AllowListFacts();
  }

  /* ---------- Counting ---------- */

  /** How often `value` was seen for `field` in bucket `b`; 0 when never. */
  function BucketCount(b: Bucket, field: string, value: string): nat {
    if field in b.entries && value in b.entries[field].entries then b.entries[field].entries[value] else 0
  }

  /** The bucket of `subject`; an empty one when it has none yet. */
  function BucketOf(t: Table, subject: string): Bucket {
    if subject in t.entries then t.entries[subject] else Empty()
  }

  /** How often `value` was seen for `field` under `subject`; 0 when never. */
  function Count(t: Table, subject: string, field: string, value: string): nat {
    if subject in t.entries then BucketCount(t.entries[subject], field, value) else 0
  }

  /** `increment_stat` on a bucket: `entry(name).or_default()`, then
      `entry(value).or_insert(0)`, then add one. */
  function Incremented(b: Bucket, name: string, value: string): (r: Bucket)
    ensures forall f, v :: BucketCount(r, f, v) == BucketCount(b, f, v) + (if f == name && v == value then 1 else 0)
    ensures r.entries.Keys == b.entries.Keys + {name}
    ensures name in b.entries ==> r.keys == b.keys
    ensures name !in b.entries ==> r.keys == b.keys + [name]
  {
    var counts := match Get(b, name) case Some(c) => c case None => Empty();
    var n := match Get(counts, value) case Some(n) => n case None => 0;
    Insert(b, name, Insert(counts, value, n + 1))
  }

  /** The bucket after `increment_stat` for each present field of `fields`, in
      order. */
  function CountAll(b: Bucket, fields: seq<(string, Option<string>)>): Bucket
    decreases |fields|
  {
    if fields == [] then b
    else
      var earlier := CountAll(b, fields[..|fields| - 1]);
      var (name, text) := fields[|fields| - 1];
      match text
      case Some(v) => Incremented(earlier, name, v)
      case None => earlier
  }

  /** `stats.insert(name, IndexMap::new())` unless the subject has a bucket. */
  function WithBucket(t: Table, subject: string): (r: Table)
    ensures subject in r.entries
    ensures subject in t.entries ==> r == t
    ensures subject !in t.entries ==> r.keys == t.keys + [subject] && r.entries == t.entries[subject := Empty()]
  {
    if subject in t.entries then t else Insert(t, subject, Empty())
  }

  /** The table after one entry is folded in. */
  function FoldEntry(t: Table, e: Entry): Table {
    var subject := Subject(e);
    var t' := WithBucket(t, subject);
    Insert(t', subject, CountAll(t'.entries[subject], Listing(e)))
  }

  /** The table after each line in turn is parsed and folded in, or the error of
      the first line that does not parse. */
  function FoldLines(t: Table, lines: seq<string>): Result<Table, ParseError>
    decreases |lines|
  {
    if lines == [] then Ok(t)
    else match Parse(lines[0])
      case Err(err) => Err(err)
      case Ok(e) => FoldLines(FoldEntry(t, e), lines[1..])
  }

  /* ---------- Invariants of the table ---------- */

  ghost predicate CountsWellFormed(c: Counts) {
    Valid(c) && forall v | v in c.entries :: c.entries[v] >= 1
  }

  ghost predicate BucketWellFormed(b: Bucket) {
    Valid(b) && forall f | f in b.entries :: CountsWellFormed(b.entries[f])
  }

  /** Every level is a proper ordered map and every count is at least 1. */
  ghost predicate WellFormed(t: Table) {
    Valid(t) && forall s | s in t.entries :: BucketWellFormed(t.entries[s])
  }

  /** No bucket counts the `hash` field. */
  ghost predicate NoHashField(t: Table) {
    forall s | s in t.entries :: "hash" !in t.entries[s].entries
  }

  /** Every key of `b` keeps its place in `c`, at both levels. */
  ghost predicate BucketExtends(b: Bucket, c: Bucket) {
    && IsPrefix(b.keys, c.keys)
    && forall f | f in b.entries :: f in c.entries && IsPrefix(b.entries[f].keys, c.entries[f].keys)
  }

  /** Every key of `t` keeps its place in `u`, at all three levels: new keys only
      ever come after the existing ones. */
  ghost predicate Extends(t: Table, u: Table) {
    && IsPrefix(t.keys, u.keys)
    && forall s | s in t.entries :: s in u.entries && BucketExtends(t.entries[s], u.entries[s])
  }

  lemma IncrementedKeepsShape(b: Bucket, name: string, value: string)
    ensures BucketWellFormed(b) ==> BucketWellFormed(Incremented(b, name, value))
    ensures BucketExtends(b, Incremented(b, name, value))
  {
  }

  /** Counting a listing with distinct names adds exactly one to each present
      field's value and leaves every other count alone; only listed names can
      appear as new fields. */
  lemma {:induction false} CountAllCounts(b: Bucket, fields: seq<(string, Option<string>)>)
    requires DistinctNames(fields)
    ensures forall f, v :: BucketCount(CountAll(b, fields), f, v) ==
              BucketCount(b, f, v) + (if (f, Some(v)) in fields then 1 else 0)
    ensures forall f :: f in CountAll(b, fields).entries <==>
              f in b.entries || exists i | 0 <= i < |fields| :: fields[i].0 == f && fields[i].1.Some?
    decreases |fields|
  {
    if fields != [] {
      var init := fields[..|fields| - 1];
      var (name, text) := fields[|fields| - 1];
      assert DistinctNames(init);
      CountAllCounts(b, init);
      assert forall i | 0 <= i < |init| :: init[i] == fields[i];
      forall f, v
        ensures BucketCount(CountAll(b, fields), f, v) ==
                BucketCount(b, f, v) + (if (f, Some(v)) in fields then 1 else 0)
      {
        assert fields == init + [(name, text)];
        if f == name {
          assert (f, Some(v)) !in init;
        }
      }
    }
  }

  /** The field names a listing adds to a bucket that already has the fields in
      `seen`: each present name not seen before, once, in listing order. */
  function NewNames(seen: set<string>, fields: seq<(string, Option<string>)>): seq<string>
    decreases |fields|
  {
    if fields == [] then []
    else if fields[0].1.None? || fields[0].0 in seen then NewNames(seen, fields[1..])
    else [fields[0].0] + NewNames(seen + {fields[0].0}, fields[1..])
  }

  /** Counting `a + c` is counting `a`, then `c`. */
  lemma {:induction false} CountAllAppend(b: Bucket, a: seq<(string, Option<string>)>, c: seq<(string, Option<string>)>)
    ensures CountAll(b, a + c) == CountAll(CountAll(b, a), c)
    decreases |c|
  {
    if c == [] {
      assert a + c == a;
    } else {
      assert (a + c)[..|a + c| - 1] == a + c[..|c| - 1];
      assert (a + c)[|a + c| - 1] == c[|c| - 1];
      CountAllAppend(b, a, c[..|c| - 1]);
    }
  }

  /** Counting a one-entry listing: one `increment_stat` when its value is
      present, nothing otherwise. */
  lemma CountOne(b: Bucket, field: (string, Option<string>))
    ensures CountAll(b, [field]) == if field.1.Some? then Incremented(b, field.0, field.1.value) else b
  {
    assert [field][..0] == [];
  }

  /** The field names of a bucket after counting a listing: the old names in
      their places, then the names the listing adds, in listing order. */
  lemma {:induction false} CountAllFieldOrder(b: Bucket, fields: seq<(string, Option<string>)>)
    ensures CountAll(b, fields).keys == b.keys + NewNames(b.entries.Keys, fields)
    decreases |fields|
  {
    if fields == [] {
      assert b.keys + [] == b.keys;
    } else {
      assert [fields[0]] + fields[1..] == fields;
      CountAllAppend(b, [fields[0]], fields[1..]);
      CountOne(b, fields[0]);
      var b' := CountAll(b, [fields[0]]);
      CountAllFieldOrder(b', fields[1..]);
      var (name, text) := fields[0];
      if text.Some? && name !in b.entries {
        calc {
          b.keys + NewNames(b.entries.Keys, fields);
          b.keys + ([name] + NewNames(b.entries.Keys + {name}, fields[1..]));
          (b.keys + [name]) + NewNames(b.entries.Keys + {name}, fields[1..]);
          b'.keys + NewNames(b'.entries.Keys, fields[1..]);
        }
      } else {
        assert b'.keys == b.keys && b'.entries.Keys == b.entries.Keys;
        assert NewNames(b.entries.Keys, fields) == NewNames(b.entries.Keys, fields[1..]);
      }
    }
  }

  lemma {:induction false} CountAllKeepsShape(b: Bucket, fields: seq<(string, Option<string>)>)
    ensures BucketWellFormed(b) ==> BucketWellFormed(CountAll(b, fields))
    ensures BucketExtends(b, CountAll(b, fields))
    decreases |fields|
  {
    if fields != [] {
      var init := fields[..|fields| - 1];
      var (name, text) := fields[|fields| - 1];
      CountAllKeepsShape(b, init);
      if text.Some? {
        IncrementedKeepsShape(CountAll(b, init), name, text.value);
        BucketExtendsTransitive(b, CountAll(b, init), CountAll(b, fields));
      }
    }
  }

  lemma BucketExtendsTransitive(a: Bucket, b: Bucket, c: Bucket)
    requires BucketExtends(a, b) && BucketExtends(b, c)
    ensures BucketExtends(a, c)
  {
    PrefixTransitive(a.keys, b.keys, c.keys);
    forall f | f in a.entries
      ensures f in c.entries && IsPrefix(a.entries[f].keys, c.entries[f].keys)
    {
      PrefixTransitive(a.entries[f].keys, b.entries[f].keys, c.entries[f].keys);
    }
  }

  lemma ExtendsTransitive(a: Table, b: Table, c: Table)
    requires Extends(a, b) && Extends(b, c)
    ensures Extends(a, c)
  {
    PrefixTransitive(a.keys, b.keys, c.keys);
    forall s | s in a.entries
      ensures s in c.entries && BucketExtends(a.entries[s], c.entries[s])
    {
      BucketExtendsTransitive(a.entries[s], b.entries[s], c.entries[s]);
    }
  }

  /** Folding one entry in: the subject's bucket exists afterwards even when no
      field was counted; each present allow-listed field's value under that
      subject is counted once more (so it is 1 when new); every other count, and
      every other subject's bucket, is as before. */
  lemma FoldEntryCounts(t: Table, e: Entry)
    ensures Subject(e) in FoldEntry(t, e).entries
    ensures forall f :: f in FoldEntry(t, e).entries[Subject(e)].entries <==>
              f in BucketOf(t, Subject(e)).entries || exists i | 0 <= i < |Listing(e)| :: Listing(e)[i].0 == f && Listing(e)[i].1.Some?
    ensures FoldEntry(t, e).entries[Subject(e)].keys ==
              BucketOf(t, Subject(e)).keys + NewNames(BucketOf(t, Subject(e)).entries.Keys, Listing(e))
    ensures FoldEntry(t, e).entries.Keys == t.entries.Keys + {Subject(e)}
    ensures forall s | s in t.entries && s != Subject(e) :: FoldEntry(t, e).entries[s] == t.entries[s]
    ensures forall s, f, v :: Count(FoldEntry(t, e), s, f, v) ==
              Count(t, s, f, v) + (if s == Subject(e) && (f, Some(v)) in Listing(e) then 1 else 0)
  {
    var subject := Subject(e);
    var t' := WithBucket(t, subject);
    ListingFacts(e);
    CountAllCounts(t'.entries[subject], Listing(e));
    CountAllFieldOrder(t'.entries[subject], Listing(e));
  }

  /** Folding one entry in keeps every level a proper ordered map with counts of
      at least 1. */
  lemma FoldEntryWellFormed(t: Table, e: Entry)
    requires WellFormed(t)
    ensures WellFormed(FoldEntry(t, e))
  {
    var subject := Subject(e);
    var b := WithBucket(t, subject).entries[subject];
    CountAllKeepsShape(b, Listing(e));
  }

  /** Folding one entry in appends new keys after the existing ones, at every
      level. */
  lemma FoldEntryExtends(t: Table, e: Entry)
    ensures Extends(t, FoldEntry(t, e))
  {
    var subject := Subject(e);
    var b := WithBucket(t, subject).entries[subject];
    CountAllKeepsShape(b, Listing(e));
  }

  /** Folding one entry in never adds a `hash` field. */
  lemma FoldEntryNoHash(t: Table, e: Entry)
    requires NoHashField(t)
    ensures NoHashField(FoldEntry(t, e))
  {
    var subject := Subject(e);
    var b := WithBucket(t, subject).entries[subject];
    ListingFacts(e);
    CountAllCounts(b, Listing(e));
  }

  /** Lines are folded strictly in order: folding `a + b` is folding `a`, then
      `b` into the result. */
  lemma {:induction false} FoldLinesAppend(t: Table, a: seq<string>, b: seq<string>)
    ensures FoldLines(t, a + b) == match FoldLines(t, a) case Err(err) => Err(err) case Ok(u) => FoldLines(u, b)
    decreases |a|
  {
    if a == [] {
      assert a + b == b;
    } else {
      assert (a + b)[0] == a[0] && (a + b)[1..] == a[1..] + b;
      if Parse(a[0]).Ok? {
        FoldLinesAppend(FoldEntry(t, Parse(a[0]).value), a[1..], b);
      }
    }
  }

  /** Folding any lines keeps the table well formed, keeps every key's place and
      never counts `hash`. */
  lemma {:induction false} FoldLinesKeepsShape(t: Table, lines: seq<string>)
    requires WellFormed(t) && NoHashField(t)
    ensures FoldLines(t, lines).Ok? ==>
      var u := FoldLines(t, lines).value;
      WellFormed(u) && NoHashField(u) && Extends(t, u)
    decreases |lines|
  {
    if lines != [] && Parse(lines[0]).Ok? {
      var e := Parse(lines[0]).value;
      FoldEntryWellFormed(t, e);
      FoldEntryExtends(t, e);
      FoldEntryNoHash(t, e);
      FoldLinesKeepsShape(FoldEntry(t, e), lines[1..]);
      if FoldLines(t, lines).Ok? {
        ExtendsTransitive(t, FoldEntry(t, e), FoldLines(t, lines).value);
      }
    }
  }

  /* ---------- The table, updated in place ---------- */

  class Stats {
    var table: Table

    ghost predicate Valid()
      reads this
    {
      WellFormed(table)
    }

    constructor ()
      ensures Valid() && table == Empty()
    {
      table := Empty();
    }

    /** Make sure `subject` has a bucket (a new one goes last). */
    method EnsureSubject(subject: string)
      requires Valid()
      modifies this
      ensures Valid() && table == WithBucket(old(table), subject)
    {
      if subject !in table.entries {
        table := Insert(table, subject, Empty());
      }
    }

    /** `increment_stat` on the bucket of `subject`. */
    method IncrementStat(subject: string, name: string, value: string)
      requires Valid() && subject in table.entries
      modifies this
      ensures Valid()
      ensures table == Insert(old(table), subject, Incremented(old(table).entries[subject], name, value))
    {
      var bucket := table.entries[subject];
      IncrementedKeepsShape(bucket, name, value);
      table := Insert(table, subject, Incremented(bucket, name, value));
    }

    /** The inner loop of the per-line body: count every present field of
        `listing` into the bucket of `subject`, in order. */
    method CountInto(subject: string, listing: seq<(string, Option<string>)>)
      requires Valid() && subject in table.entries
      modifies this
      ensures Valid()
      ensures table == Insert(old(table), subject, CountAll(old(table).entries[subject], listing))
    {
      ghost var start := table;
      InsertPresent(start, subject);
      for i := 0 to |listing|
        invariant Valid() && subject in table.entries
        invariant table == Insert(start, subject, CountAll(start.entries[subject], listing[..i]))
      {
        var (name, text) := listing[i];
        assert listing[..i + 1][..i] == listing[..i];
        if text.Some? {
          ghost var before := table.entries[subject];
          IncrementStat(subject, name, text.value);
          InsertOverrides(start, subject, before, Incremented(before, name, text.value));
        }
      }
      assert listing[..|listing|] == listing;
    }

    /** The body of the per-line loop, after the line is parsed. */
    method AddEntry(e: Entry)
      requires Valid()
      modifies this
      ensures Valid() && table == FoldEntry(old(table), e)
      ensures NoHashField(old(table)) ==> NoHashField(table)
    {
      var subject := Subject(e);
      EnsureSubject(subject);
      CountInto(subject, Listing(e));
      FoldEntryWellFormed(old(table), e);
      if NoHashField(old(table)) {
        FoldEntryNoHash(old(table), e);
      }
    }

    /** The per-line loop: parse each line and fold it in. A line that does not
        parse stops the run with its error. */
    method AddLines(lines: seq<string>) returns (failure: Option<ParseError>)
      requires Valid()
      modifies this
      ensures Valid()
      ensures failure.None? <==> FoldLines(old(table), lines).Ok?
      ensures failure.None? ==> table == FoldLines(old(table), lines).value
      ensures failure.Some? ==> FoldLines(old(table), lines) == Err(failure.value)
    {
      for i := 0 to |lines|
        invariant Valid()
        invariant FoldLines(table, lines[i..]) == FoldLines(old(table), lines)
      {
        assert lines[i..][1..] == lines[i + 1..];
        var parsed := ParseLine(lines[i]);
        match parsed {
          case Err(err) =>
            return Some(err);
          case Ok(e) =>
            AddEntry(e);
        }
      }
      assert lines[|lines|..] == [];
      return None;
    }
  }

  /** The aggregation of `main`: an empty table, then every line in order. */
  method Summarize(lines: seq<string>) returns (r: Result<Table, ParseError>)
    ensures r == FoldLines(Empty(), lines)
    ensures r.Ok? ==> WellFormed(r.value) && NoHashField(r.value)
  {
    var stats := new Stats();
    var failure := stats.AddLines(lines);
    FoldLinesKeepsShape(Empty(), lines);
    if failure.Some? {
      return Err(failure.value);
    }
    return Ok(stats.table);
  }
}
