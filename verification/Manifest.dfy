/** The baseline manifest: sorted, NUL-separated, newline-delimited records, and its parser. */
module Manifest {
  import opened Octets
  import opened Wrappers

  /** Path and blob ref as UTF-8 bytes. */
  datatype Entry = Entry(path: Bytes, mode: nat, ref: Bytes)

  // ----- Order -----

  /** Buffer.compare(a, b) <= 0 */
  predicate Leq(a: Bytes, b: Bytes) {
    a == [] || (b != [] && (a[0] < b[0] || (a[0] == b[0] && Leq(a[1..], b[1..]))))
  }

  lemma {:induction false} LeqTotal(a: Bytes, b: Bytes)
    ensures Leq(a, b) || Leq(b, a)
    ensures Leq(a, b) && Leq(b, a) ==> a == b
  {
    if a != [] && b != [] && a[0] == b[0] {
      LeqTotal(a[1..], b[1..]);
      assert a == [a[0]] + a[1..] && b == [b[0]] + b[1..];
    }
  }

  lemma {:induction false} LeqTransitive(a: Bytes, b: Bytes, c: Bytes)
    requires Leq(a, b) && Leq(b, c)
    ensures Leq(a, c)
  {
    if a != [] && a[0] == b[0] && b[0] == c[0] {
      LeqTransitive(a[1..], b[1..], c[1..]);
    }
  }

  /** The order is bytewise: a prefix first, else the one with the smaller byte where they first differ. */
  lemma {:induction false} BytewiseOrder(a: Bytes, b: Bytes)
    ensures Leq(a, b) <==>
              a <= b || exists k: nat :: k < |a| && k < |b| && a[..k] == b[..k] && a[k] < b[k]
  {
    if a != [] && b != [] && a[0] == b[0] {
      var x, y := a[1..], b[1..];
      BytewiseOrder(x, y);
      assert a == [a[0]] + x && b == [b[0]] + y;
      assert forall k: nat | k < |x| && k < |y| :: a[..k + 1] == [a[0]] + x[..k] && b[..k + 1] == [b[0]] + y[..k];
      assert a <= b <==> x <= y;
      if k: nat :| k < |x| && k < |y| && x[..k] == y[..k] && x[k] < y[k] {
        assert a[..k + 1] == b[..k + 1] && a[k + 1] < b[k + 1];
      }
      if k: nat :| k < |a| && k < |b| && a[..k] == b[..k] && a[k] < b[k] {
        var j := k - 1;
        assert a[..j + 1] == [a[0]] + x[..j] && b[..j + 1] == [b[0]] + y[..j];
        assert x[..j] == a[..k][1..] && y[..j] == b[..k][1..];
        assert x[..j] == y[..j] && x[j] < y[j];
      }
    }
  }

  ghost predicate SortedByPath(es: seq<Entry>) {
    forall i, j | 0 <= i < j < |es| :: Leq(es[i].path, es[j].path)
  }

  function Insert(e: Entry, es: seq<Entry>): seq<Entry> {
    if es == [] || Leq(e.path, es[0].path) then [e] + es else [es[0]] + Insert(e, es[1..])
  }

  /** The stable sort by path the serializer starts with. */
  function SortByPath(es: seq<Entry>): seq<Entry> {
    if es == [] then [] else Insert(es[0], SortByPath(es[1..]))
  }

  lemma {:induction false} InsertHolds(e: Entry, es: seq<Entry>)
    ensures multiset(Insert(e, es)) == multiset{e} + multiset(es)
    ensures forall x | x in Insert(e, es) :: x == e || x in es
  {
    if es != [] {
      hide Leq;
      assert es == [es[0]] + es[1..];
      InsertHolds(e, es[1..]);
    }
  }

  lemma {:induction false} InsertSorts(e: Entry, es: seq<Entry>)
    requires SortedByPath(es)
    ensures SortedByPath(Insert(e, es))
  {
    if es != [] {
      LeqTotal(e.path, es[0].path);
      if Leq(e.path, es[0].path) {
        forall j | 0 <= j < |es| ensures Leq(e.path, es[j].path) {
          if j > 0 {
            LeqTransitive(e.path, es[0].path, es[j].path);
          }
        }
      } else {
        InsertSorts(e, es[1..]);
        InsertHolds(e, es[1..]);
        var rest := Insert(e, es[1..]);
        forall j | 0 <= j < |rest| ensures Leq(es[0].path, rest[j].path) {
          assert rest[j] in rest;
        }
      }
    }
  }

  lemma {:induction false} SortSorts(es: seq<Entry>)
    ensures SortedByPath(SortByPath(es)) && multiset(SortByPath(es)) == multiset(es)
  {
    if es != [] {
      SortSorts(es[1..]);
      InsertSorts(es[0], SortByPath(es[1..]));
      InsertHolds(es[0], SortByPath(es[1..]));
      assert es == [es[0]] + es[1..];
    }
  }

  predicate DistinctPaths(es: seq<Entry>) {
    forall i, j | 0 <= i < j < |es| :: es[i].path != es[j].path
  }

  lemma SameFirst(x: seq<Entry>, y: seq<Entry>)
    requires SortedByPath(x) && SortedByPath(y) && DistinctPaths(x) && multiset(x) == multiset(y) && x != [] && y != []
    ensures x[0] == y[0]
  {
    assert x[0] in multiset(x) && y[0] in multiset(y);
    var k :| 0 <= k < |y| && y[k] == x[0];
    var m :| 0 <= m < |x| && x[m] == y[0];
    assert Leq(y[0].path, x[0].path) by {
      if k == 0 {
        LeqTotal(x[0].path, x[0].path);
      }
    }
    assert m > 0 ==> Leq(x[0].path, x[m].path);
    LeqTotal(x[0].path, y[0].path);
    assert m == 0;
  }

  lemma WithoutFirst(x: seq<Entry>)
    requires x != []
    ensures x == [x[0]] + x[1..] && multiset(x[1..]) == multiset(x) - multiset{x[0]}
    ensures SortedByPath(x) ==> SortedByPath(x[1..])
    ensures DistinctPaths(x) ==> DistinctPaths(x[1..])
  {
  }

  /** With distinct paths there is only one sorted arrangement. */
  lemma {:induction false} SortedIsUnique(x: seq<Entry>, y: seq<Entry>)
    requires SortedByPath(x) && SortedByPath(y) && DistinctPaths(x) && multiset(x) == multiset(y)
    ensures x == y
  {
    assert |multiset(x)| == |x| && |multiset(y)| == |y|;
    if x != [] {
      SameFirst(x, y);
      WithoutFirst(x);
      WithoutFirst(y);
      SortedIsUnique(x[1..], y[1..]);
    }
  }

  // ----- Records -----

  function Digits(n: nat): (d: Bytes)
    ensures d != [] && forall i | 0 <= i < |d| :: 48 <= d[i] <= 57
  {
    if n < 10 then [(48 + n) as Byte] else Digits(n / 10) + [(48 + n % 10) as Byte]
  }

  /** The value of a run of digits. */
  function DigitsValue(d: Bytes): nat
    requires forall i | 0 <= i < |d| :: 48 <= d[i] <= 57
  {
    if d == [] then 0 else 10 * DigitsValue(d[..|d| - 1]) + (d[|d| - 1] as int - 48)
  }

  lemma {:induction false} DigitsRoundTrip(n: nat)
    ensures DigitsValue(Digits(n)) == n
  {
    if n >= 10 {
      DigitsRoundTrip(n / 10);
      assert Digits(n)[..|Digits(n)| - 1] == Digits(n / 10);
    }
  }

  /** Length of the longest all-digit prefix. */
  function DigitRun(d: Bytes): (n: nat)
    ensures n <= |d| && forall i | 0 <= i < n :: 48 <= d[i] <= 57
    ensures n < |d| ==> !(48 <= d[n] <= 57)
  {
    if d == [] || !(48 <= d[0] <= 57) then 0 else 1 + DigitRun(d[1..])
  }

  function SkipSpace(d: Bytes): Bytes {
    if d != [] && (9 <= d[0] <= 13 || d[0] == 32) then SkipSpace(d[1..]) else d
  }

  /** Number.parseInt(text, 10): leading white space, a sign, then digits; None for NaN. */
  function ParseInt(text: Bytes): Option<int> {
    var s := SkipSpace(text);
    var negative := s != [] && s[0] == 45;
    var body := if s != [] && (s[0] == 43 || s[0] == 45) then s[1..] else s;
    var n := DigitRun(body);
    if n == 0 then None
    else
      var value: int := DigitsValue(body[..n]);
      Some(if negative then -value else value)
  }

  lemma ParseIntOfDigits(n: nat)
    ensures ParseInt(Digits(n)) == Some(n)
  {
    hide Digits, DigitsValue;
    DigitsRoundTrip(n);
    AllDigitsRun(Digits(n));
  }

  /** A number is read after white space and a sign, up to the first byte that is no digit. */
  lemma {:induction false} ParseIntLeniently(space: Bytes, sign: Bytes, n: nat, rest: Bytes)
    requires forall i | 0 <= i < |space| :: space[i] == 32 || 9 <= space[i] <= 13
    requires sign == [] || sign == [43] || sign == [45]
    requires rest == [] || !(48 <= rest[0] <= 57)
    ensures ParseInt(space + (sign + (Digits(n) + rest))) == Some((if sign == [45] then -1 else 1) * n)
  {
    hide Digits, DigitsValue, DigitRun;
    var body := Digits(n) + rest;
    SpaceSkipped(space, sign + body);
    assert sign + body == body || (sign + body)[1..] == body;
    DigitsThenRest(Digits(n), rest);
    DigitsRoundTrip(n);
  }

  lemma {:induction false} SpaceSkipped(space: Bytes, text: Bytes)
    requires forall i | 0 <= i < |space| :: space[i] == 32 || 9 <= space[i] <= 13
    requires text != [] && text[0] != 32 && !(9 <= text[0] <= 13)
    ensures SkipSpace(space + text) == text
    decreases |space|
  {
    if space == [] {
      assert space + text == text;
    } else {
      assert (space + text)[1..] == space[1..] + text;
      SpaceSkipped(space[1..], text);
    }
  }

  lemma {:induction false} DigitsThenRest(d: Bytes, rest: Bytes)
    requires forall i | 0 <= i < |d| :: 48 <= d[i] <= 57
    requires rest == [] || !(48 <= rest[0] <= 57)
    ensures DigitRun(d + rest) == |d| && (d + rest)[..|d|] == d
    decreases |d|
  {
    if d == [] {
      assert d + rest == rest;
    } else {
      assert (d + rest)[1..] == d[1..] + rest;
      DigitsThenRest(d[1..], rest);
    }
  }

  lemma AllDigitsRun(d: Bytes)
    requires d != [] && forall i | 0 <= i < |d| :: 48 <= d[i] <= 57
    ensures DigitRun(d) == |d| && d[..|d|] == d && SkipSpace(d) == d
  {
  }

  predicate LegalField(field: Bytes) {
    NUL !in field && NEWLINE !in field
  }

  predicate Legal(e: Entry) {
    LegalField(e.path) && LegalField(e.ref)
  }

  function RecordOf(e: Entry): Bytes {
    e.path + [NUL] + Digits(e.mode) + [NUL] + e.ref
  }

  function RecordsOf(es: seq<Entry>): Bytes {
    if es == [] then [] else RecordOf(es[0]) + [NEWLINE] + RecordsOf(es[1..])
  }

  method SerializeSorted(sorted: seq<Entry>) returns (buf: Option<Bytes>)
    ensures buf.None? <==> exists i :: 0 <= i < |sorted| && !Legal(sorted[i])
    ensures buf.Some? ==> buf.value == RecordsOf(sorted)
  {
    var parts: Bytes := [];
    for i := 0 to |sorted|
      invariant RecordsOf(sorted) == parts + RecordsOf(sorted[i..])
      invariant forall k | 0 <= k < i :: Legal(sorted[k])
    {
      var e := sorted[i];
      if NUL in e.path || NEWLINE in e.path {
        assert !Legal(sorted[i]);
        return None;
      }
      if NUL in e.ref || NEWLINE in e.ref {
        assert !Legal(sorted[i]);
        return None;
      }
      parts := parts + RecordOf(e) + [NEWLINE];
    }
    assert parts + RecordsOf(sorted[|sorted|..]) == parts;
    return Some(parts);
  }

  /** `serializeManifest`; None when a path or ref holds a separator. */
  method Serialize(entries: seq<Entry>) returns (buf: Option<Bytes>)
    ensures buf.None? <==> exists e | e in entries :: !Legal(e)
    ensures buf.Some? ==> buf.value == RecordsOf(SortByPath(entries))
  {
    buf := SerializeSorted(SortByPath(entries));
    SortSorts(entries);
    SameMembers(SortByPath(entries), entries);
  }

  lemma SameMembers(x: seq<Entry>, y: seq<Entry>)
    requires multiset(x) == multiset(y)
    ensures forall e :: e in x <==> e in y
  {
    forall e ensures e in x <==> e in y {
      assert e in x <==> e in multiset(x);
      assert e in y <==> e in multiset(y);
    }
  }

  // ----- Parsing -----

  function IndexOf(s: Bytes, b: Byte): (k: nat)
    ensures k <= |s| && (k < |s| ==> s[k] == b) && b !in s[..k]
  {
    if s == [] || s[0] == b then 0 else 1 + IndexOf(s[1..], b)
  }

  datatype ParsedEntry = ParsedEntry(path: Bytes, mode: int, ref: Bytes)

  /** One record between newlines; None when a separator is missing or the mode is not a number. */
  function ParseRecord(record: Bytes): Option<ParsedEntry> {
    var sep1 := IndexOf(record, NUL);
    if sep1 == |record| then None
    else
      var rest := record[sep1 + 1..];
      var sep2 := IndexOf(rest, NUL);
      if sep2 == |rest| then None
      else
        var mode := ParseInt(rest[..sep2]);
        if mode.None? then None else Some(ParsedEntry(record[..sep1], mode.value, rest[sep2 + 1..]))
  }

  /** What a manifest says: its non-empty lines, each one a record; None when any is malformed. */
  function ParseAll(buf: Bytes): Option<seq<ParsedEntry>>
    decreases |buf|
  {
    if buf == [] then Some([])
    else
      var nl := IndexOf(buf, NEWLINE);
      var rest := ParseAll(if nl == |buf| then [] else buf[nl + 1..]);
      if nl == 0 then rest else Joined(ParseRecord(buf[..nl]), rest)
  }

  function Joined(e: Option<ParsedEntry>, rest: Option<seq<ParsedEntry>>): Option<seq<ParsedEntry>> {
    if e.None? || rest.None? then None else Some([e.value] + rest.value)
  }

  /** The checks `parseManifest` runs on one record. */
  method ParseOne(record: Bytes) returns (e: Option<ParsedEntry>)
    ensures e == ParseRecord(record)
  {
    var sep1 := IndexOf(record, NUL);
    if sep1 == |record| {
      return None;
    }
    var sep2 := IndexOf(record[sep1 + 1..], NUL);
    if sep1 + 1 + sep2 == |record| {
      return None;
    }
    var mode := ParseInt(record[sep1 + 1..][..sep2]);
    if mode.None? {
      return None;
    }
    return Some(ParsedEntry(record[..sep1], mode.value, record[sep1 + 1..][sep2 + 1..]));
  }

  ghost function Then(found: seq<ParsedEntry>, rest: Option<seq<ParsedEntry>>): Option<seq<ParsedEntry>> {
    if rest.None? then None else Some(found + rest.value)
  }

  lemma ThenJoined(found: seq<ParsedEntry>, e: Option<ParsedEntry>, rest: Option<seq<ParsedEntry>>)
    ensures Then(found, Joined(e, rest)) == if e.None? then None else Then(found + [e.value], rest)
  {
    if e.Some? && rest.Some? {
      assert found + ([e.value] + rest.value) == (found + [e.value]) + rest.value;
    }
  }

  /** What is left to parse after the first line of `here`. */
  lemma ParseAllStep(here: Bytes, line: Bytes, after: Bytes, found: seq<ParsedEntry>)
    requires here != [] && line == here[..IndexOf(here, NEWLINE)]
    requires after == if IndexOf(here, NEWLINE) == |here| then [] else here[IndexOf(here, NEWLINE) + 1..]
    ensures Then(found, ParseAll(here)) ==
            if line == [] then Then(found, ParseAll(after))
            else if ParseRecord(line).None? then None
            else Then(found + [ParseRecord(line).value], ParseAll(after))
  {
    ThenJoined(found, ParseRecord(line), ParseAll(after));
  }

  /** The same at a cursor into the buffer: either the record is malformed and so is the whole, or
      it joins `found` and parsing goes on past its newline. */
  lemma ParseAtCursor(buf: Bytes, cursor: nat, nl: nat, next: nat, found: seq<ParsedEntry>)
    requires cursor < |buf| && nl == cursor + IndexOf(buf[cursor..], NEWLINE)
    requires next == if nl == |buf| then nl else nl + 1
    ensures Then(found, ParseAll(buf[cursor..])) ==
            if nl == cursor then Then(found, ParseAll(buf[next..]))
            else if ParseRecord(buf[cursor..nl]).None? then None
            else Then(found + [ParseRecord(buf[cursor..nl]).value], ParseAll(buf[next..]))
  {
    ParseAllStep(buf[cursor..], buf[cursor..nl], buf[next..], found);
  }

  /** `parseManifest`: the byte-cursor loop; None when it throws. */
  method Parse(buf: Bytes) returns (entries: Option<seq<ParsedEntry>>)
    ensures entries == ParseAll(buf)
  {
    var found: seq<ParsedEntry> := [];
    var cursor := 0;
    assert buf[0..] == buf && (ParseAll(buf).Some? ==> [] + ParseAll(buf).value == ParseAll(buf).value);
    while cursor < |buf|
      invariant 0 <= cursor <= |buf|
      invariant ParseAll(buf) == Then(found, ParseAll(buf[cursor..]))
      decreases |buf| - cursor
    {
      var nl := cursor + IndexOf(buf[cursor..], NEWLINE);
      var next := if nl == |buf| then nl else nl + 1;
      ParseAtCursor(buf, cursor, nl, next, found);
      if nl != cursor {
        var e := ParseOne(buf[cursor..nl]);
        if e.None? {
          return None;
        }
        found := found + [e.value];
      }
      cursor := next;
    }
    assert found + [] == found;
    return Some(found);
  }

  // ----- Round trip -----

  function AsParsed(e: Entry): ParsedEntry {
    ParsedEntry(e.path, e.mode, e.ref)
  }

  function AllParsed(es: seq<Entry>): (r: seq<ParsedEntry>)
    ensures |r| == |es| && forall i | 0 <= i < |es| :: r[i] == AsParsed(es[i])
  {
    seq(|es|, i requires 0 <= i < |es| => AsParsed(es[i]))
  }

  /** The first separator of a string that starts with a separator-free field. */
  lemma {:induction false} IndexAfterField(field: Bytes, b: Byte, rest: Bytes)
    requires b !in field
    ensures IndexOf(field + [b] + rest, b) == |field|
    decreases |field|
  {
    if field == [] {
      assert ([b] + rest)[0] == b && [] + [b] + rest == [b] + rest;
    } else {
      IndexAfterField(field[1..], b, rest);
      assert (field + [b] + rest)[1..] == field[1..] + [b] + rest;
      assert (field + [b] + rest)[0] == field[0];
    }
  }

  lemma FieldsParse(path: Bytes, mode: Bytes, ref: Bytes)
    requires NUL !in path && NUL !in mode
    ensures ParseRecord(path + [NUL] + (mode + [NUL] + ref)) ==
            if ParseInt(mode).None? then None else Some(ParsedEntry(path, ParseInt(mode).value, ref))
  {
    var rest := mode + [NUL] + ref;
    var record := path + [NUL] + rest;
    IndexAfterField(path, NUL, rest);
    IndexAfterField(mode, NUL, ref);
    assert record[..|path|] == path && record[|path| + 1..] == rest;
    assert rest[..|mode|] == mode && rest[|mode| + 1..] == ref;
  }

  lemma RecordParses(e: Entry)
    requires Legal(e)
    ensures ParseRecord(RecordOf(e)) == Some(AsParsed(e))
    ensures RecordOf(e) != [] && NEWLINE !in RecordOf(e)
  {
    var digits := Digits(e.mode);
    assert NUL !in digits && NEWLINE !in digits;
    assert RecordOf(e) == e.path + [NUL] + (digits + [NUL] + e.ref);
    FieldsParse(e.path, digits, e.ref);
    ParseIntOfDigits(e.mode);
  }

  lemma FirstRecordParses(e: Entry, tail: Bytes)
    requires Legal(e)
    ensures ParseAll(RecordOf(e) + [NEWLINE] + tail) == Then([AsParsed(e)], ParseAll(tail))
  {
    RecordParses(e);
    var buf := RecordOf(e) + [NEWLINE] + tail;
    IndexAfterField(RecordOf(e), NEWLINE, tail);
    assert buf[..|RecordOf(e)|] == RecordOf(e) && buf[|RecordOf(e)| + 1..] == tail;
  }

  lemma {:induction false} RecordsParse(es: seq<Entry>)
    requires forall i | 0 <= i < |es| :: Legal(es[i])
    ensures ParseAll(RecordsOf(es)) == Some(AllParsed(es))
  {
    if es == [] {
      assert AllParsed(es) == [];
    } else {
      RecordsParse(es[1..]);
      OneMoreRecord(es);
    }
  }

  lemma OneMoreRecord(es: seq<Entry>)
    requires es != [] && Legal(es[0]) && ParseAll(RecordsOf(es[1..])) == Some(AllParsed(es[1..]))
    ensures ParseAll(RecordsOf(es)) == Some(AllParsed(es))
  {
    hide ParseAll, RecordOf, AsParsed, Legal;
    FirstRecordParses(es[0], RecordsOf(es[1..]));
    assert AllParsed(es) == [AsParsed(es[0])] + AllParsed(es[1..]);
  }

  /** Parsing what was serialised gives the entries back, sorted bytewise by path, for all legal entries. */
  lemma ManifestRoundTrip(entries: seq<Entry>)
    requires forall e | e in entries :: Legal(e)
    ensures ParseAll(RecordsOf(SortByPath(entries))) == Some(AllParsed(SortByPath(entries)))
    ensures SortedByPath(SortByPath(entries)) && multiset(SortByPath(entries)) == multiset(entries)
  {
    SortSorts(entries);
    var sorted := SortByPath(entries);
    forall i | 0 <= i < |sorted| ensures Legal(sorted[i]) {
      assert sorted[i] in multiset(sorted);
    }
    RecordsParse(sorted);
  }

  /** Two orderings of the same distinct-path entries serialise to the same bytes. */
  lemma ManifestIsCanonical(x: seq<Entry>, y: seq<Entry>)
    requires multiset(x) == multiset(y) && DistinctPaths(x)
    ensures RecordsOf(SortByPath(x)) == RecordsOf(SortByPath(y))
  {
    SortSorts(x);
    SortSorts(y);
    SortKeepsDistinct(x);
    SortedIsUnique(SortByPath(x), SortByPath(y));
  }

  lemma {:induction false} SortKeepsDistinct(es: seq<Entry>)
    requires DistinctPaths(es)
    ensures DistinctPaths(SortByPath(es))
  {
    if es != [] {
      SortKeepsDistinct(es[1..]);
      SortSorts(es[1..]);
      forall x | x in SortByPath(es[1..]) ensures x.path != es[0].path {
        assert x in multiset(SortByPath(es[1..]));
        var k :| 0 <= k < |es[1..]| && es[1..][k] == x;
      }
      InsertKeepsDistinct(es[0], SortByPath(es[1..]));
    }
  }

  lemma {:induction false} InsertKeepsDistinct(e: Entry, es: seq<Entry>)
    requires DistinctPaths(es) && forall x | x in es :: x.path != e.path
    ensures DistinctPaths(Insert(e, es))
    ensures forall x | x in Insert(e, es) :: x == e || x in es
  {
    if es != [] && !Leq(e.path, es[0].path) {
      InsertKeepsDistinct(e, es[1..]);
      var rest := Insert(e, es[1..]);
      forall j | 0 <= j < |rest| ensures rest[j].path != es[0].path {
        assert rest[j] in rest;
      }
    }
  }
}
