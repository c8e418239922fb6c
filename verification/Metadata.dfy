/**
 Reading VM metadata from the vInfo sheet, pkg/duckdb_parser/rvtools_metadata.go: which columns
 hold metadata, the loop over the rows, and the final sorting of the collected cells.
 */
module Metadata {
  import opened Common
  import opened Strings

  // ----- blank cells

  /** unicode.IsSpace. */
  predicate IsSpace(c: char) {
    var n := c as int;
    || 0x09 <= n <= 0x0D || n == 0x20 || n == 0x85 || n == 0xA0 || n == 0x1680 || 0x2000 <= n <= 0x200A
    || n == 0x2028 || n == 0x2029 || n == 0x202F || n == 0x205F || n == 0x3000
  }

  /** strings.TrimSpace leaves nothing. */
  predicate Blank(s: string) {
    forall i :: 0 <= i < |s| ==> IsSpace(s[i])
  }

  type Row = seq<string>

  // ----- choosing the columns

  function CountOf(headers: seq<string>, name: string): nat {
    if headers == [] then 0 else CountOf(Front(headers), name) + if Last(headers) == name then 1 else 0
  }

  function LastIndex(headers: seq<string>, name: string): (i: int)
    ensures -1 <= i < |headers|
  {
    if headers == [] then -1
    else if Last(headers) == name then |headers| - 1
    else LastIndex(Front(headers), name)
  }

  function FirstIndex(headers: seq<string>, name: string): (i: int)
    ensures -1 <= i < |headers|
    ensures i >= 0 ==> headers[i] == name && forall j :: 0 <= j < i ==> headers[j] != name
    ensures i == -1 ==> name !in headers
  {
    if headers == [] then -1
    else
      var i := FirstIndex(Front(headers), name);
      assert headers == Front(headers) + [Last(headers)];
      if i >= 0 then i else if Last(headers) == name then |headers| - 1 else -1
  }

  ghost predicate OnlyAt(headers: seq<string>, name: string, i: int) {
    0 <= i < |headers| && forall j :: 0 <= j < |headers| ==> (headers[j] == name <==> j == i)
  }

  /** Counting one occurrence and keeping the last index finds the only occurrence. */
  lemma {:induction false} CountedOnce(headers: seq<string>, name: string)
    ensures CountOf(headers, name) == 0 <==> name !in headers
    ensures CountOf(headers, name) == 1 <==> exists i :: OnlyAt(headers, name, i)
    ensures CountOf(headers, name) == 1 ==> OnlyAt(headers, name, LastIndex(headers, name))
  {
    if headers != [] {
      CountedOnce(Front(headers), name);
      assert headers == Front(headers) + [Last(headers)];
      var last := LastIndex(headers, name);
      assert CountOf(headers, name) == 1 ==> OnlyAt(headers, name, last);
      if i :| OnlyAt(headers, name, i) {
        if i == |headers| - 1 {
          assert name !in Front(headers);
        } else {
          assert OnlyAt(Front(headers), name, i);
        }
      }
    }
  }

  datatype Columns = Columns(vmID: nat, metadata: seq<nat>)

  /** From left to right, none twice. */
  predicate InOrder(columns: seq<nat>) {
    forall i, j :: 0 <= i < j < |columns| ==> columns[i] < columns[j]
  }

  function Between(start: int, end: int): (s: seq<nat>)
    requires -1 <= start < end
    ensures forall i :: i in s <==> start < i < end
    ensures InOrder(s)
    decreases end - start
  {
    if start + 1 == end then []
    else
      var before := Between(start, end - 1);
      assert forall k :: 0 <= k < |before| ==> before[k] in before;
      before + [end - 1]
  }

  /** The columns strictly between two headers that occur once each, in that order. */
  ghost predicate Framed(headers: seq<string>, opening: string, closing: string, i: int) {
    exists from, to :: OnlyAt(headers, opening, from) && OnlyAt(headers, closing, to) && from < i < to
  }

  /** Tag columns count only if they lie behind the metadata columns. */
  ghost predicate IsMetadataColumn(headers: seq<string>, i: int) {
    || Framed(headers, "Annotation", "Datacenter", i)
    || (Framed(headers, "VI SDK API Version", "VI SDK Server", i)
        && exists end, tag :: OnlyAt(headers, "Datacenter", end) && OnlyAt(headers, "VI SDK API Version", tag) && end < tag)
  }

  ghost predicate Unambiguous(headers: seq<string>) {
    exists from, to :: OnlyAt(headers, "Annotation", from) && OnlyAt(headers, "Datacenter", to) && from < to
  }

  /** The last index and the number of occurrences of a header. */
  datatype Seen = Seen(at: int, count: nat)

  function SeenIn(headers: seq<string>, name: string): Seen {
    Seen(LastIndex(headers, name), CountOf(headers, name))
  }

  lemma SeenStep(headers: seq<string>, i: nat, name: string)
    requires i < |headers|
    ensures SeenIn(headers[..i + 1], name)
      == if headers[i] == name then Seen(i, SeenIn(headers[..i], name).count + 1) else SeenIn(headers[..i], name)
  {
    assert Front(headers[..i + 1]) == headers[..i] && Last(headers[..i + 1]) == headers[i];
  }

  method ScanHeaders(headers: seq<string>)
    returns (annotation: Seen, datacenter: Seen, apiVersion: Seen, sdkServer: Seen, vmID: int)
    ensures annotation == SeenIn(headers, "Annotation") && datacenter == SeenIn(headers, "Datacenter")
    ensures apiVersion == SeenIn(headers, "VI SDK API Version") && sdkServer == SeenIn(headers, "VI SDK Server")
    ensures vmID == FirstIndex(headers, "VM ID")
  {
    annotation, datacenter, apiVersion, sdkServer, vmID := Seen(-1, 0), Seen(-1, 0), Seen(-1, 0), Seen(-1, 0), -1;
    for i := 0 to |headers|
      invariant annotation == SeenIn(headers[..i], "Annotation") && datacenter == SeenIn(headers[..i], "Datacenter")
      invariant apiVersion == SeenIn(headers[..i], "VI SDK API Version")
      invariant sdkServer == SeenIn(headers[..i], "VI SDK Server")
      invariant vmID == FirstIndex(headers[..i], "VM ID")
    {
      SeenStep(headers, i, "Annotation");
      SeenStep(headers, i, "Datacenter");
      SeenStep(headers, i, "VI SDK API Version");
      SeenStep(headers, i, "VI SDK Server");
      assert Front(headers[..i + 1]) == headers[..i] && Last(headers[..i + 1]) == headers[i];
      match headers[i] {
        case "Annotation" => annotation := Seen(i, annotation.count + 1);
        case "Datacenter" => datacenter := Seen(i, datacenter.count + 1);
        case "VM ID" =>
          if vmID == -1 {
            vmID := i;
          }
        case "VI SDK API Version" => apiVersion := Seen(i, apiVersion.count + 1);
        case "VI SDK Server" => sdkServer := Seen(i, sdkServer.count + 1);
        case _ =>
      }
    }
    assert headers[..|headers|] == headers;
  }

  /** Two headers seen once each frame exactly the columns between their indices. */
  lemma FramedByIndex(headers: seq<string>, opening: string, closing: string, i: int)
    ensures Framed(headers, opening, closing, i) <==>
      && CountOf(headers, opening) == 1 && CountOf(headers, closing) == 1
      && LastIndex(headers, opening) < i < LastIndex(headers, closing)
  {
    CountedOnce(headers, opening);
    CountedOnce(headers, closing);
  }

  method ChooseColumns(headers: seq<string>) returns (r: Option<Columns>)
    ensures r.Some? <==> Unambiguous(headers) && "VM ID" in headers && exists i :: IsMetadataColumn(headers, i)
    ensures r.Some? ==> r.value.vmID == FirstIndex(headers, "VM ID")
    ensures r.Some? ==> InOrder(r.value.metadata)
    ensures r.Some? ==> forall i :: i in r.value.metadata <==> IsMetadataColumn(headers, i)
  {
    var start, end, tagStart, tagEnd, vmID := ScanHeaders(headers);
    CountedOnce(headers, "Annotation");
    CountedOnce(headers, "Datacenter");
    CountedOnce(headers, "VI SDK API Version");
    if start.count != 1 || end.count != 1 || end.at <= start.at {
      return None;
    }
    assert OnlyAt(headers, "Annotation", start.at) && OnlyAt(headers, "Datacenter", end.at);
    if vmID == -1 {
      return None;
    }
    var columns := Between(start.at, end.at);
    assert forall k :: 0 <= k < |columns| ==> columns[k] in columns;
    if tagStart.count == 1 && tagEnd.count == 1 && tagStart.at > end.at && tagEnd.at > tagStart.at {
      var tags := Between(tagStart.at, tagEnd.at);
      assert forall k :: 0 <= k < |tags| ==> tags[k] in tags;
      columns := columns + tags;
    }
    forall i
      ensures i in columns <==> IsMetadataColumn(headers, i)
    {
      FramedByIndex(headers, "Annotation", "Datacenter", i);
      FramedByIndex(headers, "VI SDK API Version", "VI SDK Server", i);
    }
    if |columns| == 0 {
      return None;
    }
    assert columns[0] in columns;
    return Some(Columns(vmID, columns));
  }

  // ----- sorting

  ghost predicate Sorted(s: seq<string>) {
    forall i, j :: 0 <= i < j < |s| ==> !Less(s[j], s[i])
  }

  ghost predicate StrictlyIncreasing(s: seq<string>) {
    forall i, j :: 0 <= i < j < |s| ==> Less(s[i], s[j])
  }

  function Insert(s: seq<string>, x: string): seq<string> {
    if s == [] then [x]
    else if Less(x, Last(s)) then Insert(Front(s), x) + [Last(s)]
    else s + [x]
  }

  /** slices.Sort. */
  function Sort(s: seq<string>): seq<string> {
    if s == [] then [] else Insert(Sort(Front(s)), Last(s))
  }

  /** slices.Compact: drops an element equal to its predecessor. */
  function Compact(s: seq<string>): seq<string> {
    if |s| <= 1 then s
    else if Last(s) == Last(Front(s)) then Compact(Front(s))
    else Compact(Front(s)) + [Last(s)]
  }

  lemma {:induction false} InsertSorted(s: seq<string>, x: string)
    requires Sorted(s)
    ensures Sorted(Insert(s, x))
    ensures forall y :: y in Insert(s, x) <==> y in s || y == x
  {
    if s != [] {
      var last := Last(s);
      assert s == Front(s) + [last];
      assert forall y :: y in Front(s) ==> !Less(last, y);
      if Less(x, last) {
        InsertSorted(Front(s), x);
        LessTotal(x, last);
        var front := Insert(Front(s), x);
        forall i | 0 <= i < |front|
          ensures !Less(last, front[i])
        {
          assert front[i] in front;
        }
      } else {
        LessTotal(last, last);
        forall y | y in s
          ensures !Less(x, y)
        {
          NotLessTransitive(y, last, x);
        }
      }
    }
  }

  lemma NotLessTransitive(a: string, b: string, c: string)
    requires !Less(b, a) && !Less(c, b)
    ensures !Less(c, a)
  {
    LessTotal(a, b);
    LessTotal(b, c);
    LessTotal(a, c);
    if Less(a, b) && Less(b, c) {
      LessTransitive(a, b, c);
    }
  }

  lemma {:induction false} SortSorted(s: seq<string>)
    ensures Sorted(Sort(s))
    ensures forall y :: y in Sort(s) <==> y in s
  {
    if s != [] {
      SortSorted(Front(s));
      InsertSorted(Sort(Front(s)), Last(s));
      assert s == Front(s) + [Last(s)];
    }
  }

  lemma {:induction false} CompactSorted(s: seq<string>)
    requires Sorted(s)
    ensures StrictlyIncreasing(Compact(s))
    ensures forall y :: y in Compact(s) <==> y in s
    ensures s != [] ==> Compact(s) != [] && Last(Compact(s)) == Last(s)
  {
    if |s| > 1 {
      CompactSorted(Front(s));
      assert s == Front(s) + [Last(s)];
      var kept, last := Compact(Front(s)), Last(s);
      if last != Last(Front(s)) {
        assert !Less(last, s[|s| - 2]);
        LessTotal(last, Last(kept));
        forall i | 0 <= i < |kept|
          ensures Less(kept[i], last)
        {
          if i < |kept| - 1 {
            LessTransitive(kept[i], Last(kept), last);
          }
        }
      }
    }
  }

  lemma NonEmptyHasMember(s: seq<string>)
    ensures s != [] ==> exists y :: y in s
  {
    if s != [] {
      assert s[0] in s;
    }
  }

  /** A strictly increasing list is determined by its elements. */
  lemma {:induction false} IncreasingUnique(a: seq<string>, b: seq<string>)
    requires StrictlyIncreasing(a) && StrictlyIncreasing(b)
    requires forall y :: y in a <==> y in b
    ensures a == b
  {
    if a == [] {
      NonEmptyHasMember(b);
    } else {
      assert a[|a| - 1] in a;
      assert b != [];
      assert b[|b| - 1] in b;
      SameGreatest(a, b);
      FrontMembers(a);
      FrontMembers(b);
      IncreasingUnique(Front(a), Front(b));
      assert a == Front(a) + [Last(a)] && b == Front(b) + [Last(b)];
    }
  }

  lemma FrontMembers(a: seq<string>)
    requires StrictlyIncreasing(a) && a != []
    ensures forall y :: y in Front(a) <==> y in a && y != Last(a)
  {
    assert a == Front(a) + [Last(a)];
    forall i | 0 <= i < |a| - 1
      ensures a[i] != Last(a)
    {
      LessTotal(a[i], Last(a));
    }
  }

  lemma SameGreatest(a: seq<string>, b: seq<string>)
    requires StrictlyIncreasing(a) && StrictlyIncreasing(b) && a != [] && b != []
    requires Last(a) in b && Last(b) in a
    ensures Last(a) == Last(b)
  {
    var i :| 0 <= i < |b| && b[i] == Last(a);
    var j :| 0 <= j < |a| && a[j] == Last(b);
    LessTotal(Last(a), Last(b));
  }

  // ----- the rows

  type Entry = map<string, seq<string>>

  /** The VM a row is about; rows with a blank or missing ID are skipped. */
  function RowID(row: Row, vmID: nat): Option<string> {
    if vmID >= |row| || Blank(row[vmID]) then None else Some(row[vmID])
  }

  predicate HasCell(row: Row, column: nat) {
    column < |row| && !Blank(row[column])
  }

  ghost predicate InRange(headers: seq<string>, columns: seq<nat>) {
    forall k :: 0 <= k < |columns| ==> columns[k] < |headers|
  }

  /** A row's non-blank cells under each header, in column order. */
  function Collected(headers: seq<string>, columns: seq<nat>, row: Row): (entry: Entry)
    requires InRange(headers, columns)
  {
    if columns == [] then map[]
    else
      var c, before := Last(columns), Collected(headers, Front(columns), row);
      if !HasCell(row, c) then before
      else before[headers[c] := (if headers[c] in before then before[headers[c]] else []) + [row[c]]]
  }

  ghost predicate IsValue(headers: seq<string>, columns: seq<nat>, row: Row, key: string, value: string) {
    exists c :: c in columns && c < |headers| && headers[c] == key && HasCell(row, c) && row[c] == value
  }

  lemma {:induction false} CollectedValues(headers: seq<string>, columns: seq<nat>, row: Row, key: string)
    requires InRange(headers, columns)
    ensures key in Collected(headers, columns, row) <==> exists value :: IsValue(headers, columns, row, key, value)
    ensures key in Collected(headers, columns, row) ==>
      forall value :: value in Collected(headers, columns, row)[key] <==> IsValue(headers, columns, row, key, value)
  {
    if columns != [] {
      var c := Last(columns);
      CollectedValues(headers, Front(columns), row, key);
      ValuesStep(headers, columns, row, key);
      if headers[c] == key && HasCell(row, c) {
        assert IsValue(headers, columns, row, key, row[c]);
      } else if value :| IsValue(headers, Front(columns), row, key, value) {
        assert IsValue(headers, columns, row, key, value);
      }
    }
  }

  lemma ValuesStep(headers: seq<string>, columns: seq<nat>, row: Row, key: string)
    requires columns != [] && Last(columns) < |headers|
    ensures forall value :: IsValue(headers, columns, row, key, value) <==>
      || IsValue(headers, Front(columns), row, key, value)
      || (headers[Last(columns)] == key && HasCell(row, Last(columns)) && row[Last(columns)] == value)
  {
    assert columns == Front(columns) + [Last(columns)];
  }

  function Occurrences(rows: seq<Row>, vmID: nat, id: string): nat {
    if rows == [] then 0
    else Occurrences(Front(rows), vmID, id) + if RowID(Last(rows), vmID) == Some(id) then 1 else 0
  }

  /** The row is the only one about this VM. */
  ghost predicate OnlyRow(rows: seq<Row>, vmID: nat, id: string, row: Row) {
    Occurrences(rows, vmID, id) == 1 && row in rows && RowID(row, vmID) == Some(id)
  }

  lemma {:induction false} OccursSomewhere(rows: seq<Row>, vmID: nat, id: string)
    ensures Occurrences(rows, vmID, id) > 0 <==> exists row :: row in rows && RowID(row, vmID) == Some(id)
  {
    if rows != [] {
      OccursSomewhere(Front(rows), vmID, id);
      assert rows == Front(rows) + [Last(rows)];
    }
  }

  /** What one more row does to the only-row relation. */
  lemma OnlyRowStep(rows: seq<Row>, vmID: nat, last: Row, id: string, row: Row)
    ensures OnlyRow(rows + [last], vmID, id, row) <==>
      if RowID(last, vmID) == Some(id) then Occurrences(rows, vmID, id) == 0 && row == last
      else OnlyRow(rows, vmID, id, row)
  {
    assert Front(rows + [last]) == rows;
    OccursSomewhere(rows, vmID, id);
  }

  /** The metadata before sorting: the cells of each VM with one row, if it has any. */
  ghost predicate IsCollected(headers: seq<string>, columns: Columns, rows: seq<Row>, metadata: map<string, Entry>)
    requires InRange(headers, columns.metadata)
  {
    && (forall id :: id in metadata ==> exists row :: OnlyRow(rows, columns.vmID, id, row))
    && (forall id, row :: OnlyRow(rows, columns.vmID, id, row) ==>
          var entry := Collected(headers, columns.metadata, row);
          (id in metadata <==> entry != map[]) && (id in metadata ==> metadata[id] == entry))
  }

  method CollectRow(headers: seq<string>, columns: seq<nat>, row: Row, id: string, metadata: map<string, Entry>)
    returns (r: map<string, Entry>)
    requires InRange(headers, columns)
    requires id !in metadata
    ensures r == var entry := Collected(headers, columns, row); if entry == map[] then metadata else metadata[id := entry]
  {
    r := metadata;
    for k := 0 to |columns|
      invariant r == var entry := Collected(headers, columns[..k], row);
        if entry == map[] then metadata else metadata[id := entry]
    {
      var i := columns[k];
      assert Front(columns[..k + 1]) == columns[..k];
      if i >= |row| || Blank(row[i]) {
        continue;
      }
      if id !in r {
        r := r[id := map[]];
      }
      var values := r[id];
      values := values[headers[i] := (if headers[i] in values then values[headers[i]] else []) + [row[i]]];
      assert headers[i] in values;
      r := r[id := values];
    }
    assert columns[..|columns|] == columns;
  }

  lemma SkippedRow(headers: seq<string>, columns: Columns, rows: seq<Row>, last: Row, metadata: map<string, Entry>)
    requires InRange(headers, columns.metadata) && IsCollected(headers, columns, rows, metadata)
    requires RowID(last, columns.vmID).None?
    ensures IsCollected(headers, columns, rows + [last], metadata)
  {
    forall id, row
      ensures OnlyRow(rows + [last], columns.vmID, id, row) <==> OnlyRow(rows, columns.vmID, id, row)
    {
      OnlyRowStep(rows, columns.vmID, last, id, row);
    }
  }

  lemma DuplicateRow(headers: seq<string>, columns: Columns, rows: seq<Row>, last: Row, id: string,
                     metadata: map<string, Entry>)
    requires InRange(headers, columns.metadata) && IsCollected(headers, columns, rows, metadata)
    requires RowID(last, columns.vmID) == Some(id) && Occurrences(rows, columns.vmID, id) > 0
    ensures IsCollected(headers, columns, rows + [last], metadata - {id})
  {
    forall k, row
      ensures OnlyRow(rows + [last], columns.vmID, k, row) <==> k != id && OnlyRow(rows, columns.vmID, k, row)
    {
      OnlyRowStep(rows, columns.vmID, last, k, row);
    }
  }

  lemma FirstRow(headers: seq<string>, columns: Columns, rows: seq<Row>, last: Row, id: string,
                 metadata: map<string, Entry>)
    requires InRange(headers, columns.metadata) && IsCollected(headers, columns, rows, metadata)
    requires RowID(last, columns.vmID) == Some(id) && Occurrences(rows, columns.vmID, id) == 0
    ensures id !in metadata
    ensures var entry := Collected(headers, columns.metadata, last);
      IsCollected(headers, columns, rows + [last], if entry == map[] then metadata else metadata[id := entry])
  {
    forall k, row
      ensures OnlyRow(rows + [last], columns.vmID, k, row)
        <==> if k == id then row == last else OnlyRow(rows, columns.vmID, k, row)
    {
      OnlyRowStep(rows, columns.vmID, last, k, row);
    }
    assert OnlyRow(rows + [last], columns.vmID, id, last);
    assert forall k, row :: OnlyRow(rows, columns.vmID, k, row) ==> OnlyRow(rows + [last], columns.vmID, k, row);
  }

  method CollectRows(headers: seq<string>, columns: Columns, rows: seq<Row>) returns (metadata: map<string, Entry>)
    requires InRange(headers, columns.metadata)
    ensures IsCollected(headers, columns, rows, metadata)
  {
    metadata := map[];
    var seen: set<string> := {};
    var vmID := columns.vmID;
    for i := 0 to |rows|
      invariant forall id :: id in seen <==> Occurrences(rows[..i], vmID, id) > 0
      invariant IsCollected(headers, columns, rows[..i], metadata)
    {
      hide IsCollected;
      var cells := rows[i];
      assert rows[..i + 1] == rows[..i] + [cells];
      assert Front(rows[..i + 1]) == rows[..i] && Last(rows[..i + 1]) == cells;
      if vmID >= |cells| || Blank(cells[vmID]) {
        SkippedRow(headers, columns, rows[..i], cells, metadata);
        continue;
      }
      var id := cells[vmID];
      if id in seen {
        DuplicateRow(headers, columns, rows[..i], cells, id, metadata);
        metadata := metadata - {id};
        continue;
      }
      FirstRow(headers, columns, rows[..i], cells, id, metadata);
      seen := seen + {id};
      metadata := CollectRow(headers, columns.metadata, cells, id, metadata);
    }
    assert rows[..|rows|] == rows;
  }

  // ----- the result

  /** Under this header the entry lists the row's non-blank cells, once each and in order. */
  ghost predicate ListsValues(headers: seq<string>, columns: seq<nat>, row: Row, entry: Entry, key: string) {
    && (key in entry <==> exists value :: IsValue(headers, columns, row, key, value))
    && (key in entry ==> StrictlyIncreasing(entry[key]))
    && (key in entry ==> forall value :: value in entry[key] <==> IsValue(headers, columns, row, key, value))
  }

  ghost predicate ListsRow(headers: seq<string>, columns: seq<nat>, row: Row, entry: Entry) {
    forall key :: ListsValues(headers, columns, row, entry, key)
  }

  ghost predicate HasValues(headers: seq<string>, columns: seq<nat>, row: Row) {
    exists key, value :: IsValue(headers, columns, row, key, value)
  }

  /** The metadata of a sheet, without mentioning the order of its rows. */
  ghost predicate IsMetadata(headers: seq<string>, columns: Columns, rows: seq<Row>, metadata: map<string, Entry>) {
    && (forall id :: id in metadata ==> exists row :: OnlyRow(rows, columns.vmID, id, row))
    && (forall id, row :: OnlyRow(rows, columns.vmID, id, row) ==>
          (id in metadata <==> HasValues(headers, columns.metadata, row)))
    && (forall id, row :: OnlyRow(rows, columns.vmID, id, row) && id in metadata ==>
          ListsRow(headers, columns.metadata, row, metadata[id]))
  }

  function SortedEntry(entry: Entry): Entry {
    map key | key in entry :: Compact(Sort(entry[key]))
  }

  method SortEntry(entry: Entry) returns (r: Entry)
    ensures r == SortedEntry(entry)
  {
    r := entry;
    var rest := entry.Keys;
    while rest != {}
      invariant rest <= entry.Keys == r.Keys
      invariant forall key :: key in r ==> r[key] == if key in rest then entry[key] else Compact(Sort(entry[key]))
      decreases rest
    {
      var key :| key in rest;
      r := r[key := Compact(Sort(r[key]))];
      rest := rest - {key};
    }
  }

  lemma SortedEntryLists(headers: seq<string>, columns: seq<nat>, row: Row)
    requires InRange(headers, columns)
    ensures ListsRow(headers, columns, row, SortedEntry(Collected(headers, columns, row)))
    ensures Collected(headers, columns, row) != map[] <==> HasValues(headers, columns, row)
  {
    var entry := Collected(headers, columns, row);
    forall key
      ensures ListsValues(headers, columns, row, SortedEntry(entry), key)
      ensures key in entry <==> exists value :: IsValue(headers, columns, row, key, value)
    {
      CollectedValues(headers, columns, row, key);
      if key in entry {
        SortSorted(entry[key]);
        CompactSorted(Sort(entry[key]));
      }
    }
    if HasValues(headers, columns, row) {
      var key, value :| IsValue(headers, columns, row, key, value);
      assert key in entry;
    }
    if entry != map[] {
      var key :| key in entry;
      var value :| IsValue(headers, columns, row, key, value);
    }
  }

  /** readRVToolsMetadata after the headers: collect row by row, then sort every list. */
  method ReadMetadata(headers: seq<string>, columns: Columns, rows: seq<Row>) returns (metadata: map<string, Entry>)
    requires InRange(headers, columns.metadata)
    ensures IsMetadata(headers, columns, rows, metadata)
  {
    var collected := CollectRows(headers, columns, rows);
    metadata := collected;
    var rest := collected.Keys;
    while rest != {}
      invariant rest <= collected.Keys == metadata.Keys
      invariant forall id :: id in metadata ==>
        metadata[id] == if id in rest then collected[id] else SortedEntry(collected[id])
      decreases rest
    {
      var id :| id in rest;
      var entry := SortEntry(metadata[id]);
      metadata := metadata[id := entry];
      rest := rest - {id};
    }
    forall id, row | OnlyRow(rows, columns.vmID, id, row)
      ensures id in metadata <==> HasValues(headers, columns.metadata, row)
      ensures id in metadata ==> ListsRow(headers, columns.metadata, row, metadata[id])
    {
      SortedEntryLists(headers, columns.metadata, row);
    }
  }

  /** The whole function: no metadata where the headers do not say which columns hold any. */
  method ReadRVToolsMetadata(headers: seq<string>, rows: seq<Row>) returns (r: Option<map<string, Entry>>)
    ensures r.Some? <==> Unambiguous(headers) && "VM ID" in headers && exists i :: IsMetadataColumn(headers, i)
    ensures r.Some? ==> exists columns: Columns ::
      && columns.vmID == FirstIndex(headers, "VM ID") && InOrder(columns.metadata)
      && (forall i :: i in columns.metadata <==> IsMetadataColumn(headers, i))
      && InRange(headers, columns.metadata) && IsMetadata(headers, columns, rows, r.value)
  {
    var columns := ChooseColumns(headers);
    if columns.None? {
      return None;
    }
    forall k | 0 <= k < |columns.value.metadata|
      ensures columns.value.metadata[k] < |headers|
    {
      assert IsMetadataColumn(headers, columns.value.metadata[k]);
    }
    var metadata := ReadMetadata(headers, columns.value, rows);
    return Some(metadata);
  }

  // ----- row order does not matter

  lemma {:induction false} OccurrencesSplit(a: seq<Row>, b: seq<Row>, vmID: nat, id: string)
    ensures Occurrences(a + b, vmID, id) == Occurrences(a, vmID, id) + Occurrences(b, vmID, id)
  {
    if b == [] {
      assert a + b == a;
    } else {
      OccurrencesSplit(a, Front(b), vmID, id);
      assert Front(a + b) == a + Front(b) && Last(a + b) == Last(b);
    }
  }

  lemma RemoveOne(rows: seq<Row>, k: nat, vmID: nat, id: string)
    requires k < |rows|
    ensures var rest := rows[..k] + rows[k + 1..];
      && multiset(rows) == multiset(rest) + multiset{rows[k]}
      && Occurrences(rows, vmID, id)
         == Occurrences(rest, vmID, id) + if RowID(rows[k], vmID) == Some(id) then 1 else 0
  {
    var before, x, after := rows[..k], rows[k], rows[k + 1..];
    assert rows == before + [x] + after;
    OccurrencesSplit(before, after, vmID, id);
    OccurrencesSplit(before, [x], vmID, id);
    OccurrencesSplit(before + [x], after, vmID, id);
    assert Front([x]) == [];
    assert Occurrences([], vmID, id) == 0;
  }

  lemma CancelOne<T>(p: multiset<T>, q: multiset<T>, x: T)
    requires p + multiset{x} == q + multiset{x}
    ensures p == q
  {
    assert p == p + multiset{x} - multiset{x};
    assert q == q + multiset{x} - multiset{x};
  }

  /** Permuting the rows changes no count. */
  lemma {:induction false} OccurrencesPermuted(a: seq<Row>, b: seq<Row>, vmID: nat, id: string)
    requires multiset(a) == multiset(b)
    ensures Occurrences(a, vmID, id) == Occurrences(b, vmID, id)
  {
    if a == [] {
      assert |multiset(b)| == 0;
    } else {
      var last := |a| - 1;
      assert a[..last] + a[last + 1..] == Front(a);
      RemoveOne(a, last, vmID, id);
      assert a[last] in multiset(b);
      var k :| 0 <= k < |b| && b[k] == a[last];
      RemoveOne(b, k, vmID, id);
      var rest := b[..k] + b[k + 1..];
      CancelOne(multiset(Front(a)), multiset(rest), a[last]);
      OccurrencesPermuted(Front(a), rest, vmID, id);
    }
  }

  lemma SameLists(headers: seq<string>, columns: seq<nat>, row: Row, a: Entry, b: Entry)
    requires ListsRow(headers, columns, row, a) && ListsRow(headers, columns, row, b)
    ensures a == b
  {
    forall key
      ensures key in a <==> key in b
      ensures key in a ==> a[key] == b[key]
    {
      assert ListsValues(headers, columns, row, a, key) && ListsValues(headers, columns, row, b, key);
      if key in a {
        IncreasingUnique(a[key], b[key]);
      }
    }
  }

  lemma OnlyRowPermuted(rows: seq<Row>, rows': seq<Row>, vmID: nat, id: string, row: Row)
    requires multiset(rows) == multiset(rows')
    ensures OnlyRow(rows, vmID, id, row) <==> OnlyRow(rows', vmID, id, row)
  {
    OccurrencesPermuted(rows, rows', vmID, id);
    assert row in rows <==> row in multiset(rows);
    assert row in rows' <==> row in multiset(rows');
  }

  /** Any order of the same rows gives the same metadata. */
  lemma RowOrderIrrelevant(headers: seq<string>, columns: Columns, rows: seq<Row>, rows': seq<Row>,
                           m: map<string, Entry>, m': map<string, Entry>)
    requires multiset(rows) == multiset(rows')
    requires IsMetadata(headers, columns, rows, m) && IsMetadata(headers, columns, rows', m')
    ensures m == m'
  {
    hide OnlyRow;
    forall id, row
      ensures OnlyRow(rows, columns.vmID, id, row) <==> OnlyRow(rows', columns.vmID, id, row)
    {
      OnlyRowPermuted(rows, rows', columns.vmID, id, row);
    }
    forall id
      ensures id in m <==> id in m'
      ensures id in m ==> m[id] == m'[id]
    {
      if row :| OnlyRow(rows, columns.vmID, id, row) {
        if id in m {
          SameLists(headers, columns.metadata, row, m[id], m'[id]);
        }
      }
    }
  }
}
