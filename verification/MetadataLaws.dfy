/**
 Which VMs and cells the metadata loop keeps, in terms of the sheet's cells
 (pkg/duckdb_parser/rvtools_metadata.go).
 */
module MetadataLaws {
  import opened Common
  import opened Strings
  import opened Metadata

  ghost predicate IsRowOf(rows: seq<Row>, vmID: nat, id: string, k: int) {
    0 <= k < |rows| && vmID < |rows[k]| && rows[k][vmID] == id
  }

  /** Row k has this VM ID and no other row does. */
  ghost predicate IsOnlyRowOf(rows: seq<Row>, vmID: nat, id: string, k: int) {
    IsRowOf(rows, vmID, id, k) && forall j :: IsRowOf(rows, vmID, id, j) ==> j == k
  }

  ghost predicate IsCell(headers: seq<string>, columns: seq<nat>, row: Row, key: string, value: string, c: nat) {
    c in columns && c < |headers| && c < |row| && headers[c] == key && row[c] == value && !Blank(value)
  }

  ghost predicate HasCellOf(headers: seq<string>, columns: seq<nat>, row: Row, key: string, value: string) {
    exists c: nat :: IsCell(headers, columns, row, key, value, c)
  }

  lemma {:induction false} OccurrencesExactly(rows: seq<Row>, vmID: nat, id: string)
    ensures Blank(id) ==> Occurrences(rows, vmID, id) == 0
    ensures !Blank(id) ==> (Occurrences(rows, vmID, id) == 0 <==> forall k :: !IsRowOf(rows, vmID, id, k))
    ensures !Blank(id) ==> (Occurrences(rows, vmID, id) == 1 <==> exists k :: IsOnlyRowOf(rows, vmID, id, k))
  {
    hide Blank;
    if rows != [] {
      var before, n := Front(rows), |rows| - 1;
      OccurrencesExactly(before, vmID, id);
      assert forall k :: IsRowOf(rows, vmID, id, k) <==> IsRowOf(before, vmID, id, k) || (k == n && IsRowOf(rows, vmID, id, n));
      if IsRowOf(rows, vmID, id, n) {
        if forall k :: !IsRowOf(before, vmID, id, k) {
          assert IsOnlyRowOf(rows, vmID, id, n);
        }
      } else {
        assert forall k :: IsOnlyRowOf(rows, vmID, id, k) <==> IsOnlyRowOf(before, vmID, id, k);
      }
    }
  }

  lemma OnlyRowExactly(rows: seq<Row>, vmID: nat, id: string, row: Row)
    ensures OnlyRow(rows, vmID, id, row) <==>
      !Blank(id) && exists k :: IsOnlyRowOf(rows, vmID, id, k) && rows[k] == row
  {
    OccurrencesExactly(rows, vmID, id);
    if OnlyRow(rows, vmID, id, row) {
      var i :| 0 <= i < |rows| && rows[i] == row;
      assert IsRowOf(rows, vmID, id, i);
      assert IsOnlyRowOf(rows, vmID, id, i);
    }
  }

  lemma CellsExactly(headers: seq<string>, columns: seq<nat>, row: Row, key: string, value: string)
    ensures IsValue(headers, columns, row, key, value) <==> HasCellOf(headers, columns, row, key, value)
  {
    if c: nat :| IsCell(headers, columns, row, key, value, c) {
      assert HasCell(row, c);
    }
    if IsValue(headers, columns, row, key, value) {
      var c :| c in columns && c < |headers| && headers[c] == key && HasCell(row, c) && row[c] == value;
      assert IsCell(headers, columns, row, key, value, c);
    }
  }

  /** A VM has metadata exactly if its ID is not blank and stands in one row only, and that row has a
      non-blank metadata cell. */
  lemma KeptExactly(headers: seq<string>, columns: Columns, rows: seq<Row>, metadata: map<string, Entry>, id: string)
    requires IsMetadata(headers, columns, rows, metadata)
    ensures id in metadata <==> !Blank(id) && exists k, key, value ::
      IsOnlyRowOf(rows, columns.vmID, id, k) && HasCellOf(headers, columns.metadata, rows[k], key, value)
  {
    if id in metadata {
      var row :| OnlyRow(rows, columns.vmID, id, row);
      OnlyRowExactly(rows, columns.vmID, id, row);
      var k :| IsOnlyRowOf(rows, columns.vmID, id, k) && rows[k] == row;
      var key, value :| IsValue(headers, columns.metadata, row, key, value);
      CellsExactly(headers, columns.metadata, row, key, value);
      assert HasCellOf(headers, columns.metadata, rows[k], key, value);
    }
    if !Blank(id) {
      if k, key, value :|
        IsOnlyRowOf(rows, columns.vmID, id, k) && HasCellOf(headers, columns.metadata, rows[k], key, value)
      {
        OnlyRowExactly(rows, columns.vmID, id, rows[k]);
        CellsExactly(headers, columns.metadata, rows[k], key, value);
        assert HasValues(headers, columns.metadata, rows[k]);
      }
    }
  }

  /** Its metadata are that row's non-blank cells, under their headers, each once and in lexicographic order. */
  lemma ListedExactly(headers: seq<string>, columns: Columns, rows: seq<Row>, metadata: map<string, Entry>, id: string,
                      k: int, key: string, value: string)
    requires IsMetadata(headers, columns, rows, metadata) && id in metadata && IsOnlyRowOf(rows, columns.vmID, id, k)
    ensures key in metadata[id] && value in metadata[id][key] <==>
      HasCellOf(headers, columns.metadata, rows[k], key, value)
    ensures key in metadata[id] ==> metadata[id][key] != [] && StrictlyIncreasing(metadata[id][key])
  {
    var row :| OnlyRow(rows, columns.vmID, id, row);
    OnlyRowExactly(rows, columns.vmID, id, row);
    assert rows[k] == row;
    assert ListsValues(headers, columns.metadata, row, metadata[id], key);
    CellsExactly(headers, columns.metadata, row, key, value);
    if key in metadata[id] {
      var some :| IsValue(headers, columns.metadata, row, key, some);
      assert some in metadata[id][key];
    }
  }

  /** Of the ASCII characters, blank are the space, tabulator, line feed, vertical tab, form feed and
      carriage return. */
  lemma AsciiBlanks(c: char)
    requires c as int < 128
    ensures Blank([c]) <==> c as int in {0x20, 0x09, 0x0A, 0x0B, 0x0C, 0x0D}
  {
    assert [c][0] == c;
  }

  lemma BlankTogether(a: string, b: string)
    ensures Blank(a + b) <==> Blank(a) && Blank(b)
    ensures Blank("")
  {
    assert forall i :: 0 <= i < |a| ==> (a + b)[i] == a[i];
    assert forall i :: 0 <= i < |b| ==> (a + b)[|a| + i] == b[i];
  }
}
