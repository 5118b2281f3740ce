/**
 * The ledger file `annotations.csv`: a header row, then one (folder name, category) row
 * per entry. Updating it reads the rows into a dict keyed by folder name, sets one
 * key and writes the dict back, so the rows follow the dict's insertion order.
 */
module Ledger {
  import opened Wrappers

  /** One data row of the ledger. */
  datatype Row = Row(name: string, category: string)

  /** The folder names the ledger lists (the set built from the first column). */
  function Keys(rows: seq<Row>): set<string> {
    set r | r in rows :: r.name
  }

  /** No folder name appears on two rows. */
  predicate UniqueKeys(rows: seq<Row>) {
    forall i, j :: 0 <= i < j < |rows| ==> rows[i].name != rows[j].name
  }

  /** The category of the first row for `name`, if any. */
  function Lookup(rows: seq<Row>, name: string): Option<string> {
    if rows == [] then None
    else if rows[0].name == name then Some(rows[0].category)
    else Lookup(rows[1..], name)
  }

  /** The category of the last row for `name`, if any: the value a dict built by
      assigning the rows in order ends up holding for that key. */
  function LastLookup(rows: seq<Row>, name: string): Option<string> {
    if rows == [] then None
    else if rows[|rows| - 1].name == name then Some(rows[|rows| - 1].category)
    else LastLookup(rows[..|rows| - 1], name)
  }

  /** Dict assignment `data[name] = category` on the rows in insertion order: an existing
      key keeps its position and takes the new category, a new key goes last. */
  function Upsert(rows: seq<Row>, name: string, category: string): (r: seq<Row>)
    ensures Keys(r) == Keys(rows) + {name}
    ensures UniqueKeys(rows) ==> UniqueKeys(r)
  {
    if rows == [] then [Row(name, category)]
    else if rows[0].name == name then [Row(name, category)] + rows[1..]
    else
      var tail := Upsert(rows[1..], name, category);
      assert Keys(rows) == {rows[0].name} + Keys(rows[1..]) by {
        assert rows == [rows[0]] + rows[1..];
      }
      assert Keys([rows[0]] + tail) == {rows[0].name} + Keys(tail);
      [rows[0]] + tail
  }

  /** The dict comprehension `{row[0]: row[1] for row in reader}`: the rows are
      assigned one after the other, so a repeated name keeps the position of its
      first row and the category of its last. */
  function FromRows(rows: seq<Row>): (r: seq<Row>)
    ensures UniqueKeys(r)
    ensures Keys(r) == Keys(rows)
    ensures forall n :: Lookup(r, n) == LastLookup(rows, n)
  {
    if rows == [] then []
    else
      var init, last := rows[..|rows| - 1], rows[|rows| - 1];
      assert rows == init + [last];
      assert Keys(rows) == Keys(init) + {last.name};
      var r := Upsert(FromRows(init), last.name, last.category);
      assert forall n :: Lookup(r, n) == LastLookup(rows, n) by {
        forall n ensures Lookup(r, n) == LastLookup(rows, n) {
          if n == last.name {
            UpsertBinds(FromRows(init), n, last.category);
          } else {
            UpsertKeepsOthers(FromRows(init), last.name, last.category, n);
          }
        }
      }
      r
  }

  /** `update_csv`: the rows written back after reading the file and setting `name`.
      Whatever the file held, each name is then on exactly one row, the names are the
      old ones plus `name`, `name` maps to `category`, and every other name keeps the
      category of its last row in the file. */
  function UpdateLedger(rows: seq<Row>, name: string, category: string): (r: seq<Row>)
    ensures UniqueKeys(r)
    ensures Keys(r) == Keys(rows) + {name}
    ensures Lookup(r, name) == Some(category)
    ensures forall other :: other != name ==> Lookup(r, other) == LastLookup(rows, other)
  {
    UpsertBinds(FromRows(rows), name, category);
    assert forall other :: other != name ==> Lookup(Upsert(FromRows(rows), name, category), other) == LastLookup(rows, other) by {
      forall other | other != name
        ensures Lookup(Upsert(FromRows(rows), name, category), other) == LastLookup(rows, other)
      {
        UpsertKeepsOthers(FromRows(rows), name, category, other);
      }
    }
    Upsert(FromRows(rows), name, category)
  }

  /** A row whose name the file already listed keeps the rebuilt dict's order: the
      name stays at its first position and takes the later category. */
  lemma FromRowsRepeat(rows: seq<Row>, row: Row)
    requires row.name in Keys(rows)
    ensures |FromRows(rows + [row])| == |FromRows(rows)|
    ensures forall i :: 0 <= i < |FromRows(rows)| ==>
      FromRows(rows + [row])[i] == (if FromRows(rows)[i].name == row.name then row else FromRows(rows)[i])
  {
    assert (rows + [row])[..|rows|] == rows;
    UpsertExistingInPlace(FromRows(rows), row.name, row.category);
  }

  /** A row with a name the file did not list yet is appended to the rebuilt dict. */
  lemma FromRowsFresh(rows: seq<Row>, row: Row)
    requires row.name !in Keys(rows)
    ensures FromRows(rows + [row]) == FromRows(rows) + [row]
  {
    assert (rows + [row])[..|rows|] == rows;
    UpsertNewAppends(FromRows(rows), row.name, row.category);
  }

  /** A name is a key exactly when a lookup finds it. */
  lemma {:induction false} KeysMatchLookup(rows: seq<Row>, name: string)
    ensures name in Keys(rows) <==> Lookup(rows, name).Some?
  {
    if rows != [] {
      assert rows == [rows[0]] + rows[1..];
      assert Keys(rows) == {rows[0].name} + Keys(rows[1..]);
      KeysMatchLookup(rows[1..], name);
    }
  }

  /** After an upsert the name maps to the new category. */
  lemma {:induction false} UpsertBinds(rows: seq<Row>, name: string, category: string)
    ensures Lookup(Upsert(rows, name, category), name) == Some(category)
  {
    if rows != [] && rows[0].name != name {
      UpsertBinds(rows[1..], name, category);
    }
  }

  /** An upsert leaves every other name's category as it was. */
  lemma {:induction false} UpsertKeepsOthers(rows: seq<Row>, name: string, category: string, other: string)
    requires other != name
    ensures Lookup(Upsert(rows, name, category), other) == Lookup(rows, other)
  {
    if rows != [] && rows[0].name != name {
      UpsertKeepsOthers(rows[1..], name, category, other);
    }
  }

  /** A name already present keeps its row: the rows stay where they were and only
      that name's category changes. */
  lemma {:induction false} UpsertExistingInPlace(rows: seq<Row>, name: string, category: string)
    requires UniqueKeys(rows)
    requires name in Keys(rows)
    ensures |Upsert(rows, name, category)| == |rows|
    ensures forall i :: 0 <= i < |rows| ==>
      Upsert(rows, name, category)[i] == (if rows[i].name == name then Row(name, category) else rows[i])
  {
    assert rows == [rows[0]] + rows[1..];
    assert Keys(rows) == {rows[0].name} + Keys(rows[1..]);
    if rows[0].name == name {
      forall i | 1 <= i < |rows| ensures rows[i].name != name {
        assert rows[0].name != rows[i].name;
      }
    } else {
      UpsertExistingInPlace(rows[1..], name, category);
    }
  }

  /** A name not yet present is appended as the last row. */
  lemma {:induction false} UpsertNewAppends(rows: seq<Row>, name: string, category: string)
    requires name !in Keys(rows)
    ensures Upsert(rows, name, category) == rows + [Row(name, category)]
  {
    if rows != [] {
      assert rows == [rows[0]] + rows[1..];
      assert Keys(rows) == {rows[0].name} + Keys(rows[1..]);
      UpsertNewAppends(rows[1..], name, category);
    }
  }

  /** Two upserts of the same name leave one row for it, with the later category. */
  lemma {:induction false} UpsertTwice(rows: seq<Row>, name: string, first: string, second: string)
    ensures Upsert(Upsert(rows, name, first), name, second) == Upsert(rows, name, second)
  {
    if rows != [] && rows[0].name != name {
      UpsertTwice(rows[1..], name, first, second);
    }
  }

  /** Reading a ledger whose names are unique gives back the same rows in the same
      order: rewriting the file does not reorder it. */
  lemma {:induction false} FromRowsKeepsUnique(rows: seq<Row>)
    requires UniqueKeys(rows)
    ensures FromRows(rows) == rows
  {
    if rows != [] {
      var init, last := rows[..|rows| - 1], rows[|rows| - 1];
      assert rows == init + [last];
      FromRowsKeepsUnique(init);
      assert last.name !in Keys(init);
      UpsertNewAppends(init, last.name, last.category);
    }
  }

  /** `update_csv` on a ledger it wrote itself (unique names): every other entry is
      unchanged, existing rows keep their order, and a new name is appended last. */
  lemma UpdateLedgerOnUnique(rows: seq<Row>, name: string, category: string)
    requires UniqueKeys(rows)
    ensures forall other :: other != name ==>
      Lookup(UpdateLedger(rows, name, category), other) == Lookup(rows, other)
    ensures name !in Keys(rows) ==> UpdateLedger(rows, name, category) == rows + [Row(name, category)]
    ensures name in Keys(rows) ==> |UpdateLedger(rows, name, category)| == |rows|
    ensures name in Keys(rows) ==> forall i :: 0 <= i < |rows| ==>
      UpdateLedger(rows, name, category)[i] == (if rows[i].name == name then Row(name, category) else rows[i])
  {
    FromRowsKeepsUnique(rows);
    forall other | other != name
      ensures Lookup(UpdateLedger(rows, name, category), other) == Lookup(rows, other)
    {
      UpsertKeepsOthers(rows, name, category, other);
    }
    if name in Keys(rows) {
      UpsertExistingInPlace(rows, name, category);
    } else {
      UpsertNewAppends(rows, name, category);
    }
  }

  /** Calling `update_csv` twice for the same folder leaves one entry for it, with the
      later category. */
  lemma UpdateLedgerTwice(rows: seq<Row>, name: string, first: string, second: string)
    ensures UpdateLedger(UpdateLedger(rows, name, first), name, second) == UpdateLedger(rows, name, second)
  {
    var once := UpdateLedger(rows, name, first);
    FromRowsKeepsUnique(once);
    UpsertTwice(FromRows(rows), name, first, second);
  }
}
