/** The lexicon table as an in-memory sequence of stored rows in insertion
    order, whose (id, word) pairs are unique because (id, word) is the
    table's primary key; and the bulk write with its bump-and-retry rule. */
module Store {
  import opened Wrappers
  import opened Definitions
  import opened Ids
  import opened Seqs

  /** Some row has the key (id, word). */
  predicate HasKey(rows: seq<StoredEntry>, id: int, word: string) {
    exists k :: 0 <= k < |rows| && rows[k].id == id && rows[k].word == word
  }

  /** The primary-key constraint. */
  predicate KeysUnique(rows: seq<StoredEntry>) {
    forall i, j :: 0 <= i < j < |rows| ==> rows[i].id != rows[j].id || rows[i].word != rows[j].word
  }

  /** get_lecsicon_entries_by_word: the rows whose word is `word`, in table order. */
  function RowsWithWord(rows: seq<StoredEntry>, word: string): (r: seq<StoredEntry>)
    ensures forall k :: 0 <= k < |r| ==> r[k].word == word && r[k] in rows
    ensures forall k :: 0 <= k < |rows| && rows[k].word == word ==> rows[k] in r
  {
    Filter((row: StoredEntry) => row.word == word, rows)
  }

  /** The selection holds no row more often than the table does. */
  lemma RowsWithWordSubMultiset(rows: seq<StoredEntry>, word: string)
    ensures multiset(RowsWithWord(rows, word)) <= multiset(rows)
  {
    FilterSubMultiset((row: StoredEntry) => row.word == word, rows);
  }

  /** The ids of some rows, in order. */
  function IdsOf(rows: seq<StoredEntry>): (ids: seq<int>)
    ensures |ids| == |rows| && forall k :: 0 <= k < |rows| ==> ids[k] == rows[k].id
  {
    seq(|rows|, k requires 0 <= k < |rows| => rows[k].id)
  }

  /** The table of a live connection. */
  class Table {
    var rows: seq<StoredEntry>

    predicate Valid()
      reads this
    {
      KeysUnique(rows)
    }

    constructor ()
      ensures rows == [] && Valid()
    {
      rows := [];
    }

    /** create_entry: the insert fails exactly when the key is taken. */
    method Insert(row: StoredEntry) returns (ok: bool)
      requires Valid()
      modifies this
      ensures Valid()
      ensures ok <==> !HasKey(old(rows), row.id, row.word)
      ensures rows == if ok then old(rows) + [row] else old(rows)
    {
      ok := true;
      var k := 0;
      while k < |rows|
        invariant 0 <= k <= |rows|
        invariant ok <==> !HasKey(rows[..k], row.id, row.word)
      {
        assert rows[..k + 1] == rows[..k] + [rows[k]];
        if rows[k].id == row.id && rows[k].word == row.word {
          ok := false;
        }
        k := k + 1;
      }
      assert rows[..k] == rows;
      if ok {
        rows := rows + [row];
      }
    }
  }

  /** Where a row lands: its own id when that key is free, otherwise the id
      bumped past every stored id of the same word; either way the key is free. */
  function Placed(rows: seq<StoredEntry>, e: StoredEntry): (p: StoredEntry)
    ensures p == e.(id := p.id)
    ensures p.id >= e.id
    ensures !HasKey(rows, p.id, p.word)
    ensures !HasKey(rows, e.id, e.word) ==> p == e
    ensures HasKey(rows, e.id, e.word) ==>
      p.id == MaxAbove(e.id, IdsOf(RowsWithWord(rows, e.word)))
  {
    if !HasKey(rows, e.id, e.word) then e
    else
      var same := RowsWithWord(rows, e.word);
      var id := MaxAbove(e.id, IdsOf(same));
      assert forall k :: 0 <= k < |rows| && rows[k].word == e.word ==> rows[k].id < id by {
        forall k | 0 <= k < |rows| && rows[k].word == e.word ensures rows[k].id < id {
          var j :| 0 <= j < |same| && same[j] == rows[k];
          assert IdsOf(same)[j] == rows[k].id;
        }
      }
      e.(id := id)
  }

  /** The table after saving `data` in order. */
  function SaveAll(rows: seq<StoredEntry>, data: seq<StoredEntry>): seq<StoredEntry>
    decreases |data|
  {
    if data == [] then rows
    else
      var before := SaveAll(rows, data[..|data| - 1]);
      before + [Placed(before, data[|data| - 1])]
  }

  /** Adding a placed row keeps the primary key unique. */
  lemma PlacedKeepsUnique(rows: seq<StoredEntry>, e: StoredEntry)
    requires KeysUnique(rows)
    ensures KeysUnique(rows + [Placed(rows, e)])
  {
    var p := Placed(rows, e);
    var rows' := rows + [p];
    forall i, j | 0 <= i < j < |rows'| ensures rows'[i].id != rows'[j].id || rows'[i].word != rows'[j].word {
      if j == |rows| {
        assert rows'[i] == rows[i];
      }
    }
  }

  /** Saving never breaks the primary key (so the panic never fires). */
  lemma {:induction false} SaveAllUnique(rows: seq<StoredEntry>, data: seq<StoredEntry>)
    requires KeysUnique(rows)
    ensures KeysUnique(SaveAll(rows, data))
    decreases |data|
  {
    if data != [] {
      SaveAllUnique(rows, data[..|data| - 1]);
      PlacedKeepsUnique(SaveAll(rows, data[..|data| - 1]), data[|data| - 1]);
    }
  }

  /** Saving keeps the old rows and adds exactly one row per entry. */
  lemma {:induction false} SaveAllGrows(rows: seq<StoredEntry>, data: seq<StoredEntry>)
    ensures |SaveAll(rows, data)| == |rows| + |data|
    ensures SaveAll(rows, data)[..|rows|] == rows
    decreases |data|
  {
    if data != [] {
      var before := SaveAll(rows, data[..|data| - 1]);
      SaveAllGrows(rows, data[..|data| - 1]);
      assert (before + [Placed(before, data[|data| - 1])])[..|rows|] == before[..|rows|];
    }
  }

  /** The row for the k-th entry is that entry placed against the table the
      first k entries left. */
  lemma {:induction false} SaveAllEntry(rows: seq<StoredEntry>, data: seq<StoredEntry>, k: nat)
    requires k < |data|
    ensures |rows| + k < |SaveAll(rows, data)|
    ensures SaveAll(rows, data)[|rows| + k] == Placed(SaveAll(rows, data[..k]), data[k])
    decreases |data|
  {
    var front := data[..|data| - 1];
    SaveAllGrows(rows, front);
    SaveAllGrows(rows, data);
    if k < |data| - 1 {
      SaveAllEntry(rows, front, k);
      assert front[..k] == data[..k];
    } else {
      assert front == data[..k];
    }
  }

  /** Each entry of `data` lands exactly once, with all its fields except
      possibly the id; the id only grows, and stays put unless the key was taken. */
  lemma SaveAllLands(rows: seq<StoredEntry>, data: seq<StoredEntry>, k: nat)
    requires k < |data|
    ensures |rows| + k < |SaveAll(rows, data)|
    ensures var landed := SaveAll(rows, data)[|rows| + k];
      && landed == data[k].(id := landed.id)
      && landed.id >= data[k].id
      && (!HasKey(SaveAll(rows, data[..k]), data[k].id, data[k].word) ==> landed == data[k])
  {
    SaveAllEntry(rows, data, k);
  }

  /** Saving one row into an empty table stores it as it is. */
  lemma SaveOne(r: StoredEntry)
    ensures SaveAll([], [r]) == [r]
  {
    assert [r][..0] == [];
    assert !HasKey([], r.id, r.word);
  }

  /** A row placed against a table holding only itself gets the next id. */
  lemma PlacedOverItself(r: StoredEntry)
    ensures Placed([r], r) == r.(id := r.id + 1)
  {
    assert [r][0].id == r.id && [r][0].word == r.word;
    assert RowsWithWord([r], r.word) == [r] by {
      assert [r][..0] == [];
    }
    assert IdsOf([r]) == [r.id];
    assert [r.id][..0] == [];
    assert MaxAbove(r.id, [r.id]) == r.id + 1;
  }

  /** Saving the same row twice: the second copy is bumped to the next id. */
  lemma CollisionScenario(r: StoredEntry)
    ensures SaveAll([], [r, r]) == [r, r.(id := r.id + 1)]
  {
    assert [r, r][..1] == [r];
    SaveOne(r);
    PlacedOverItself(r);
  }

  /** The retry's id: the walk over the stored rows of the same word. */
  method BumpId(id: int, same: seq<StoredEntry>) returns (r: int)
    ensures r == MaxAbove(id, IdsOf(same))
  {
    r := id;
    var i := 0;
    while i < |same|
      invariant 0 <= i <= |same|
      invariant r == MaxAbove(id, IdsOf(same[..i]))
    {
      assert IdsOf(same[..i + 1]) == IdsOf(same[..i]) + [same[i].id];
      MaxAboveSnoc(id, IdsOf(same[..i]), same[i].id);
      if same[i].id >= r {
        r := same[i].id + 1;
      }
      i := i + 1;
    }
    assert same[..i] == same;
  }

  /** The body of the save loop: insert; on failure bump the id past every
      stored id of the same word and insert again, which cannot fail. */
  method SaveEntry(entry: StoredEntry, db: Table)
    requires db.Valid()
    modifies db
    ensures db.Valid()
    ensures db.rows == old(db.rows) + [Placed(old(db.rows), entry)]
  {
    var ok := db.Insert(entry);
    if !ok {
      var same := RowsWithWord(db.rows, entry.word);
      var id := BumpId(entry.id, same);
      var retried := entry.(id := id);
      assert retried == Placed(db.rows, entry);
      var again := db.Insert(retried);
      assert again;
    }
  }

  /** save_data_to_sqlite_db: without a connection nothing is saved and the
      result is false; otherwise each entry is inserted, on a failed insert
      its id is bumped and the insert retried, and the retry cannot fail. */
  method SaveData(data: seq<StoredEntry>, db: Table?) returns (saved: bool)
    requires db != null ==> db.Valid()
    modifies db
    ensures saved <==> db != null
    ensures db != null ==> db.Valid() && db.rows == SaveAll(old(db.rows), data)
  {
    if db == null {
      return false;
    }
    var i := 0;
    while i < |data|
      invariant 0 <= i <= |data|
      invariant db.Valid()
      invariant db.rows == SaveAll(old(db.rows), data[..i])
    {
      assert data[..i + 1][..i] == data[..i];
      SaveEntry(data[i], db);
      i := i + 1;
    }
    assert data[..i] == data;
    saved := true;
  }
}
