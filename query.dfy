/** get_related_entries: the stored forms of an entry's lemma. */
module Query {
  import opened Wrappers
  import opened Definitions
  import opened Codec
  import opened Seqs
  import opened Store

  /** SQL `=` against a bound parameter: a NULL on either side matches nothing. */
  predicate SqlEq<T(==)>(stored: Option<T>, param: Option<T>) {
    stored.Some? && stored == param
  }

  /** A verb without a verb form: its forms must also agree on mood, tense,
      number and person. */
  predicate FiniteVerb(entry: Entry) {
    entry.tag == Some(Verb) && entry.verbForm.None?
  }

  /** The filters of the query, against the entry's stored encoding `q`: the
      row's lemma is the entry's word and its tag the entry's tag, plus, for a
      finite verb, mood, tense, number and person. */
  predicate Related(row: StoredEntry, q: StoredEntry, finite: bool) {
    && SqlEq(row.lemmaForm, Some(q.word))
    && SqlEq(row.tag, q.tag)
    && (finite ==>
          && SqlEq(row.mood, q.mood) && SqlEq(row.tense, q.tense)
          && SqlEq(row.number, q.number) && SqlEq(row.person, q.person))
  }

  /** The rows the query loads, in table order. */
  function RelatedRows(rows: seq<StoredEntry>, entry: Entry): seq<StoredEntry> {
    Filter((row: StoredEntry) => Related(row, ToStorage(entry), FiniteVerb(entry)), rows)
  }

  /** What get_related_entries returns: a decoding panic as an error, None
      when the query matched nothing, otherwise the decoded matches with every
      entry equal to the query entry dropped. */
  function RelatedEntries(rows: seq<StoredEntry>, entry: Entry): Result<Option<seq<Entry>>, DecodeError> {
    var decoded :- DecodeAll(RelatedRows(rows, entry));
    if decoded == [] then Ok(None) else Ok(Some(Filter((e: Entry) => e != entry, decoded)))
  }

  /** `entries.retain(|e| *e != entry)`. */
  method RetainOthers(entries: seq<Entry>, entry: Entry) returns (kept: seq<Entry>)
    ensures kept == Filter((e: Entry) => e != entry, entries)
  {
    kept := [];
    var i := 0;
    while i < |entries|
      invariant 0 <= i <= |entries|
      invariant kept == Filter((e: Entry) => e != entry, entries[..i])
    {
      FilterSnoc((e: Entry) => e != entry, entries, i);
      if entries[i] != entry {
        kept := kept + [entries[i]];
      }
      i := i + 1;
    }
    assert entries[..i] == entries;
  }

  /** get_related_entries on a live table. */
  method GetRelatedEntries(entry: Entry, db: Table) returns (r: Result<Option<seq<Entry>>, DecodeError>)
    ensures r == RelatedEntries(db.rows, entry)
  {
    var decoded := DecodeAll(RelatedRows(db.rows, entry));
    if decoded.Err? {
      return Err(decoded.error);
    }
    var entries := decoded.value;
    if entries == [] {
      return Ok(None);
    }
    var kept := RetainOthers(entries, entry);
    r := Ok(Some(kept));
  }

  /** A row passing the filters decodes, when it decodes, to an entry with the
      query's word as lemma and the query's tag (and, for a finite verb, its
      mood, tense, number and person). */
  lemma RelatedRowDecodes(row: StoredEntry, entry: Entry)
    requires Related(row, ToStorage(entry), FiniteVerb(entry))
    requires FromStorage(row).Ok?
    ensures var d := FromStorage(row).value;
      && entry.tag.Some? && d.lemmaForm == Some(entry.word) && d.tag == entry.tag
      && (FiniteVerb(entry) ==>
            && entry.mood.Some? && d.mood == entry.mood && entry.tense.Some? && d.tense == entry.tense
            && entry.number.Some? && d.number == entry.number
            && entry.person.Some? && d.person == entry.person)
  {
    TagColumnCodec(row.tag, entry.tag);
    if FiniteVerb(entry) {
      MoodColumnCodec(row.mood, entry.mood);
      TenseColumnCodec(row.tense, entry.tense);
      NumberColumnCodec(row.number, entry.number);
      PersonColumnCodec(row.person, entry.person);
    }
  }

  /** The k-th decoded match satisfies the filters. */
  lemma DecodedMatch(rows: seq<StoredEntry>, entry: Entry, k: nat)
    requires DecodeAll(RelatedRows(rows, entry)).Ok?
    requires k < |RelatedRows(rows, entry)|
    ensures k < |DecodeAll(RelatedRows(rows, entry)).value|
    ensures var d := DecodeAll(RelatedRows(rows, entry)).value[k];
      && d.lemmaForm == Some(entry.word) && d.tag == entry.tag
      && (FiniteVerb(entry) ==>
            d.mood == entry.mood && d.tense == entry.tense
            && d.number == entry.number && d.person == entry.person)
  {
    var matched := RelatedRows(rows, entry);
    assert matched[k] in matched;
    RelatedRowDecodes(matched[k], entry);
  }

  /** Soundness: every related entry returned differs from the query entry and
      satisfies the filters. */
  lemma RelatedSound(rows: seq<StoredEntry>, entry: Entry, d: Entry)
    requires RelatedEntries(rows, entry).Ok? && RelatedEntries(rows, entry).value.Some?
    requires d in RelatedEntries(rows, entry).value.value
    ensures d != entry && d.lemmaForm == Some(entry.word) && d.tag == entry.tag
    ensures FiniteVerb(entry) ==>
      d.mood == entry.mood && d.tense == entry.tense && d.number == entry.number && d.person == entry.person
  {
    var decoded := DecodeAll(RelatedRows(rows, entry)).value;
    var k :| 0 <= k < |decoded| && decoded[k] == d;
    DecodedMatch(rows, entry, k);
  }

  /** Completeness: every stored row passing the filters whose decoding
      differs from the query entry is returned. */
  lemma RelatedComplete(rows: seq<StoredEntry>, entry: Entry, row: StoredEntry)
    requires RelatedEntries(rows, entry).Ok?
    requires row in rows && Related(row, ToStorage(entry), FiniteVerb(entry))
    ensures FromStorage(row).Ok?
    ensures FromStorage(row).value != entry ==>
      RelatedEntries(rows, entry).value.Some? && FromStorage(row).value in RelatedEntries(rows, entry).value.value
  {
    var matched := RelatedRows(rows, entry);
    var j :| 0 <= j < |rows| && rows[j] == row;
    assert row in matched;
    var k :| 0 <= k < |matched| && matched[k] == row;
    var decoded := DecodeAll(matched).value;
    assert decoded[k] == FromStorage(row).value;
  }

  /** Decoding a selection of rows fails exactly when a selected row holds an
      unknown code. */
  lemma SelectionDecodeFails(kept: seq<StoredEntry>, rows: seq<StoredEntry>)
    requires forall i :: 0 <= i < |kept| ==> kept[i] in rows
    ensures DecodeAll(kept).Err? <==> exists k :: 0 <= k < |rows| && rows[k] in kept && FromStorage(rows[k]).Err?
  {
    if DecodeAll(kept).Err? {
      DecodeFailsAt(kept);
      var i :| 0 <= i < |kept| && FromStorage(kept[i]).Err?;
      var k :| 0 <= k < |rows| && rows[k] == kept[i];
    }
  }

  /** A decoding panic exactly when some matched row holds an unknown code. */
  lemma RelatedPanics(rows: seq<StoredEntry>, entry: Entry)
    ensures RelatedEntries(rows, entry).Err? <==>
      exists k :: 0 <= k < |rows| && Related(rows[k], ToStorage(entry), FiniteVerb(entry)) && FromStorage(rows[k]).Err?
  {
    var p := (row: StoredEntry) => Related(row, ToStorage(entry), FiniteVerb(entry));
    SelectionDecodeFails(RelatedRows(rows, entry), rows);
    forall k | 0 <= k < |rows| ensures rows[k] in RelatedRows(rows, entry) <==> p(rows[k]) {
      FilterMembership(p, rows, rows[k]);
    }
  }

  /** None exactly when the query matched no row. */
  lemma RelatedNone(rows: seq<StoredEntry>, entry: Entry)
    ensures RelatedEntries(rows, entry) == Ok(None) <==>
      forall k :: 0 <= k < |rows| ==> !Related(rows[k], ToStorage(entry), FiniteVerb(entry))
  {
    FilterEmpty((row: StoredEntry) => Related(row, ToStorage(entry), FiniteVerb(entry)), rows);
    var matched := RelatedRows(rows, entry);
    if matched != [] && DecodeAll(matched).Ok? {
      assert |DecodeAll(matched).value| == |matched|;
    }
  }

  /** An entry without a tag (or a finite verb missing one of the four axes)
      binds NULL and so has no related entries. */
  lemma NullParameterMatchesNothing(rows: seq<StoredEntry>, entry: Entry)
    requires entry.tag.None? || (FiniteVerb(entry) && (entry.mood.None? || entry.tense.None? || entry.number.None? || entry.person.None?))
    ensures RelatedEntries(rows, entry) == Ok(None)
  {
    RelatedNone(rows, entry);
  }

  /** The emptiness test comes before the removal of the entry itself: a table
      holding only the entry gives Some of the empty list. */
  lemma OnlyItselfGivesEmpty(entry: Entry)
    requires entry.lemmaForm == Some(entry.word) && entry.tag.Some?
    requires FiniteVerb(entry) ==>
      entry.mood.Some? && entry.tense.Some? && entry.number.Some? && entry.person.Some?
    ensures RelatedEntries([ToStorage(entry)], entry) == Ok(Some([]))
  {
    var row := ToStorage(entry);
    TextRoundTrip(entry);
    TagColumnCodec(None, entry.tag);
    MoodColumnCodec(None, entry.mood);
    TenseColumnCodec(None, entry.tense);
    NumberColumnCodec(None, entry.number);
    PersonColumnCodec(None, entry.person);
    assert Related(row, row, FiniteVerb(entry));
    assert [row][..0] == [];
    assert RelatedRows([row], entry) == [row];
    assert [row][0] == row;
    assert DecodeAll([row]).Ok?;
    assert DecodeAll([row]).value[0] == entry;
    assert DecodeAll([row]).value == [entry];
    assert [entry][..0] == [];
  }
}
