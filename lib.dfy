/** The library's public entry points: exact-word search, related entries,
    and the prompt's searcher with the caller's history reversed. */
module Lib {
  import opened Wrappers
  import opened Definitions
  import opened Codec
  import opened Seqs
  import opened Store
  import opened Query
  import opened Searcher

  /** search: the rows with exactly this word, decoded in table order; None
      when there are none, and a decoding panic as an error. */
  function Search(word: string, db: Table): (r: Result<Option<seq<Entry>>, DecodeError>)
    reads db
    ensures r == Ok(None) <==> forall k :: 0 <= k < |db.rows| ==> db.rows[k].word != word
    ensures r.Err? <==> exists k :: 0 <= k < |db.rows| && db.rows[k].word == word && FromStorage(db.rows[k]).Err?
    ensures r.Ok? && r.value.Some? ==>
      var found := RowsWithWord(db.rows, word);
      && |r.value.value| == |found|
      && forall k :: 0 <= k < |found| ==> r.value.value[k] == FromStorage(found[k]).value && r.value.value[k].word == word
  {
    FilterEmpty((row: StoredEntry) => row.word == word, db.rows);
    SelectionDecodeFails(RowsWithWord(db.rows, word), db.rows);
    assert forall k :: 0 <= k < |db.rows| ==> (db.rows[k] in RowsWithWord(db.rows, word) <==> db.rows[k].word == word);
    var results :- DecodeAll(RowsWithWord(db.rows, word));
    if results == [] then Ok(None) else Ok(Some(results))
  }

  /** related: exactly get_related_entries. */
  method Related(entry: Entry, db: Table) returns (r: Result<Option<seq<Entry>>, DecodeError>)
    ensures r == RelatedEntries(db.rows, entry)
  {
    r := GetRelatedEntries(entry, db);
  }

  /** `into_iter().rev().collect()`. */
  function Reversed<T>(s: seq<T>): (r: seq<T>)
    ensures |r| == |s|
    ensures forall k :: 0 <= k < |s| ==> r[k] == s[|s| - 1 - k]
  {
    if s == [] then [] else Reversed(s[1..]) + [s[0]]
  }

  /** Reversing twice gives the history back. */
  lemma ReversedTwice<T>(s: seq<T>)
    ensures Reversed(Reversed(s)) == s
  {
  }

  /** text_prompt: with a connection, a searcher holding the caller's recent
      searches newest first; without one, None. */
  method TextPrompt(db: Table?, recentSearches: seq<string>) returns (prompt: Option<SqliteSearcher>)
    ensures prompt.Some? <==> db != null
    ensures prompt.Some? ==>
      && fresh(prompt.value)
      && prompt.value.connection == db
      && prompt.value.recentSearches == Reversed(recentSearches)
      && prompt.value.input == "" && prompt.value.commands == []
  {
    if db == null {
      return None;
    }
    var searcher := new SqliteSearcher(db, Reversed(recentSearches));
    prompt := Some(searcher);
  }
}
