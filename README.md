# lecsicon-db, modelled in Dafny

lecsicon-db is a Welsh lexicon tool. It does the following:

- It reads a tab-separated lexicon, one record per word form. The fields are the word, its lemma, a part-of-speech code and an optional `|`-separated list of `Feature=Value` pairs.
- It turns each record into a `LecsiconEntry` with an id.
- It stores entries in SQLite as `SqliteLecsiconEntry` rows. On a row, every multi-variant grammatical axis is an integer code and every single-variant axis is a boolean flag.
- It answers word lookups and related-form queries.
- It drives an autocompleting prompt.

This project models that core and proves what it promises. The database is an in-memory table of rows whose `(id, word)` pairs are unique. The csv reader's output is a sequence of records, each either a read error or a list of fields.

Modules, one per part of the program:

- `Definitions`: the enums, `Entry` (`LecsiconEntry`) and `StoredEntry` (`SqliteLecsiconEntry`).
- `Codec`: the hand-written tables of `convert_text_to_sqlite` and `convert_sqlite_to_text`.
- `Ingest`: the record loop of `load_text_lecsicon`. It covers the `Default` sentinel, the part-of-speech and tag-pair vocabulary, and the window of the 20 most recent `(word, id)` pairs.
- `Store`: the table (a class with its key invariant) and `save_data_to_sqlite_db` with its bump-and-retry.
- `Query`: `get_related_entries`.
- `Searcher`: the `SqliteSearcher` state, `new`, `get_suggestions` and `get_completion`.
- `Lib`: `search`, `related` and the history reversal of `text_prompt`.
- `Ids`, `Seqs`, `Wrappers`: shared helpers. These are the running "one above the largest" id, the order-preserving filter, and `Option`/`Result`.

Modelling choices:

- A Rust `panic!` reachable from data becomes an `Err` result. Examples are an out-of-range stored code, an unknown part-of-speech code and an unrecognised tag pair.
- A `panic!` the code can never reach becomes an assertion. The example is the second failed insert in `save_data_to_sqlite_db`.
- A failed connection is a `null` table.

## Model

| member | source | states |
|---|---|---|
| Definitions.SingleVariantAxes | src/definitions.rs:22-150 | AdpositionType, Definite, NumberForm, Polarity, Position, Possessive, Relative and VerbForm each have one value, so a present field always holds that value |
| Codec.ToStorage | src/implementations.rs:443-578 | convert_text_to_sqlite: the row keeps id, word and lemma, writes each multi-variant axis as its table code (NULL when absent) and each single-variant axis as a flag set to true when present |
| Codec.FirstUnknown | src/implementations.rs:254-441 | the first integer column, in the order the source converts them, whose code its table does not know, with that code; none when every column is NULL or known |
| Codec.FromStorage | src/implementations.rs:254-441 | convert_sqlite_to_text: fails (the source panics) on the column FirstUnknown names, otherwise gives DecodedEntry |
| Codec.DecodedEntry | src/implementations.rs:254-441 | the entry a row reads as: id, word and lemma copied, each code looked up in its table, each present flag read as its axis's one variant whatever its stored value |
| Codec.TagTable | src/implementations.rs:448-464 | the 12 tags encode to distinct codes that decode back; a code decodes exactly when it lies in 0..11; decoding and encoding are inverse |
| Codec.DegreeTable | src/implementations.rs:469-477 | degree codes: inverse tables over 0..3 |
| Codec.GenderTable | src/implementations.rs:478-485 | gender codes: inverse tables over 0..2 |
| Codec.MoodTable | src/implementations.rs:486-493 | mood codes: inverse tables over 0..2 |
| Codec.MutationTable | src/implementations.rs:494-502 | mutation codes: inverse tables over 0..3 |
| Codec.NameTypeTable | src/implementations.rs:503-509 | name-type codes: inverse tables over 0..1 |
| Codec.NumberTable | src/implementations.rs:510-517 | number codes: inverse tables over 0..2 |
| Codec.NumberTypeTable | src/implementations.rs:519-525 | number-type codes: inverse tables over 0..1 |
| Codec.PersonTable | src/implementations.rs:526-534 | person codes: inverse tables over 0..3, with One=0, Three=1, Two=2, Zero=3 (not the declaration order) |
| Codec.PoliteTable | src/implementations.rs:536-542 | politeness codes: inverse tables over 0..1 |
| Codec.PronounTypeTable | src/implementations.rs:545-556 | pronoun-type codes: inverse tables over 0..6, with Reflexive=5 before Relative=6 (declaration order swapped) |
| Codec.StyleTable | src/implementations.rs:558-565 | style codes: inverse tables over 0..2 |
| Codec.TenseTable | src/implementations.rs:566-575 | tense codes: inverse tables over 0..4 |
| Codec.FlagRoundTrip | src/implementations.rs:280-283 | a single-variant field stored as a flag reads back as the same field |
| Codec.TagColumnCodec | src/implementations.rs:259-279 | the tag column decodes without a panic exactly when it is NULL or in 0..11; a decodable column re-encodes to itself; every encoded tag decodes back |
| Codec.DegreeColumnCodec | src/implementations.rs:284-296 | the same for the degree column, codes 0..3 |
| Codec.GenderColumnCodec | src/implementations.rs:297-308 | the same for gender, codes 0..2 |
| Codec.MoodColumnCodec | src/implementations.rs:309-320 | the same for mood, codes 0..2 |
| Codec.MutationColumnCodec | src/implementations.rs:321-333 | the same for mutation, codes 0..3 |
| Codec.NameTypeColumnCodec | src/implementations.rs:334-344 | the same for name type, codes 0..1 |
| Codec.NumberColumnCodec | src/implementations.rs:345-356 | the same for number, codes 0..2 |
| Codec.NumberTypeColumnCodec | src/implementations.rs:358-368 | the same for number type, codes 0..1 |
| Codec.PersonColumnCodec | src/implementations.rs:369-381 | the same for person, codes 0..3 |
| Codec.PoliteColumnCodec | src/implementations.rs:383-393 | the same for politeness, codes 0..1 |
| Codec.PronounTypeColumnCodec | src/implementations.rs:396-411 | the same for pronoun type, codes 0..6 |
| Codec.StyleColumnCodec | src/implementations.rs:413-424 | the same for style, codes 0..2 |
| Codec.TenseColumnCodec | src/implementations.rs:425-438 | the same for tense, codes 0..4 |
| Codec.TextRoundTrip | src/implementations.rs:254-578 | converting any entry to storage and back gives the same entry, across all 24 fields |
| Codec.KnownIffInRange | src/implementations.rs:254-441 | for each of the 13 integer columns, the stored code is accepted exactly when it is NULL or inside that axis's range |
| Codec.EncodedRowIsCanonical | src/implementations.rs:443-578 | every encoded row has all codes in range and every flag NULL or true |
| Codec.DecodeSucceedsIffInRange | src/implementations.rs:254-441 | decoding a stored row fails (the source panics) exactly when some integer column is out of range |
| Codec.DecodeErrorNamesBadColumn | src/implementations.rs:254-441 | a decoding error names a column whose stored code is present and outside that column's range |
| Codec.FlagValueIgnored | src/implementations.rs:280-283 | a flag stored as false decodes exactly like true: the row decodes like its normalised row |
| Codec.CodesReencoded | src/implementations.rs:254-578 | for a decodable row, each of the 13 integer columns re-encodes to the stored code |
| Codec.ReencodeNormalizes | src/implementations.rs:254-578 | decoding then encoding a decodable row gives the row with its false flags turned into true |
| Codec.NormalizeKeepsCanonical | src/implementations.rs:280-283 | normalising flags changes a row exactly when some flag is stored as false |
| Codec.StorageRoundTrip | src/implementations.rs:254-578 | storage to text to storage is the identity exactly for decodable rows whose flags are NULL or true |
| Codec.DecodeAll | src/lib.rs:47-50 | decoding a list of rows succeeds exactly when every row decodes; the result keeps the length and decodes rows position by position |
| Codec.DecodeFailsAt | src/lib.rs:47-50 | a failed list decode has a row that fails to decode |
| Codec.ToStorageAll | src/implementations.rs:665-669 | convert_csv_to_sqlite_format: row k is convert_text_to_sqlite of entry k, so ids and words are kept, and the rows decode back to exactly the input entries |
| Ids.MaxAbove | src/implementations.rs:677-682 | the bumped id is at least the starting id, above every given id, and either the start or one more than a given id |
| Ids.MaxAboveSnoc | src/implementations.rs:677-682 | one more loop step: a later id at or above the running value moves it to that id plus one, otherwise nothing changes |
| Seqs.Filter | src/implementations.rs:660 | the kept elements satisfy the predicate and come from the input; every satisfying input element is kept |
| Seqs.FilterSubMultiset | src/implementations.rs:660 | filtering never adds or duplicates elements: the result is a sub-multiset of the input |
| Seqs.FilterSnoc | src/implementations.rs:660 | filtering a prefix one element longer appends that element exactly when it satisfies the predicate, so the filter keeps input order |
| Seqs.FilterEmpty | src/implementations.rs:655 | a filter is empty exactly when no element satisfies the predicate |
| Seqs.FilterMembership | src/implementations.rs:660 | an element is in a filter exactly when it is in the input and satisfies the predicate |
| Ingest.Sentinel | src/implementations.rs:13-42 | Default: the entry every record starts from, with id -99, word "ERROR" and every other field None, so its id is below every assigned id and it has no lemma or tag |
| Ingest.PosOfCode | src/implementations.rs:65-82 | the third-column match: the 12 part-of-speech codes ADJ … VERB give their tags, any other code is unknown |
| Ingest.PairFeature | src/implementations.rs:96-233 | the vocabulary of the tag-pair match: each of the 50 recognised spellings gives the feature it sets; "" and " " and every other spelling give none |
| Ingest.SetFeature | src/implementations.rs:96-233 | the assignment in each match arm: set the one field the feature names and leave every other field alone |
| Ingest.ApplyPairs | src/implementations.rs:93-235 | the pair loop: the pairs applied left to right, blanks skipped, stopping with an error at the first unrecognised pair |
| Ingest.PosCodes | src/implementations.rs:65-82 | each of the 12 part-of-speech codes (ADJ … VERB) decodes to its tag, and a tag comes only from its own code |
| Ingest.DegreeSpellings | src/implementations.rs:96-235 | each Degree pair spelling decodes to its degree |
| Ingest.GenderSpellings | src/implementations.rs:96-235 | each Gender spelling decodes to its gender, Fem,Masc included |
| Ingest.MoodSpellings | src/implementations.rs:96-235 | each Mood spelling decodes to its mood |
| Ingest.MutationSpellings | src/implementations.rs:96-235 | each Mutation spelling decodes to its mutation |
| Ingest.NameTypeSpellings | src/implementations.rs:96-235 | each NameType spelling decodes to its name type |
| Ingest.NumberSpellings | src/implementations.rs:96-235 | each Number spelling decodes to its number |
| Ingest.NumberTypeSpellings | src/implementations.rs:96-235 | each NumType spelling decodes to its number type |
| Ingest.PersonSpellings | src/implementations.rs:96-235 | each Person spelling decodes to its person |
| Ingest.PoliteSpellings | src/implementations.rs:96-235 | each Polite spelling decodes to its politeness |
| Ingest.PronounTypeSpellings | src/implementations.rs:96-235 | each PronType spelling decodes to its pronoun type, Tot giving Reflexive |
| Ingest.StyleSpellings | src/implementations.rs:96-235 | each Style spelling decodes to its style |
| Ingest.TenseSpellings | src/implementations.rs:96-235 | each Tense spelling decodes to its tense |
| Ingest.PairTextDecodes | src/implementations.rs:96-235 | every feature, on every one of the 20 axes, has a pair spelling that decodes to it |
| Ingest.SameAxisOverwrites | src/implementations.rs:96-235 | setting two features of the same axis leaves only the second |
| Ingest.ApplyTagPair | src/implementations.rs:96-233 | one pair: Err, naming the pair, exactly when it is neither blank nor known; "" and " " change nothing; a known pair never touches id, word, lemma or tag |
| Ingest.ApplyPairsOutcome | src/implementations.rs:96-235 | a list of pairs fails exactly when some pair is unrecognised, and the error names the first such pair; success keeps id, word, lemma and tag |
| Ingest.ApplyPairsAppend | src/implementations.rs:96-235 | decoding a concatenation decodes the first list, then the second on its result |
| Ingest.DecodeDetails | src/implementations.rs:93-235 | the imperative pair loop, with its early stop at the first unknown pair, computes ApplyPairs |
| Ingest.IndexOf | src/implementations.rs:95 | the first position of the separator |
| Ingest.Split | src/implementations.rs:95 | splitting on `|` gives at least one part, no part contains `|`, and joining the parts gives the input back |
| Ingest.JoinHead | src/implementations.rs:95 | in a join of two or more pieces the first separator ends the first piece and the rest is the join of the remaining pieces |
| Ingest.SplitJoin | src/implementations.rs:95 | splitting the join of separator-free parts gives those parts back |
| Ingest.WindowIdsSound | src/implementations.rs:84-88 | every id gathered for a word is one the window pairs with that word |
| Ingest.WindowIdsComplete | src/implementations.rs:84-88 | every window id for the word is gathered |
| Ingest.NextId | src/implementations.rs:62 | a new id is at least 101, above every window id for the same word, and either 101 or one more than such an id |
| Ingest.ScanStep | src/implementations.rs:84-88 | one step of the window scan updates the running id as the source's `if` does |
| Ingest.ScannedIsMaxAbove | src/implementations.rs:84-88 | scanning the window slot by slot, as the loop does, yields the least id at or above 101 and above every same-word id scanned so far |
| Ingest.AssignId | src/implementations.rs:84-88 | the window scan loop computes NextId |
| Ingest.Remember | src/implementations.rs:89-91 | after push_front and truncate(20): the front is the new (word, id), the length is min(old length + 1, 20), and the rest is the old window minus its oldest element when it was full |
| Ingest.DecodeRecord | src/implementations.rs:58-237 | the loop body for one record: None for fewer than 3 fields, a panic on an unknown part of speech, otherwise the sentinel given the next id, word, lemma and tag, then the pairs of a fourth column applied |
| Ingest.DecodeRecordOutcome | src/implementations.rs:63-93 | a record is missing a column exactly when it has fewer than 3 fields, and is accepted exactly when its code and pairs are known; an accepted entry carries the record's word, lemma and part of speech and the next id |
| Ingest.NamesFirstUnknown | src/implementations.rs:233 | an error names the first unrecognised pair of a list |
| Ingest.RecordFailure | src/implementations.rs:63-233 | a rejected record with three or more fields panics with its unknown part-of-speech code when the code is unknown, and otherwise has a fourth column whose first unrecognised pair is the error |
| Ingest.LoadFrom | src/implementations.rs:56-246 | the record loop from a given window and accepted entries: reader errors skipped, the first missing column ends the load with None, the first failing record ends it with its error, each accepted entry moves the window |
| Ingest.LoadSpec | src/implementations.rs:44-253 | load_text_lecsicon: the record loop from an empty window and no entries |
| Ingest.Readable | src/implementations.rs:239-243 | the records left once reader errors are dropped, in order: a record is kept exactly when it is a field record of the input |
| Ingest.ReadErrorsSkipped | src/implementations.rs:239-243 | reader errors are skipped: loading gives the same result without them |
| Ingest.LoadOutcome | src/implementations.rs:56-246 | the load returns entries exactly when every readable record is well formed; None only for a record with fewer than 3 fields; a panic only for a record with an unknown code or pair; one entry per readable record |
| Ingest.FirstBadRecordDecides | src/implementations.rs:56-246 | when every readable record before position k is well formed and record k is not, the load ends there: None when it has fewer than 3 fields, a panic naming its part-of-speech code when that is unknown, otherwise a panic naming the first unrecognised pair of its fourth column |
| Ingest.RecentWindow | src/implementations.rs:89-91 | the window never holds more than 20 pairs |
| Ingest.RememberRecent | src/implementations.rs:89-91 | the window is always the 20 most recent accepted entries, newest first |
| Ingest.LoadIds | src/implementations.rs:56-246 | the load's invariant: every entry's id is the one the window of the entries before it gives, and no entry is left as the sentinel |
| Ingest.DecodedAfter | src/implementations.rs:56-246 | the entries after the accepted ones are, in order, the decodings of the given records, each against the window of the entries before it |
| Ingest.LoadStep | src/implementations.rs:56-246 | a load that continues past the first record accepted it and goes on with that entry remembered and appended |
| Ingest.DecodesShift | src/implementations.rs:56-246 | the decodings of the remaining records, with the first record's entry in front, are the decodings of all the records |
| Ingest.LoadDecodes | src/implementations.rs:56-246 | a successful load of cleanly read records keeps the accepted entries and appends the decoding of each record, in record order |
| Ingest.InRecentWindow | src/implementations.rs:89-91 | an entry at most 20 places back is in the window at its place |
| Ingest.IdsFromWindowDistinct | src/implementations.rs:84-91 | a later entry with the same word at most 20 places after an earlier one has a larger id |
| Ingest.LoadedEntries | src/implementations.rs:44-253 | a successful load has one entry per readable record, entry k being the decoding of readable record k against the window of the entries before it (so order, word, lemma, tag and features follow the records), each with an id of at least 101, a lemma and a tag, ids assigned from the window, and distinct increasing ids for repeated words within 20 records |
| Ingest.RepeatedWordScenario | src/implementations.rs:62 | two consecutive "ci" nouns load as ids 101 and 102 |
| Ingest.LaterPairWins | src/implementations.rs:96-235 | of two known pairs on the same axis, only the later counts |
| Ingest.GenderPairScenario | src/implementations.rs:96-235 | "Gender=Masc" then "Gender=Fem,Masc" leaves FeminineMasculine |
| Ingest.ReflexivePairScenario | src/implementations.rs:96-235 | " ", "PronType=Tot", "" sets Reflexive and nothing else |
| Ingest.SplitScenario | src/implementations.rs:95 | "Gender=Fem\|Case=Nom" splits into its two pairs |
| Ingest.UnknownPairStops | src/implementations.rs:233 | an unknown pair after a known one stops decoding with that pair as the error |
| Ingest.UnknownPairRecord | src/implementations.rs:93-233 | a noun record with an unknown fourth-column pair fails on that pair |
| Ingest.UnknownPairAborts | src/implementations.rs:233 | such a record aborts the whole load |
| Ingest.UnknownPosAborts | src/implementations.rs:63-82 | an unknown part-of-speech code aborts the load; a two-field record makes the load return None before a later bad code is reached |
| Ingest.ReadRecord | src/implementations.rs:58-237 | filling one entry field by field computes DecodeRecord, and an accepted record moves the window by Remember |
| Ingest.Load | src/implementations.rs:56-246 | the imperative record loop computes the load specification |
| Store.RowsWithWord | src/implementations.rs:602-610 | get_lecsicon_entries_by_word: the rows with the word, and all of them |
| Store.RowsWithWordSubMultiset | src/implementations.rs:602-610 | the selection holds no row more often than the table does |
| Store.IdsOf | src/implementations.rs:677-682 | the ids of the rows, position by position |
| Store.Table.constructor | src/schema.rs:4 | a new table is empty and satisfies the key invariant |
| Store.Table.Insert | src/implementations.rs:580-588 | create_entry: succeeds exactly when (id, word) is free, then appends the row; otherwise leaves the table unchanged; keys stay unique |
| Store.Placed | src/implementations.rs:673-686 | the row as finally inserted: only its id changes, the id never decreases, the key is then free, a free key keeps the row as is, and a taken key bumps the id past every stored id for the word |
| Store.PlacedKeepsUnique | src/implementations.rs:673-686 | inserting the placed row keeps (id, word) unique |
| Store.SaveAll | src/implementations.rs:671-691 | the table after the save loop: each entry placed against the table as it stands after the entries before it and appended |
| Store.SaveAllUnique | src/implementations.rs:671-691 | saving a list keeps (id, word) unique |
| Store.SaveAllGrows | src/implementations.rs:671-691 | saving appends exactly one row per entry and never alters the rows already stored |
| Store.SaveAllEntry | src/implementations.rs:671-691 | the k-th entry lands at its own position, placed against the table as it was before it |
| Store.SaveAllLands | src/implementations.rs:671-691 | each entry is inserted exactly once, with only its id possibly raised, and unchanged when its key was free |
| Store.SaveOne | src/implementations.rs:673-674 | one row saved into an empty table is stored unchanged |
| Store.PlacedOverItself | src/implementations.rs:675-682 | a row colliding with itself is bumped to the next id |
| Store.CollisionScenario | src/implementations.rs:673-686 | saving the same row twice into an empty table stores it and a copy with id one higher |
| Store.BumpId | src/implementations.rs:677-682 | the bump loop computes MaxAbove over the same-word ids |
| Store.SaveEntry | src/implementations.rs:674-686 | insert, and on collision bump and retry; the retry never fails and the key invariant holds |
| Store.SaveData | src/implementations.rs:671-691 | returns false exactly when there is no connection; otherwise the table becomes the specified save of all entries and stays key-unique |
| Query.SqlEq | src/implementations.rs:617-653 | the SQL equality test against a bound parameter: a NULL on either side matches nothing |
| Query.Related | src/implementations.rs:617-653 | the query filters: lemma equal to the query word, the same tag and, for a verb without a verb form, the same mood, tense, number and person |
| Query.RelatedRows | src/implementations.rs:612-653 | the rows the query loads, in table order |
| Query.RelatedEntries | src/implementations.rs:612-663 | get_related_entries: a decoding panic as an error, None when no row matched, otherwise the decoded matches without the entries equal to the query |
| Query.RetainOthers | src/implementations.rs:660 | retain: keeps, in order, exactly the entries structurally different from the query |
| Query.GetRelatedEntries | src/implementations.rs:612-663 | computes the related-entry specification over the table |
| Query.RelatedRowDecodes | src/implementations.rs:617-653 | a matching row decodes to an entry whose lemma is the query word and whose tag is the query's, plus mood, tense, number and person for a finite verb |
| Query.DecodedMatch | src/implementations.rs:617-653 | each decoded match carries the same lemma, tag and finite-verb fields |
| Query.RelatedSound | src/implementations.rs:612-663 | every related entry differs from the query, has the query word as lemma and the query's tag, and, for a finite verb, the same mood, tense, number and person |
| Query.RelatedComplete | src/implementations.rs:612-663 | every stored row that passes the filters decodes and, unless it equals the query, is in the result |
| Query.SelectionDecodeFails | src/implementations.rs:617-653 | decoding a selection of rows fails exactly when a selected row fails to decode |
| Query.RelatedPanics | src/implementations.rs:617-653 | the query panics exactly when some matching row holds an out-of-range code |
| Query.RelatedNone | src/implementations.rs:655-656 | the result is None exactly when no row passes the filters, checked before the query entry is removed |
| Query.NullParameterMatchesNothing | src/implementations.rs:617-653 | a query with no tag, or a finite verb missing mood, tense, number or person, binds NULL and finds nothing |
| Query.OnlyItselfGivesEmpty | src/implementations.rs:655-662 | a table holding only the query entry gives Some of an empty list, not None |
| Searcher.Utf8Length | src/implementations.rs:714 | the byte length is between the character count and four times it, and equals it for ASCII |
| Searcher.BelowIrreflexive | src/implementations.rs:729 | the string order is irreflexive |
| Searcher.BelowTransitive | src/implementations.rs:729 | the string order is transitive |
| Searcher.BelowTotal | src/implementations.rs:729 | any two strings are equal or ordered one way |
| Searcher.BelowAsymmetric | src/implementations.rs:729 | no two strings are ordered both ways |
| Searcher.InsertSorted | src/implementations.rs:729-730 | inserting into a strictly sorted list keeps it strictly sorted and adds exactly the new element |
| Searcher.SortDedup | src/implementations.rs:729-730 | sort_unstable then dedup: the result is strictly sorted and has the same elements |
| Searcher.StrictlySortedUnique | src/implementations.rs:729-730 | two strictly sorted lists with the same elements are equal, so the sorted, deduplicated result is determined |
| Searcher.PrefixHits | src/implementations.rs:715-721 | the database query returns exactly the stored words that start with the input |
| Searcher.SqliteSearcher.constructor | src/implementations.rs:694-701 | new: empty input, the given history and connection, no commands |
| Searcher.SqliteSearcher.GetSuggestions | src/implementations.rs:705-743 | "/" input gives the commands with that prefix in order; input over 2 bytes gives the spelling suggestions when no stored word has that prefix, else the hits sorted and without duplicates; empty input gives the history; otherwise the history entries with that prefix, in order |
| Searcher.SqliteSearcher.GetCompletion | src/implementations.rs:745-757 | returns the highlighted suggestion and appends the raw input to the history only when there is one; nothing else changes |
| Lib.Search | src/lib.rs:43-56 | None exactly when no row has the word; a panic exactly when a row with the word does not decode; otherwise every such row decoded, same count and order, each with the queried word |
| Lib.Related | src/lib.rs:58-63 | exactly the related-entry query |
| Lib.Reversed | src/lib.rs:70 | the reversed list: same length, element k is element n-1-k |
| Lib.ReversedTwice | src/lib.rs:70 | reversing twice gives the list back |
| Lib.TextPrompt | src/lib.rs:65-76 | a prompt exists exactly when the connection was established, and its searcher holds the history reversed |

## Left out

- File and CSV I/O: opening the file, the reader configuration, and `println!`/`dbg!` diagnostics. The model starts from the reader's output, a sequence of records that are each a read error or a field list.
- Diesel and SQLite plumbing: `establish_connection`, the connection as an `Rc`, and `Rc::get_mut(...).unwrap()` are not modelled. A connection is a `Table`; a failed connection is `null`.
- Store.Table.Insert: `create_entry` is modelled as failing only on a key collision. The database's other failures are not modelled.
- `.expect` on query loads: a Diesel failure here is not modelled. Only the panics that stored data can cause are modelled, as `Err`.
- Searcher.PrefixHits: SQL `LIKE` is modelled as a plain case-sensitive prefix match. `%` and `_` inside the input and SQLite's ASCII case folding are not modelled.
- Searcher.SqliteSearcher.GetSuggestions: the Hunspell fallback is a foreign library. Its result is the parameter `spellSuggestions`, and nothing is assumed about it.
- Searcher.SqliteSearcher.GetSuggestions: the database hits are specified as a strictly sorted list with the same elements, not as an in-place `sort_unstable` and `dedup` of a mutable vector. StrictlySortedUnique shows this list is unique.
- Searcher.SqliteSearcher.GetSuggestions: `input.len()` counts UTF-8 bytes. Strings are sequences of Unicode scalar values, and Utf8Length computes the byte width of each one.
- Searcher.Below: the sort order is character by character. For UTF-8 this is the same as Rust's byte order on strings.
- The `inquire` prompt is not modelled. TextPrompt returns the searcher it would install, and Replacement is modelled as `Option<string>`.
- `save_csv_as_sqlite_db` is not modelled. It is connection juggling plus three fixed smoke searches.
- Ids and codes are unbounded integers, so the `i32` overflow of `id + 1` (2147483647 or more) is not modelled.
- The table keeps rows in insertion order, and queries return rows in that order. SQLite promises no order without `ORDER BY`.
- Query.RetainOthers: `retain` in place is modelled as a loop that builds the kept sequence.
- Ingest.PairTextDecodes: only the text-to-feature direction of the 50 pair spellings is proved. It is not proved that no two spellings decode to the same feature. Ingest.PosCodes states uniqueness for the part-of-speech codes.
- The generated Diesel schema is not modelled. Only its `(id, word)` primary key is used, as the table invariant.
