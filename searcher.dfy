/** The autocompletion state behind the interactive prompt and its two
    callbacks: suggestions for the current input and acceptance of one. */
module Searcher {
  import opened Wrappers
  import opened Definitions
  import opened Seqs
  import opened Store

  /** `str::starts_with`. */
  predicate IsPrefix(p: string, s: string) {
    |p| <= |s| && s[..|p|] == p
  }

  /** Bytes of one character in UTF-8. */
  function Utf8Width(c: char): nat {
    if c as int < 0x80 then 1
    else if c as int < 0x800 then 2
    else if c as int < 0x1_0000 then 3
    else 4
  }

  /** `str::len`: the length in UTF-8 bytes, at least one per character. */
  function Utf8Length(s: string): (n: nat)
    ensures n >= |s|
    ensures n <= 4 * |s|
    ensures (forall k :: 0 <= k < |s| ==> s[k] as int < 0x80) ==> n == |s|
  {
    if s == [] then 0 else Utf8Width(s[0]) + Utf8Length(s[1..])
  }

  // ---------------------------------------------------------------------
  // String order and sort-then-dedup
  // ---------------------------------------------------------------------

  /** The order of `String`: lexicographic on characters (UTF-8 byte order
      and code-point order agree), a proper prefix first. */
  predicate Below(a: string, b: string)
    decreases |a|
  {
    if a == [] then b != []
    else if b == [] then false
    else if a[0] != b[0] then a[0] < b[0]
    else Below(a[1..], b[1..])
  }

  lemma {:induction false} BelowIrreflexive(a: string)
    ensures !Below(a, a)
    decreases |a|
  {
    if a != [] {
      BelowIrreflexive(a[1..]);
    }
  }

  lemma {:induction false} BelowTransitive(a: string, b: string, c: string)
    requires Below(a, b) && Below(b, c)
    ensures Below(a, c)
    decreases |a|
  {
    if a != [] && a[0] == b[0] && b[0] == c[0] {
      BelowTransitive(a[1..], b[1..], c[1..]);
    }
  }

  /** Two different strings are ordered one way or the other. */
  lemma {:induction false} BelowTotal(a: string, b: string)
    ensures a == b || Below(a, b) || Below(b, a)
    decreases |a|
  {
    if a != [] && b != [] && a[0] == b[0] {
      BelowTotal(a[1..], b[1..]);
      if a[1..] == b[1..] {
        assert a == [a[0]] + a[1..] && b == [b[0]] + b[1..];
      }
    }
  }

  lemma BelowAsymmetric(a: string, b: string)
    ensures !(Below(a, b) && Below(b, a))
  {
    if Below(a, b) && Below(b, a) {
      BelowTransitive(a, b, a);
      BelowIrreflexive(a);
    }
  }

  /** Ascending with no duplicates. */
  predicate StrictlySorted(s: seq<string>) {
    forall i, j :: 0 <= i < j < |s| ==> Below(s[i], s[j])
  }

  /** `x` put into its place in a sorted, duplicate-free sequence. */
  function InsertSorted(r: seq<string>, x: string): (r': seq<string>)
    requires StrictlySorted(r)
    ensures StrictlySorted(r')
    ensures forall y :: y in r' <==> y in r || y == x
    decreases |r|
  {
    if r == [] then [x]
    else if x == r[0] then r
    else if Below(x, r[0]) then
      assert forall j :: 0 <= j < |r| ==> Below(x, r[j]) by {
        forall j | 0 <= j < |r| ensures Below(x, r[j]) {
          if j > 0 { BelowTransitive(x, r[0], r[j]); }
        }
      }
      [x] + r
    else
      var rest := InsertSorted(r[1..], x);
      BelowTotal(x, r[0]);
      assert forall y :: y in rest ==> Below(r[0], y) by {
        forall y | y in rest ensures Below(r[0], y) {
          if y != x {
            var j :| 0 <= j < |r[1..]| && r[1..][j] == y;
            assert r[j + 1] == y;
          }
        }
      }
      assert forall y :: y in r <==> y == r[0] || y in r[1..] by {
        assert r == [r[0]] + r[1..];
      }
      [r[0]] + rest
  }

  /** `sort_unstable` followed by `dedup`: the distinct strings of `xs` in
      ascending order. */
  method SortDedup(xs: seq<string>) returns (r: seq<string>)
    ensures StrictlySorted(r)
    ensures forall y :: y in r <==> y in xs
  {
    r := [];
    var i := 0;
    while i < |xs|
      invariant 0 <= i <= |xs|
      invariant StrictlySorted(r)
      invariant forall y :: y in r <==> y in xs[..i]
    {
      assert xs[..i + 1] == xs[..i] + [xs[i]];
      r := InsertSorted(r, xs[i]);
      i := i + 1;
    }
    assert xs[..i] == xs;
  }

  /** A sorted, duplicate-free sequence is determined by its elements, so
      SortDedup's contract pins its result down completely. */
  lemma {:induction false} StrictlySortedUnique(a: seq<string>, b: seq<string>)
    requires StrictlySorted(a) && StrictlySorted(b)
    requires forall y :: y in a <==> y in b
    ensures a == b
    decreases |a|
  {
    if a == [] {
      assert forall k :: 0 <= k < |b| ==> b[k] in b;
    } else {
      assert b != [] by { assert a[0] in b; }
      assert b[0] in b && a[0] in a;
      var i :| 0 <= i < |a| && a[i] == b[0];
      var j :| 0 <= j < |b| && b[j] == a[0];
      if i > 0 && j > 0 {
        BelowAsymmetric(a[0], b[0]);
      }
      assert a[0] == b[0];
      forall y ensures y in a[1..] <==> y in b[1..] {
        if y in a[1..] {
          var k :| 0 <= k < |a[1..]| && a[1..][k] == y;
          assert Below(a[0], y) by { assert a[k + 1] == y; }
          BelowIrreflexive(y);
          assert y in b;
          assert y != b[0];
          assert b == [b[0]] + b[1..];
        }
        if y in b[1..] {
          var k :| 0 <= k < |b[1..]| && b[1..][k] == y;
          assert Below(b[0], y) by { assert b[k + 1] == y; }
          BelowIrreflexive(y);
          assert y in a;
          assert y != a[0];
          assert a == [a[0]] + a[1..];
        }
      }
      assert StrictlySorted(a[1..]) by {
        forall i', j' | 0 <= i' < j' < |a[1..]| ensures Below(a[1..][i'], a[1..][j']) {
          assert a[1..][i'] == a[i' + 1] && a[1..][j'] == a[j' + 1];
        }
      }
      assert StrictlySorted(b[1..]) by {
        forall i', j' | 0 <= i' < j' < |b[1..]| ensures Below(b[1..][i'], b[1..][j']) {
          assert b[1..][i'] == b[i' + 1] && b[1..][j'] == b[j' + 1];
        }
      }
      StrictlySortedUnique(a[1..], b[1..]);
      assert a == [a[0]] + a[1..] && b == [b[0]] + b[1..];
    }
  }

  // ---------------------------------------------------------------------
  // The searcher
  // ---------------------------------------------------------------------

  /** The words of the rows whose word starts with `input` (the `LIKE
      'input%'` query), in table order, duplicates kept. */
  function PrefixHits(rows: seq<StoredEntry>, input: string): (hits: seq<string>)
    ensures forall w :: w in hits <==> IsPrefix(input, w) && exists k :: 0 <= k < |rows| && rows[k].word == w
  {
    var matching := Filter((row: StoredEntry) => IsPrefix(input, row.word), rows);
    var hits := seq(|matching|, k requires 0 <= k < |matching| => matching[k].word);
    assert forall w :: w in hits ==> IsPrefix(input, w) && exists k :: 0 <= k < |rows| && rows[k].word == w by {
      forall w | w in hits ensures IsPrefix(input, w) && exists k :: 0 <= k < |rows| && rows[k].word == w {
        var i :| 0 <= i < |hits| && hits[i] == w;
        assert matching[i] in rows;
      }
    }
    assert forall k :: 0 <= k < |rows| && IsPrefix(input, rows[k].word) ==> rows[k].word in hits by {
      forall k | 0 <= k < |rows| && IsPrefix(input, rows[k].word) ensures rows[k].word in hits {
        assert rows[k] in matching;
        var i :| 0 <= i < |matching| && matching[i] == rows[k];
        assert hits[i] == rows[k].word;
      }
    }
    hits
  }

  class SqliteSearcher {
    var input: string
    var recentSearches: seq<string>
    var connection: Table
    var commands: seq<string>

    /** SqliteSearcher::new: empty input and no commands. */
    constructor (connection: Table, recentSearches: seq<string>)
      ensures this.input == "" && this.recentSearches == recentSearches
      ensures this.connection == connection && this.commands == []
    {
      this.input := "";
      this.recentSearches := recentSearches;
      this.connection := connection;
      this.commands := [];
    }

    /** get_suggestions. `spellSuggestions` stands for what the spelling
        checker suggests for `input`; it is used only when the database has no
        word starting with `input`. */
    method GetSuggestions(input: string, spellSuggestions: seq<string>) returns (r: seq<string>)
      ensures IsPrefix("/", input) ==>
        r == Filter((c: string) => IsPrefix(input, c), commands)
      ensures !IsPrefix("/", input) && Utf8Length(input) > 2 ==>
        var hits := PrefixHits(connection.rows, input);
        if hits == [] then r == spellSuggestions
        else StrictlySorted(r) && forall w :: w in r <==> w in hits
      ensures !IsPrefix("/", input) && input == [] ==> r == recentSearches
      ensures !IsPrefix("/", input) && input != [] && Utf8Length(input) <= 2 ==>
        r == Filter((w: string) => IsPrefix(input, w), recentSearches)
    {
      if IsPrefix("/", input) {
        r := Filter((c: string) => IsPrefix(input, c), commands);
      } else if Utf8Length(input) > 2 {
        var results := PrefixHits(connection.rows, input);
        if results == [] {
          r := spellSuggestions;
        } else {
          r := SortDedup(results);
        }
      } else if input == [] {
        r := recentSearches;
      } else {
        r := Filter((w: string) => IsPrefix(input, w), recentSearches);
      }
    }

    /** get_completion: accepting a highlighted suggestion records the raw
        input in the history and completes to the suggestion; without one,
        nothing happens. */
    method GetCompletion(input: string, highlighted: Option<string>) returns (r: Option<string>)
      modifies this
      ensures r == highlighted
      ensures recentSearches == if highlighted.Some? then old(recentSearches) + [input] else old(recentSearches)
      ensures this.input == old(this.input) && commands == old(commands) && connection == old(connection)
    {
      match highlighted {
        case Some(suggestion) =>
          recentSearches := recentSearches + [input];
          r := Some(suggestion);
        case None =>
          r := None;
      }
    }
  }
}
