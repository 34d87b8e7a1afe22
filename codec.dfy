/** The two hand-written tables between symbolic entries and stored rows.
    Each multi-variant axis has its own explicit code table in each
    direction; neither follows declaration order everywhere (Person and
    PronounType do not), so the two directions are proved to agree. */
module Codec {
  import opened Wrappers
  import opened Definitions

  /** The integer columns, naming the one whose stored code is unknown. */
  datatype Column =
    | TagColumn | DegreeColumn | GenderColumn | MoodColumn | MutationColumn
    | NameTypeColumn | NumberColumn | NumberTypeColumn | PersonColumn
    | PoliteColumn | PronounTypeColumn | StyleColumn | TenseColumn

  /** Reading back a code outside an axis's table (a panic in the source). */
  datatype DecodeError = UnknownCode(column: Column, code: int)

  // ---------------------------------------------------------------------
  // Symbolic -> storage, one table per multi-variant axis
  // ---------------------------------------------------------------------

  function TagCode(t: Tag): int {
    match t
    case Adjective => 0
    case Adposition => 1
    case Adverb => 2
    case Conjugation => 3
    case Determiner => 4
    case Interjection => 5
    case Noun => 6
    case Number => 7
    case Particle => 8
    case Pronoun => 9
    case ProperNoun => 10
    case Verb => 11
  }

  function DegreeCode(d: Degree): int {
    match d
    case Comparative => 0
    case Equative => 1
    case Positive => 2
    case Superlative => 3
  }

  function GenderCode(g: Gender): int {
    match g
    case Feminine => 0
    case FeminineMasculine => 1
    case Masculine => 2
  }

  function MoodCode(m: Mood): int {
    match m
    case Imperative => 0
    case Indicative => 1
    case Subjunctive => 2
  }

  function MutationCode(m: Mutation): int {
    match m
    case Aspirate => 0
    case HProthesis => 1
    case Nasal => 2
    case Soft => 3
  }

  function NameTypeCode(n: NameType): int {
    match n
    case Geographical => 0
    case Person => 1
  }

  function NumberCode(n: Number): int {
    match n
    case Collective => 0
    case Plural => 1
    case Singular => 2
  }

  function NumberTypeCode(n: NumberType): int {
    match n
    case Cardinal => 0
    case Ordinal => 1
  }

  function PersonCode(p: Person): int {
    match p
    case One => 0
    case Three => 1
    case Two => 2
    case Zero => 3
  }

  function PoliteCode(p: Polite): int {
    match p
    case Formal => 0
    case Informal => 1
  }

  function PronounTypeCode(p: PronounType): int {
    match p
    case Article => 0
    case Demonstrative => 1
    case Interrogative => 2
    case Negative => 3
    case Personal => 4
    case Reflexive => 5
    case Relative => 6
  }

  function StyleCode(s: Style): int {
    match s
    case Archaic => 0
    case Colloquial => 1
    case Formal => 2
  }

  function TenseCode(t: Tense): int {
    match t
    case Future => 0
    case Imperfect => 1
    case Past => 2
    case Plusquamperfekt => 3
    case Present => 4
  }

  // ---------------------------------------------------------------------
  // Storage -> symbolic, written independently; None is an unknown code
  // ---------------------------------------------------------------------

  function TagOfCode(c: int): Option<Tag> {
    match c
    case 0 => Some(Adjective)
    case 1 => Some(Adposition)
    case 2 => Some(Adverb)
    case 3 => Some(Conjugation)
    case 4 => Some(Determiner)
    case 5 => Some(Interjection)
    case 6 => Some(Noun)
    case 7 => Some(Tag.Number)
    case 8 => Some(Particle)
    case 9 => Some(Pronoun)
    case 10 => Some(ProperNoun)
    case 11 => Some(Verb)
    case _ => None
  }

  function DegreeOfCode(c: int): Option<Degree> {
    match c
    case 0 => Some(Comparative)
    case 1 => Some(Equative)
    case 2 => Some(Positive)
    case 3 => Some(Superlative)
    case _ => None
  }

  function GenderOfCode(c: int): Option<Gender> {
    match c
    case 0 => Some(Feminine)
    case 1 => Some(FeminineMasculine)
    case 2 => Some(Masculine)
    case _ => None
  }

  function MoodOfCode(c: int): Option<Mood> {
    match c
    case 0 => Some(Imperative)
    case 1 => Some(Indicative)
    case 2 => Some(Subjunctive)
    case _ => None
  }

  function MutationOfCode(c: int): Option<Mutation> {
    match c
    case 0 => Some(Aspirate)
    case 1 => Some(HProthesis)
    case 2 => Some(Nasal)
    case 3 => Some(Soft)
    case _ => None
  }

  function NameTypeOfCode(c: int): Option<NameType> {
    match c
    case 0 => Some(Geographical)
    case 1 => Some(NameType.Person)
    case _ => None
  }

  function NumberOfCode(c: int): Option<Number> {
    match c
    case 0 => Some(Collective)
    case 1 => Some(Plural)
    case 2 => Some(Singular)
    case _ => None
  }

  function NumberTypeOfCode(c: int): Option<NumberType> {
    match c
    case 0 => Some(Cardinal)
    case 1 => Some(Ordinal)
    case _ => None
  }

  function PersonOfCode(c: int): Option<Person> {
    match c
    case 0 => Some(One)
    case 1 => Some(Three)
    case 2 => Some(Two)
    case 3 => Some(Zero)
    case _ => None
  }

  function PoliteOfCode(c: int): Option<Polite> {
    match c
    case 0 => Some(Polite.Formal)
    case 1 => Some(Informal)
    case _ => None
  }

  function PronounTypeOfCode(c: int): Option<PronounType> {
    match c
    case 0 => Some(Article)
    case 1 => Some(Demonstrative)
    case 2 => Some(Interrogative)
    case 3 => Some(PronounType.Negative)
    case 4 => Some(Personal)
    case 5 => Some(Reflexive)
    case 6 => Some(PronounType.Relative)
    case _ => None
  }

  function StyleOfCode(c: int): Option<Style> {
    match c
    case 0 => Some(Archaic)
    case 1 => Some(Colloquial)
    case 2 => Some(Style.Formal)
    case _ => None
  }

  function TenseOfCode(c: int): Option<Tense> {
    match c
    case 0 => Some(Future)
    case 1 => Some(Imperfect)
    case 2 => Some(Past)
    case 3 => Some(Plusquamperfekt)
    case 4 => Some(Present)
    case _ => None
  }

  // ---------------------------------------------------------------------
  // Whole-record conversions
  // ---------------------------------------------------------------------

  function Encode<T>(o: Option<T>, code: T -> int): Option<int> {
    match o
    case None => None
    case Some(v) => Some(code(v))
  }

  /** A single-variant axis is stored as `Some(true)` when present. */
  function Flag<T>(o: Option<T>): Option<bool> {
    if o.Some? then Some(true) else None
  }

  /** An integer column is absent or holds a code its table knows. */
  predicate Known<T>(o: Option<int>, ofCode: int -> Option<T>) {
    o.None? || ofCode(o.value).Some?
  }

  /** The value a known column decodes to. */
  function Decoded<T>(o: Option<int>, ofCode: int -> Option<T>): Option<T> {
    if o.None? then None else ofCode(o.value)
  }

  /** Any stored flag, whatever its boolean value, means the variant is present. */
  function Unflag<T>(f: Option<bool>, variant: T): Option<T> {
    if f.Some? then Some(variant) else None
  }

  /** convert_text_to_sqlite. */
  function ToStorage(e: Entry): StoredEntry {
    StoredEntry(
      e.id, e.word, e.lemmaForm,
      Encode(e.tag, TagCode),
      Flag(e.adpositionType),
      Flag(e.definite),
      Encode(e.degree, DegreeCode),
      Encode(e.gender, GenderCode),
      Encode(e.mood, MoodCode),
      Encode(e.mutation, MutationCode),
      Encode(e.nameType, NameTypeCode),
      Encode(e.number, NumberCode),
      Flag(e.numberForm),
      Encode(e.numberType, NumberTypeCode),
      Encode(e.person, PersonCode),
      Flag(e.polarity),
      Encode(e.polite, PoliteCode),
      Flag(e.position),
      Flag(e.possessive),
      Encode(e.pronounType, PronounTypeCode),
      Flag(e.relative),
      Encode(e.style, StyleCode),
      Encode(e.tense, TenseCode),
      Flag(e.verbForm))
  }

  /** The first integer column, in field order, holding a code its table
      does not know: the column convert_sqlite_to_text panics on. */
  function FirstUnknown(s: StoredEntry): Option<DecodeError> {
    if !Known(s.tag, TagOfCode) then Some(UnknownCode(TagColumn, s.tag.value))
    else if !Known(s.degree, DegreeOfCode) then Some(UnknownCode(DegreeColumn, s.degree.value))
    else if !Known(s.gender, GenderOfCode) then Some(UnknownCode(GenderColumn, s.gender.value))
    else if !Known(s.mood, MoodOfCode) then Some(UnknownCode(MoodColumn, s.mood.value))
    else if !Known(s.mutation, MutationOfCode) then Some(UnknownCode(MutationColumn, s.mutation.value))
    else if !Known(s.nameType, NameTypeOfCode) then Some(UnknownCode(NameTypeColumn, s.nameType.value))
    else if !Known(s.number, NumberOfCode) then Some(UnknownCode(NumberColumn, s.number.value))
    else if !Known(s.numberType, NumberTypeOfCode) then Some(UnknownCode(NumberTypeColumn, s.numberType.value))
    else if !Known(s.person, PersonOfCode) then Some(UnknownCode(PersonColumn, s.person.value))
    else if !Known(s.polite, PoliteOfCode) then Some(UnknownCode(PoliteColumn, s.polite.value))
    else if !Known(s.pronounType, PronounTypeOfCode) then Some(UnknownCode(PronounTypeColumn, s.pronounType.value))
    else if !Known(s.style, StyleOfCode) then Some(UnknownCode(StyleColumn, s.style.value))
    else if !Known(s.tense, TenseOfCode) then Some(UnknownCode(TenseColumn, s.tense.value))
    else None
  }

  /** convert_sqlite_to_text: fails on the first column holding an unknown
      code; otherwise decodes every column through its table. */
  function FromStorage(s: StoredEntry): Result<Entry, DecodeError> {
    match FirstUnknown(s)
    case Some(err) => Err(err)
    case None => Ok(DecodedEntry(s))
  }

  /** The entry a row reads as, column by column; every present flag gives
      its axis's one variant. */
  function DecodedEntry(s: StoredEntry): Entry {
    Entry(
      s.id, s.word, s.lemmaForm,
      Decoded(s.tag, TagOfCode),
      Unflag(s.adpositionType, Preposition),
      Unflag(s.definite, Definite.Definite),
      Decoded(s.degree, DegreeOfCode),
      Decoded(s.gender, GenderOfCode),
      Decoded(s.mood, MoodOfCode),
      Decoded(s.mutation, MutationOfCode),
      Decoded(s.nameType, NameTypeOfCode),
      Decoded(s.number, NumberOfCode),
      Unflag(s.numberForm, Word),
      Decoded(s.numberType, NumberTypeOfCode),
      Decoded(s.person, PersonOfCode),
      Unflag(s.polarity, Polarity.Negative),
      Decoded(s.polite, PoliteOfCode),
      Unflag(s.position, Prenom),
      Unflag(s.possessive, Yes),
      Decoded(s.pronounType, PronounTypeOfCode),
      Unflag(s.relative, Rel),
      Decoded(s.style, StyleOfCode),
      Decoded(s.tense, TenseOfCode),
      Unflag(s.verbForm, Verbnoun))
  }

  /** A stored integer column is absent or holds one of the first n codes. */
  predicate InRange(o: Option<int>, n: int) {
    o.None? || 0 <= o.value < n
  }

  /** Every integer column of the row holds a code its table knows. */
  predicate CodesInRange(s: StoredEntry) {
    && InRange(s.tag, ColumnSize(TagColumn))
    && InRange(s.degree, ColumnSize(DegreeColumn))
    && InRange(s.gender, ColumnSize(GenderColumn))
    && InRange(s.mood, ColumnSize(MoodColumn))
    && InRange(s.mutation, ColumnSize(MutationColumn))
    && InRange(s.nameType, ColumnSize(NameTypeColumn))
    && InRange(s.number, ColumnSize(NumberColumn))
    && InRange(s.numberType, ColumnSize(NumberTypeColumn))
    && InRange(s.person, ColumnSize(PersonColumn))
    && InRange(s.polite, ColumnSize(PoliteColumn))
    && InRange(s.pronounType, ColumnSize(PronounTypeColumn))
    && InRange(s.style, ColumnSize(StyleColumn))
    && InRange(s.tense, ColumnSize(TenseColumn))
  }

  /** A flag is absent or `Some(true)`, the only values the encoder writes. */
  predicate Canonical(f: Option<bool>) {
    f.None? || f.value
  }

  predicate FlagsCanonical(s: StoredEntry) {
    Canonical(s.adpositionType) && Canonical(s.definite) && Canonical(s.numberForm)
    && Canonical(s.polarity) && Canonical(s.position) && Canonical(s.possessive)
    && Canonical(s.relative) && Canonical(s.verbForm)
  }

  /** The row with every present flag rewritten to `Some(true)`. */
  function NormalizeFlags(s: StoredEntry): StoredEntry {
    s.(adpositionType := Flag(s.adpositionType), definite := Flag(s.definite),
       numberForm := Flag(s.numberForm), polarity := Flag(s.polarity),
       position := Flag(s.position), possessive := Flag(s.possessive),
       relative := Flag(s.relative), verbForm := Flag(s.verbForm))
  }

  /** Column of a row, for naming where a decoding error came from. */
  function ColumnValue(s: StoredEntry, c: Column): Option<int> {
    match c
    case TagColumn => s.tag
    case DegreeColumn => s.degree
    case GenderColumn => s.gender
    case MoodColumn => s.mood
    case MutationColumn => s.mutation
    case NameTypeColumn => s.nameType
    case NumberColumn => s.number
    case NumberTypeColumn => s.numberType
    case PersonColumn => s.person
    case PoliteColumn => s.polite
    case PronounTypeColumn => s.pronounType
    case StyleColumn => s.style
    case TenseColumn => s.tense
  }

  /** Number of codes in a column's table. */
  function ColumnSize(c: Column): int {
    match c
    case TagColumn => 12
    case DegreeColumn => 4
    case GenderColumn => 3
    case MoodColumn => 3
    case MutationColumn => 4
    case NameTypeColumn => 2
    case NumberColumn => 3
    case NumberTypeColumn => 2
    case PersonColumn => 4
    case PoliteColumn => 2
    case PronounTypeColumn => 7
    case StyleColumn => 3
    case TenseColumn => 5
  }

  // ---------------------------------------------------------------------
  // The two tables agree, axis by axis
  // ---------------------------------------------------------------------

  lemma TagTable(t: Tag, c: int)
    ensures TagOfCode(TagCode(t)) == Some(t)
    ensures TagOfCode(c).Some? <==> 0 <= c < 12
    ensures TagOfCode(c) == Some(t) ==> TagCode(t) == c
  {
  }

  lemma DegreeTable(d: Degree, c: int)
    ensures DegreeOfCode(DegreeCode(d)) == Some(d)
    ensures DegreeOfCode(c).Some? <==> 0 <= c < 4
    ensures DegreeOfCode(c) == Some(d) ==> DegreeCode(d) == c
  {
  }

  lemma GenderTable(g: Gender, c: int)
    ensures GenderOfCode(GenderCode(g)) == Some(g)
    ensures GenderOfCode(c).Some? <==> 0 <= c < 3
    ensures GenderOfCode(c) == Some(g) ==> GenderCode(g) == c
  {
  }

  lemma MoodTable(m: Mood, c: int)
    ensures MoodOfCode(MoodCode(m)) == Some(m)
    ensures MoodOfCode(c).Some? <==> 0 <= c < 3
    ensures MoodOfCode(c) == Some(m) ==> MoodCode(m) == c
  {
  }

  lemma MutationTable(m: Mutation, c: int)
    ensures MutationOfCode(MutationCode(m)) == Some(m)
    ensures MutationOfCode(c).Some? <==> 0 <= c < 4
    ensures MutationOfCode(c) == Some(m) ==> MutationCode(m) == c
  {
  }

  lemma NameTypeTable(n: NameType, c: int)
    ensures NameTypeOfCode(NameTypeCode(n)) == Some(n)
    ensures NameTypeOfCode(c).Some? <==> 0 <= c < 2
    ensures NameTypeOfCode(c) == Some(n) ==> NameTypeCode(n) == c
  {
  }

  lemma NumberTable(n: Number, c: int)
    ensures NumberOfCode(NumberCode(n)) == Some(n)
    ensures NumberOfCode(c).Some? <==> 0 <= c < 3
    ensures NumberOfCode(c) == Some(n) ==> NumberCode(n) == c
  {
  }

  lemma NumberTypeTable(n: NumberType, c: int)
    ensures NumberTypeOfCode(NumberTypeCode(n)) == Some(n)
    ensures NumberTypeOfCode(c).Some? <==> 0 <= c < 2
    ensures NumberTypeOfCode(c) == Some(n) ==> NumberTypeCode(n) == c
  {
  }

  /** One=0, Three=1, Two=2, Zero=3: not the declaration order. */
  lemma PersonTable(p: Person, c: int)
    ensures PersonOfCode(PersonCode(p)) == Some(p)
    ensures PersonOfCode(c).Some? <==> 0 <= c < 4
    ensures PersonOfCode(c) == Some(p) ==> PersonCode(p) == c
    ensures PersonCode(One) == 0 && PersonCode(Three) == 1 && PersonCode(Two) == 2 && PersonCode(Zero) == 3
  {
  }

  lemma PoliteTable(p: Polite, c: int)
    ensures PoliteOfCode(PoliteCode(p)) == Some(p)
    ensures PoliteOfCode(c).Some? <==> 0 <= c < 2
    ensures PoliteOfCode(c) == Some(p) ==> PoliteCode(p) == c
  {
  }

  /** Reflexive=5 and Relative=6, against their declaration order. */
  lemma PronounTypeTable(p: PronounType, c: int)
    ensures PronounTypeOfCode(PronounTypeCode(p)) == Some(p)
    ensures PronounTypeOfCode(c).Some? <==> 0 <= c < 7
    ensures PronounTypeOfCode(c) == Some(p) ==> PronounTypeCode(p) == c
    ensures PronounTypeCode(Reflexive) == 5 && PronounTypeCode(PronounType.Relative) == 6
  {
  }

  lemma StyleTable(s: Style, c: int)
    ensures StyleOfCode(StyleCode(s)) == Some(s)
    ensures StyleOfCode(c).Some? <==> 0 <= c < 3
    ensures StyleOfCode(c) == Some(s) ==> StyleCode(s) == c
  {
  }

  lemma TenseTable(t: Tense, c: int)
    ensures TenseOfCode(TenseCode(t)) == Some(t)
    ensures TenseOfCode(c).Some? <==> 0 <= c < 5
    ensures TenseOfCode(c) == Some(t) ==> TenseCode(t) == c
  {
  }

  // ---------------------------------------------------------------------
  // Whole-record properties
  // ---------------------------------------------------------------------

  /** One flag of a single-variant axis: reading back what was written. */
  lemma FlagRoundTrip<T>(o: Option<T>, variant: T)
    requires o.Some? ==> o.value == variant
    ensures Unflag(Flag(o), variant) == o
  {
  }

  // Per column: known codes are the in-range ones, re-encoding a decoded
  // code gives it back, and decoding an encoded value gives it back.

  lemma TagColumnCodec(o: Option<int>, x: Option<Tag>)
    ensures Known(o, TagOfCode) <==> InRange(o, 12)
    ensures Known(o, TagOfCode) ==> Encode(Decoded(o, TagOfCode), TagCode) == o
    ensures Known(Encode(x, TagCode), TagOfCode) && Decoded(Encode(x, TagCode), TagOfCode) == x
  {
    if o.Some? { TagTable(Adjective, o.value); }
    if o.Some? && TagOfCode(o.value).Some? { TagTable(TagOfCode(o.value).value, o.value); }
    if x.Some? { TagTable(x.value, 0); }
  }

  lemma DegreeColumnCodec(o: Option<int>, x: Option<Degree>)
    ensures Known(o, DegreeOfCode) <==> InRange(o, 4)
    ensures Known(o, DegreeOfCode) ==> Encode(Decoded(o, DegreeOfCode), DegreeCode) == o
    ensures Known(Encode(x, DegreeCode), DegreeOfCode) && Decoded(Encode(x, DegreeCode), DegreeOfCode) == x
  {
    if o.Some? { DegreeTable(Comparative, o.value); }
    if o.Some? && DegreeOfCode(o.value).Some? { DegreeTable(DegreeOfCode(o.value).value, o.value); }
    if x.Some? { DegreeTable(x.value, 0); }
  }

  lemma GenderColumnCodec(o: Option<int>, x: Option<Gender>)
    ensures Known(o, GenderOfCode) <==> InRange(o, 3)
    ensures Known(o, GenderOfCode) ==> Encode(Decoded(o, GenderOfCode), GenderCode) == o
    ensures Known(Encode(x, GenderCode), GenderOfCode) && Decoded(Encode(x, GenderCode), GenderOfCode) == x
  {
    if o.Some? { GenderTable(Feminine, o.value); }
    if o.Some? && GenderOfCode(o.value).Some? { GenderTable(GenderOfCode(o.value).value, o.value); }
    if x.Some? { GenderTable(x.value, 0); }
  }

  lemma MoodColumnCodec(o: Option<int>, x: Option<Mood>)
    ensures Known(o, MoodOfCode) <==> InRange(o, 3)
    ensures Known(o, MoodOfCode) ==> Encode(Decoded(o, MoodOfCode), MoodCode) == o
    ensures Known(Encode(x, MoodCode), MoodOfCode) && Decoded(Encode(x, MoodCode), MoodOfCode) == x
  {
    if o.Some? { MoodTable(Imperative, o.value); }
    if o.Some? && MoodOfCode(o.value).Some? { MoodTable(MoodOfCode(o.value).value, o.value); }
    if x.Some? { MoodTable(x.value, 0); }
  }

  lemma MutationColumnCodec(o: Option<int>, x: Option<Mutation>)
    ensures Known(o, MutationOfCode) <==> InRange(o, 4)
    ensures Known(o, MutationOfCode) ==> Encode(Decoded(o, MutationOfCode), MutationCode) == o
    ensures Known(Encode(x, MutationCode), MutationOfCode) && Decoded(Encode(x, MutationCode), MutationOfCode) == x
  {
    if o.Some? { MutationTable(Aspirate, o.value); }
    if o.Some? && MutationOfCode(o.value).Some? { MutationTable(MutationOfCode(o.value).value, o.value); }
    if x.Some? { MutationTable(x.value, 0); }
  }

  lemma NameTypeColumnCodec(o: Option<int>, x: Option<NameType>)
    ensures Known(o, NameTypeOfCode) <==> InRange(o, 2)
    ensures Known(o, NameTypeOfCode) ==> Encode(Decoded(o, NameTypeOfCode), NameTypeCode) == o
    ensures Known(Encode(x, NameTypeCode), NameTypeOfCode) && Decoded(Encode(x, NameTypeCode), NameTypeOfCode) == x
  {
    if o.Some? { NameTypeTable(Geographical, o.value); }
    if o.Some? && NameTypeOfCode(o.value).Some? { NameTypeTable(NameTypeOfCode(o.value).value, o.value); }
    if x.Some? { NameTypeTable(x.value, 0); }
  }

  lemma NumberColumnCodec(o: Option<int>, x: Option<Number>)
    ensures Known(o, NumberOfCode) <==> InRange(o, 3)
    ensures Known(o, NumberOfCode) ==> Encode(Decoded(o, NumberOfCode), NumberCode) == o
    ensures Known(Encode(x, NumberCode), NumberOfCode) && Decoded(Encode(x, NumberCode), NumberOfCode) == x
  {
    if o.Some? { NumberTable(Collective, o.value); }
    if o.Some? && NumberOfCode(o.value).Some? { NumberTable(NumberOfCode(o.value).value, o.value); }
    if x.Some? { NumberTable(x.value, 0); }
  }

  lemma NumberTypeColumnCodec(o: Option<int>, x: Option<NumberType>)
    ensures Known(o, NumberTypeOfCode) <==> InRange(o, 2)
    ensures Known(o, NumberTypeOfCode) ==> Encode(Decoded(o, NumberTypeOfCode), NumberTypeCode) == o
    ensures Known(Encode(x, NumberTypeCode), NumberTypeOfCode) && Decoded(Encode(x, NumberTypeCode), NumberTypeOfCode) == x
  {
    if o.Some? { NumberTypeTable(Cardinal, o.value); }
    if o.Some? && NumberTypeOfCode(o.value).Some? { NumberTypeTable(NumberTypeOfCode(o.value).value, o.value); }
    if x.Some? { NumberTypeTable(x.value, 0); }
  }

  lemma PersonColumnCodec(o: Option<int>, x: Option<Person>)
    ensures Known(o, PersonOfCode) <==> InRange(o, 4)
    ensures Known(o, PersonOfCode) ==> Encode(Decoded(o, PersonOfCode), PersonCode) == o
    ensures Known(Encode(x, PersonCode), PersonOfCode) && Decoded(Encode(x, PersonCode), PersonOfCode) == x
  {
    if o.Some? { PersonTable(Zero, o.value); }
    if o.Some? && PersonOfCode(o.value).Some? { PersonTable(PersonOfCode(o.value).value, o.value); }
    if x.Some? { PersonTable(x.value, 0); }
  }

  lemma PoliteColumnCodec(o: Option<int>, x: Option<Polite>)
    ensures Known(o, PoliteOfCode) <==> InRange(o, 2)
    ensures Known(o, PoliteOfCode) ==> Encode(Decoded(o, PoliteOfCode), PoliteCode) == o
    ensures Known(Encode(x, PoliteCode), PoliteOfCode) && Decoded(Encode(x, PoliteCode), PoliteOfCode) == x
  {
    if o.Some? { PoliteTable(Informal, o.value); }
    if o.Some? && PoliteOfCode(o.value).Some? { PoliteTable(PoliteOfCode(o.value).value, o.value); }
    if x.Some? { PoliteTable(x.value, 0); }
  }

  lemma PronounTypeColumnCodec(o: Option<int>, x: Option<PronounType>)
    ensures Known(o, PronounTypeOfCode) <==> InRange(o, 7)
    ensures Known(o, PronounTypeOfCode) ==> Encode(Decoded(o, PronounTypeOfCode), PronounTypeCode) == o
    ensures Known(Encode(x, PronounTypeCode), PronounTypeOfCode) && Decoded(Encode(x, PronounTypeCode), PronounTypeOfCode) == x
  {
    if o.Some? { PronounTypeTable(Article, o.value); }
    if o.Some? && PronounTypeOfCode(o.value).Some? { PronounTypeTable(PronounTypeOfCode(o.value).value, o.value); }
    if x.Some? { PronounTypeTable(x.value, 0); }
  }

  lemma StyleColumnCodec(o: Option<int>, x: Option<Style>)
    ensures Known(o, StyleOfCode) <==> InRange(o, 3)
    ensures Known(o, StyleOfCode) ==> Encode(Decoded(o, StyleOfCode), StyleCode) == o
    ensures Known(Encode(x, StyleCode), StyleOfCode) && Decoded(Encode(x, StyleCode), StyleOfCode) == x
  {
    if o.Some? { StyleTable(Archaic, o.value); }
    if o.Some? && StyleOfCode(o.value).Some? { StyleTable(StyleOfCode(o.value).value, o.value); }
    if x.Some? { StyleTable(x.value, 0); }
  }

  lemma TenseColumnCodec(o: Option<int>, x: Option<Tense>)
    ensures Known(o, TenseOfCode) <==> InRange(o, 5)
    ensures Known(o, TenseOfCode) ==> Encode(Decoded(o, TenseOfCode), TenseCode) == o
    ensures Known(Encode(x, TenseCode), TenseOfCode) && Decoded(Encode(x, TenseCode), TenseOfCode) == x
  {
    if o.Some? { TenseTable(Future, o.value); }
    if o.Some? && TenseOfCode(o.value).Some? { TenseTable(TenseOfCode(o.value).value, o.value); }
    if x.Some? { TenseTable(x.value, 0); }
  }

  /** Text round trip: every entry survives storage, across all 24 fields. */
  lemma TextRoundTrip(e: Entry)
    ensures FromStorage(ToStorage(e)) == Ok(e)
  {
    TagColumnCodec(None, e.tag);
    DegreeColumnCodec(None, e.degree);
    GenderColumnCodec(None, e.gender);
    MoodColumnCodec(None, e.mood);
    MutationColumnCodec(None, e.mutation);
    NameTypeColumnCodec(None, e.nameType);
    NumberColumnCodec(None, e.number);
    NumberTypeColumnCodec(None, e.numberType);
    PersonColumnCodec(None, e.person);
    PoliteColumnCodec(None, e.polite);
    PronounTypeColumnCodec(None, e.pronounType);
    StyleColumnCodec(None, e.style);
    TenseColumnCodec(None, e.tense);
    assert FirstUnknown(ToStorage(e)) == None;
    SingleVariantAxes(e);
    FlagRoundTrip(e.adpositionType, Preposition);
    FlagRoundTrip(e.definite, Definite.Definite);
    FlagRoundTrip(e.numberForm, Word);
    FlagRoundTrip(e.polarity, Polarity.Negative);
    FlagRoundTrip(e.position, Prenom);
    FlagRoundTrip(e.possessive, Yes);
    FlagRoundTrip(e.relative, Rel);
    FlagRoundTrip(e.verbForm, Verbnoun);
  }

  /** Per column, being known to the table is being in range. */
  lemma KnownIffInRange(s: StoredEntry)
    ensures Known(s.tag, TagOfCode) <==> InRange(s.tag, 12)
    ensures Known(s.degree, DegreeOfCode) <==> InRange(s.degree, 4)
    ensures Known(s.gender, GenderOfCode) <==> InRange(s.gender, 3)
    ensures Known(s.mood, MoodOfCode) <==> InRange(s.mood, 3)
    ensures Known(s.mutation, MutationOfCode) <==> InRange(s.mutation, 4)
    ensures Known(s.nameType, NameTypeOfCode) <==> InRange(s.nameType, 2)
    ensures Known(s.number, NumberOfCode) <==> InRange(s.number, 3)
    ensures Known(s.numberType, NumberTypeOfCode) <==> InRange(s.numberType, 2)
    ensures Known(s.person, PersonOfCode) <==> InRange(s.person, 4)
    ensures Known(s.polite, PoliteOfCode) <==> InRange(s.polite, 2)
    ensures Known(s.pronounType, PronounTypeOfCode) <==> InRange(s.pronounType, 7)
    ensures Known(s.style, StyleOfCode) <==> InRange(s.style, 3)
    ensures Known(s.tense, TenseOfCode) <==> InRange(s.tense, 5)
  {
    TagColumnCodec(s.tag, None);
    DegreeColumnCodec(s.degree, None);
    GenderColumnCodec(s.gender, None);
    MoodColumnCodec(s.mood, None);
    MutationColumnCodec(s.mutation, None);
    NameTypeColumnCodec(s.nameType, None);
    NumberColumnCodec(s.number, None);
    NumberTypeColumnCodec(s.numberType, None);
    PersonColumnCodec(s.person, None);
    PoliteColumnCodec(s.polite, None);
    PronounTypeColumnCodec(s.pronounType, None);
    StyleColumnCodec(s.style, None);
    TenseColumnCodec(s.tense, None);
  }

  /** What the encoder writes: known codes and canonical flags only. */
  lemma EncodedRowIsCanonical(e: Entry)
    ensures CodesInRange(ToStorage(e)) && FlagsCanonical(ToStorage(e))
  {
    TextRoundTrip(e);
    DecodeSucceedsIffInRange(ToStorage(e));
  }

  /** Storage decoding is partial: it succeeds exactly on rows whose every
      integer column is absent or in range. */
  lemma DecodeSucceedsIffInRange(s: StoredEntry)
    ensures FromStorage(s).Ok? <==> CodesInRange(s)
  {
    KnownIffInRange(s);
  }

  /** A failed read names a column that holds a code outside its table. */
  lemma DecodeErrorNamesBadColumn(s: StoredEntry)
    requires FromStorage(s).Err?
    ensures var err := FromStorage(s).error;
      ColumnValue(s, err.column) == Some(err.code)
      && !(0 <= err.code < ColumnSize(err.column))
  {
    KnownIffInRange(s);
  }

  /** A flag stored as `Some(false)` reads exactly like `Some(true)`. */
  lemma FlagValueIgnored(s: StoredEntry)
    ensures FromStorage(s) == FromStorage(NormalizeFlags(s))
  {
  }

  /** Re-encoding the decoded integer columns of a readable row gives its codes back. */
  lemma CodesReencoded(s: StoredEntry)
    requires FirstUnknown(s) == None
    ensures Encode(Decoded(s.tag, TagOfCode), TagCode) == s.tag
    ensures Encode(Decoded(s.degree, DegreeOfCode), DegreeCode) == s.degree
    ensures Encode(Decoded(s.gender, GenderOfCode), GenderCode) == s.gender
    ensures Encode(Decoded(s.mood, MoodOfCode), MoodCode) == s.mood
    ensures Encode(Decoded(s.mutation, MutationOfCode), MutationCode) == s.mutation
    ensures Encode(Decoded(s.nameType, NameTypeOfCode), NameTypeCode) == s.nameType
    ensures Encode(Decoded(s.number, NumberOfCode), NumberCode) == s.number
    ensures Encode(Decoded(s.numberType, NumberTypeOfCode), NumberTypeCode) == s.numberType
    ensures Encode(Decoded(s.person, PersonOfCode), PersonCode) == s.person
    ensures Encode(Decoded(s.polite, PoliteOfCode), PoliteCode) == s.polite
    ensures Encode(Decoded(s.pronounType, PronounTypeOfCode), PronounTypeCode) == s.pronounType
    ensures Encode(Decoded(s.style, StyleOfCode), StyleCode) == s.style
    ensures Encode(Decoded(s.tense, TenseOfCode), TenseCode) == s.tense
  {
    TagColumnCodec(s.tag, None);
    DegreeColumnCodec(s.degree, None);
    GenderColumnCodec(s.gender, None);
    MoodColumnCodec(s.mood, None);
    MutationColumnCodec(s.mutation, None);
    NameTypeColumnCodec(s.nameType, None);
    NumberColumnCodec(s.number, None);
    NumberTypeColumnCodec(s.numberType, None);
    PersonColumnCodec(s.person, None);
    PoliteColumnCodec(s.polite, None);
    PronounTypeColumnCodec(s.pronounType, None);
    StyleColumnCodec(s.style, None);
    TenseColumnCodec(s.tense, None);
  }

  /** Re-encoding a readable row gives the row with its flags normalised. */
  lemma ReencodeNormalizes(s: StoredEntry)
    requires FirstUnknown(s) == None
    ensures ToStorage(DecodedEntry(s)) == NormalizeFlags(s)
  {
    CodesReencoded(s);
  }

  lemma NormalizeKeepsCanonical(s: StoredEntry)
    ensures NormalizeFlags(s) == s <==> FlagsCanonical(s)
  {
  }

  /** Storage -> text -> storage normalises the flags, so it is the identity
      exactly on rows whose flags are canonical (the codes being in range for
      the read to succeed). */
  lemma StorageRoundTrip(s: StoredEntry)
    requires FromStorage(s).Ok?
    ensures ToStorage(FromStorage(s).value) == NormalizeFlags(s)
    ensures ToStorage(FromStorage(s).value) == s <==> FlagsCanonical(s)
  {
    ReencodeNormalizes(s);
    NormalizeKeepsCanonical(s);
  }

  // ---------------------------------------------------------------------
  // Sequences of rows
  // ---------------------------------------------------------------------

  /** Decodes rows in order; the first unknown code stops the read. */
  function DecodeAll(rows: seq<StoredEntry>): (r: Result<seq<Entry>, DecodeError>)
    ensures r.Ok? <==> forall k :: 0 <= k < |rows| ==> FromStorage(rows[k]).Ok?
    ensures r.Ok? ==> |r.value| == |rows|
    ensures r.Ok? ==> forall k :: 0 <= k < |rows| ==> r.value[k] == FromStorage(rows[k]).value
  {
    if rows == [] then Ok([])
    else
      var first :- FromStorage(rows[0]);
      var rest :- DecodeAll(rows[1..]);
      Ok([first] + rest)
  }

  /** A failed batch decode names a row that fails to decode. */
  lemma DecodeFailsAt(rows: seq<StoredEntry>)
    requires DecodeAll(rows).Err?
    ensures exists i :: 0 <= i < |rows| && FromStorage(rows[i]).Err?
  {
  }

  /** convert_csv_to_sqlite_format: every entry encoded, and reading the
      encoded rows back gives the entries again. */
  function ToStorageAll(data: seq<Entry>): (r: seq<StoredEntry>)
    ensures |r| == |data|
    ensures DecodeAll(r) == Ok(data)
    ensures forall k :: 0 <= k < |r| ==> r[k].id == data[k].id && r[k].word == data[k].word
    ensures forall k :: 0 <= k < |r| ==> r[k] == ToStorage(data[k])
  {
    var r := seq(|data|, k requires 0 <= k < |data| => ToStorage(data[k]));
    forall k | 0 <= k < |data| ensures FromStorage(r[k]) == Ok(data[k]) {
      TextRoundTrip(data[k]);
    }
    assert DecodeAll(r).value == data;
    r
  }
}
