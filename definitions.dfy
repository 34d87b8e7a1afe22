/** The lexicon's vocabulary: one closed enumeration per grammatical axis,
    the symbolic entry record and its storage-encoded twin. */
module Definitions {
  import opened Wrappers

  /** Part-of-speech class; twelve variants, stored as the codes 0..11. */
  datatype Tag =
    | Adjective | Adposition | Adverb | Conjugation | Determiner | Interjection
    | Noun | Number | Particle | Pronoun | ProperNoun | Verb

  datatype AdpositionType = Preposition
  datatype Definite = Definite
  datatype Degree = Comparative | Equative | Positive | Superlative
  datatype Gender = Feminine | FeminineMasculine | Masculine
  datatype Mood = Imperative | Indicative | Subjunctive
  datatype Mutation = Aspirate | HProthesis | Nasal | Soft
  datatype NameType = Geographical | Person
  datatype Number = Collective | Plural | Singular
  datatype NumberForm = Word
  datatype NumberType = Cardinal | Ordinal
  /** Declared Zero, One, Two, Three; the storage codes follow another order. */
  datatype Person = Zero | One | Two | Three
  datatype Polarity = Negative
  datatype Polite = Formal | Informal
  datatype Position = Prenom
  datatype Possessive = Yes
  /** Declared with Relative before Reflexive; the storage codes swap them. */
  datatype PronounType =
    | Article | Demonstrative | Interrogative | Negative | Personal | Relative | Reflexive
  datatype Relative = Rel
  datatype Style = Archaic | Colloquial | Formal
  datatype Tense = Future | Imperfect | Past | Plusquamperfekt | Present
  datatype VerbForm = Verbnoun

  /** A lexicon entry: `id` and `word` are always present, every other field
      is optional. Equality is structural over all 24 fields, `id` included. */
  datatype Entry = Entry(
    id: int,
    word: string,
    lemmaForm: Option<string>,
    tag: Option<Tag>,
    adpositionType: Option<AdpositionType>,
    definite: Option<Definite>,
    degree: Option<Degree>,
    gender: Option<Gender>,
    mood: Option<Mood>,
    mutation: Option<Mutation>,
    nameType: Option<NameType>,
    number: Option<Number>,
    numberForm: Option<NumberForm>,
    numberType: Option<NumberType>,
    person: Option<Person>,
    polarity: Option<Polarity>,
    polite: Option<Polite>,
    position: Option<Position>,
    possessive: Option<Possessive>,
    pronounType: Option<PronounType>,
    relative: Option<Relative>,
    style: Option<Style>,
    tense: Option<Tense>,
    verbForm: Option<VerbForm>)

  /** The stored row: the same fields, with every multi-variant axis as an
      optional integer code and every single-variant axis as an optional flag. */
  datatype StoredEntry = StoredEntry(
    id: int,
    word: string,
    lemmaForm: Option<string>,
    tag: Option<int>,
    adpositionType: Option<bool>,
    definite: Option<bool>,
    degree: Option<int>,
    gender: Option<int>,
    mood: Option<int>,
    mutation: Option<int>,
    nameType: Option<int>,
    number: Option<int>,
    numberForm: Option<bool>,
    numberType: Option<int>,
    person: Option<int>,
    polarity: Option<bool>,
    polite: Option<int>,
    position: Option<bool>,
    possessive: Option<bool>,
    pronounType: Option<int>,
    relative: Option<bool>,
    style: Option<int>,
    tense: Option<int>,
    verbForm: Option<bool>)

  /** The single-variant axes really have one value each, so a presence
      flag carries all their information: a present field holds that variant. */
  lemma SingleVariantAxes(e: Entry)
    ensures e.adpositionType.Some? ==> e.adpositionType == Some(Preposition)
    ensures e.definite.Some? ==> e.definite == Some(Definite.Definite)
    ensures e.numberForm.Some? ==> e.numberForm == Some(Word)
    ensures e.polarity.Some? ==> e.polarity == Some(Polarity.Negative)
    ensures e.position.Some? ==> e.position == Some(Prenom)
    ensures e.possessive.Some? ==> e.possessive == Some(Yes)
    ensures e.relative.Some? ==> e.relative == Some(Rel)
    ensures e.verbForm.Some? ==> e.verbForm == Some(Verbnoun)
  {
    match e.adpositionType { case None => case Some(x) => assert x == Preposition; }
    match e.definite { case None => case Some(x) => assert x == Definite.Definite; }
    match e.numberForm { case None => case Some(x) => assert x == Word; }
    match e.polarity { case None => case Some(x) => assert x == Polarity.Negative; }
    match e.position { case None => case Some(x) => assert x == Prenom; }
    match e.possessive { case None => case Some(x) => assert x == Yes; }
    match e.relative { case None => case Some(x) => assert x == Rel; }
    match e.verbForm { case None => case Some(x) => assert x == Verbnoun; }
  }
}
