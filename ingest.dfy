/** Ingestion of the tab-separated lexicon, from the point where the reader
    hands over its records: each record is seeded from the sentinel entry,
    its part of speech decoded, its id chosen from a window of the 20 most
    recent (word, id) pairs, and its `|`-separated tag pairs applied. */
module Ingest {
  import opened Wrappers
  import opened Definitions
  import opened Ids

  /** `Default for LecsiconEntry`: the sentinel every record starts from. Its
      id lies below every id the loader assigns and it has neither lemma nor
      tag, so an entry still holding it is recognisable. */
  function Sentinel(): (e: Entry)
    ensures e.id < FirstId && e.lemmaForm.None? && e.tag.None?
  {
    Entry(-99, "ERROR", None, None, None, None, None, None, None,
          None, None, None, None, None, None, None, None, None,
          None, None, None, None, None, None)
  }

  /** The id a record gets before the window is consulted. */
  const FirstId: int := 101

  /** How many recent (word, id) pairs the window keeps. */
  const WindowSize: nat := 20

  /** What the delimited-text reader yields per record. */
  datatype CsvRecord = ReadError | Fields(fields: seq<string>)

  /** The two panics of ingestion. */
  datatype IngestError = UnknownPartOfSpeech(code: string) | UnknownTagPair(pair: string)

  /** `Some(entries)`, the `None` that a missing mandatory column returns
      through `?`, or a panic. */
  datatype LoadResult = Loaded(entries: seq<Entry>) | MissingColumn | Aborted(error: IngestError)

  // ---------------------------------------------------------------------
  // Part of speech (third column)
  // ---------------------------------------------------------------------

  function PosOfCode(code: string): Option<Tag> {
    match code
    case "ADJ" => Some(Adjective)
    case "ADP" => Some(Adposition)
    case "ADV" => Some(Adverb)
    case "CONJ" => Some(Conjugation)
    case "DET" => Some(Determiner)
    case "INTJ" => Some(Interjection)
    case "NOUN" => Some(Noun)
    case "NUM" => Some(Tag.Number)
    case "PART" => Some(Particle)
    case "PRON" => Some(Pronoun)
    case "PROPN" => Some(ProperNoun)
    case "VERB" => Some(Verb)
    case _ => None
  }

  /** The code each part of speech is written as in the lexicon file. */
  function PosName(t: Tag): string {
    match t
    case Adjective => "ADJ"
    case Adposition => "ADP"
    case Adverb => "ADV"
    case Conjugation => "CONJ"
    case Determiner => "DET"
    case Interjection => "INTJ"
    case Noun => "NOUN"
    case Number => "NUM"
    case Particle => "PART"
    case Pronoun => "PRON"
    case ProperNoun => "PROPN"
    case Verb => "VERB"
  }

  /** Every part of speech has exactly one code, and only those codes decode. */
  lemma PosCodes(t: Tag, code: string)
    ensures PosOfCode(PosName(t)) == Some(t)
    ensures PosOfCode(code) == Some(t) ==> code == PosName(t)
  {
  }

  // ---------------------------------------------------------------------
  // Tag pairs (fourth column)
  // ---------------------------------------------------------------------

  /** The feature axes a tag pair can set. */
  datatype Axis =
    | AdpositionTypeAxis | DefiniteAxis | DegreeAxis | GenderAxis | MoodAxis
    | MutationAxis | NameTypeAxis | NumberAxis | NumberFormAxis | NumberTypeAxis
    | PersonAxis | PolarityAxis | PoliteAxis | PositionAxis | PossessiveAxis
    | PronounTypeAxis | RelativeAxis | StyleAxis | TenseAxis | VerbFormAxis

  /** One recognised tag pair: an axis with its value. */
  datatype Feature =
    | AdpositionTypeIs(AdpositionType) | DefiniteIs(Definite) | DegreeIs(Degree)
    | GenderIs(Gender) | MoodIs(Mood) | MutationIs(Mutation) | NameTypeIs(NameType)
    | NumberIs(Number) | NumberFormIs(NumberForm) | NumberTypeIs(NumberType)
    | PersonIs(Person) | PolarityIs(Polarity) | PoliteIs(Polite) | PositionIs(Position)
    | PossessiveIs(Possessive) | PronounTypeIs(PronounType) | RelativeIs(Relative)
    | StyleIs(Style) | TenseIs(Tense) | VerbFormIs(VerbForm)

  function FeatureAxis(f: Feature): Axis {
    match f
    case AdpositionTypeIs(_) => AdpositionTypeAxis
    case DefiniteIs(_) => DefiniteAxis
    case DegreeIs(_) => DegreeAxis
    case GenderIs(_) => GenderAxis
    case MoodIs(_) => MoodAxis
    case MutationIs(_) => MutationAxis
    case NameTypeIs(_) => NameTypeAxis
    case NumberIs(_) => NumberAxis
    case NumberFormIs(_) => NumberFormAxis
    case NumberTypeIs(_) => NumberTypeAxis
    case PersonIs(_) => PersonAxis
    case PolarityIs(_) => PolarityAxis
    case PoliteIs(_) => PoliteAxis
    case PositionIs(_) => PositionAxis
    case PossessiveIs(_) => PossessiveAxis
    case PronounTypeIs(_) => PronounTypeAxis
    case RelativeIs(_) => RelativeAxis
    case StyleIs(_) => StyleAxis
    case TenseIs(_) => TenseAxis
    case VerbFormIs(_) => VerbFormAxis
  }

  /** The vocabulary of tag pairs; anything else is unrecognised. */
  function PairFeature(pair: string): Option<Feature> {
    match pair
    case "AdpType=Prep" => Some(AdpositionTypeIs(Preposition))
    case "Definite=Def" => Some(DefiniteIs(Definite.Definite))
    case "Degree=Cmp" => Some(DegreeIs(Comparative))
    case "Degree=Equ" => Some(DegreeIs(Equative))
    case "Degree=Pos" => Some(DegreeIs(Positive))
    case "Degree=Sup" => Some(DegreeIs(Superlative))
    case "Gender=Fem" => Some(GenderIs(Feminine))
    case "Gender=Fem,Masc" => Some(GenderIs(FeminineMasculine))
    case "Gender=Masc" => Some(GenderIs(Masculine))
    case "Mood=Imp" => Some(MoodIs(Imperative))
    case "Mood=Ind" => Some(MoodIs(Indicative))
    case "Mood=Sub" => Some(MoodIs(Subjunctive))
    case "Mutation=AM" => Some(MutationIs(Aspirate))
    case "Mutation=HM" => Some(MutationIs(HProthesis))
    case "Mutation=NM" => Some(MutationIs(Nasal))
    case "Mutation=SM" => Some(MutationIs(Soft))
    case "NameType=Geo" => Some(NameTypeIs(Geographical))
    case "NameType=Prs" => Some(NameTypeIs(NameType.Person))
    case "Number=Coll" => Some(NumberIs(Collective))
    case "Number=Plur" => Some(NumberIs(Plural))
    case "Number=Sing" => Some(NumberIs(Singular))
    case "Numform=Word" => Some(NumberFormIs(Word))
    case "Numtype=Card" => Some(NumberTypeIs(Cardinal))
    case "Numtype=Ord" => Some(NumberTypeIs(Ordinal))
    case "Person=0" => Some(PersonIs(Zero))
    case "Person=1" => Some(PersonIs(One))
    case "Person=2" => Some(PersonIs(Two))
    case "Person=3" => Some(PersonIs(Three))
    case "Polarity=Neg" => Some(PolarityIs(Polarity.Negative))
    case "Polite=Form" => Some(PoliteIs(Polite.Formal))
    case "Polite=Inf" => Some(PoliteIs(Informal))
    case "Position=Prenom" => Some(PositionIs(Prenom))
    case "Poss=Yes" => Some(PossessiveIs(Yes))
    case "PronType=Art" => Some(PronounTypeIs(Article))
    case "PronType=Dem" => Some(PronounTypeIs(Demonstrative))
    case "PronType=Int" => Some(PronounTypeIs(Interrogative))
    case "PronType=Neg" => Some(PronounTypeIs(PronounType.Negative))
    case "PronType=Prs" => Some(PronounTypeIs(Personal))
    case "PronType=Rel" => Some(PronounTypeIs(PronounType.Relative))
    case "PronType=Tot" => Some(PronounTypeIs(Reflexive))
    case "Relative=Rel" => Some(RelativeIs(Rel))
    case "Style=Arch" => Some(StyleIs(Archaic))
    case "Style=Coll" => Some(StyleIs(Colloquial))
    case "Style=Form" => Some(StyleIs(Style.Formal))
    case "Tense=Fut" => Some(TenseIs(Future))
    case "Tense=Imp" => Some(TenseIs(Imperfect))
    case "Tense=Past" => Some(TenseIs(Past))
    case "Tense=Pqp" => Some(TenseIs(Plusquamperfekt))
    case "Tense=Pres" => Some(TenseIs(Present))
    case "VerbForm=Vnoun" => Some(VerbFormIs(Verbnoun))
    case _ => None
  }

  /** The one spelling of each feature in the lexicon file. */
  function PairText(f: Feature): string {
    match f
    case AdpositionTypeIs(Preposition) => "AdpType=Prep"
    case DefiniteIs(Definite) => "Definite=Def"
    case DegreeIs(Comparative) => "Degree=Cmp"
    case DegreeIs(Equative) => "Degree=Equ"
    case DegreeIs(Positive) => "Degree=Pos"
    case DegreeIs(Superlative) => "Degree=Sup"
    case GenderIs(Feminine) => "Gender=Fem"
    case GenderIs(FeminineMasculine) => "Gender=Fem,Masc"
    case GenderIs(Masculine) => "Gender=Masc"
    case MoodIs(Imperative) => "Mood=Imp"
    case MoodIs(Indicative) => "Mood=Ind"
    case MoodIs(Subjunctive) => "Mood=Sub"
    case MutationIs(Aspirate) => "Mutation=AM"
    case MutationIs(HProthesis) => "Mutation=HM"
    case MutationIs(Nasal) => "Mutation=NM"
    case MutationIs(Soft) => "Mutation=SM"
    case NameTypeIs(Geographical) => "NameType=Geo"
    case NameTypeIs(Person) => "NameType=Prs"
    case NumberIs(Collective) => "Number=Coll"
    case NumberIs(Plural) => "Number=Plur"
    case NumberIs(Singular) => "Number=Sing"
    case NumberFormIs(Word) => "Numform=Word"
    case NumberTypeIs(Cardinal) => "Numtype=Card"
    case NumberTypeIs(Ordinal) => "Numtype=Ord"
    case PersonIs(Zero) => "Person=0"
    case PersonIs(One) => "Person=1"
    case PersonIs(Two) => "Person=2"
    case PersonIs(Three) => "Person=3"
    case PolarityIs(Negative) => "Polarity=Neg"
    case PoliteIs(Formal) => "Polite=Form"
    case PoliteIs(Informal) => "Polite=Inf"
    case PositionIs(Prenom) => "Position=Prenom"
    case PossessiveIs(Yes) => "Poss=Yes"
    case PronounTypeIs(Article) => "PronType=Art"
    case PronounTypeIs(Demonstrative) => "PronType=Dem"
    case PronounTypeIs(Interrogative) => "PronType=Int"
    case PronounTypeIs(Negative) => "PronType=Neg"
    case PronounTypeIs(Personal) => "PronType=Prs"
    case PronounTypeIs(Relative) => "PronType=Rel"
    case PronounTypeIs(Reflexive) => "PronType=Tot"
    case RelativeIs(Rel) => "Relative=Rel"
    case StyleIs(Archaic) => "Style=Arch"
    case StyleIs(Colloquial) => "Style=Coll"
    case StyleIs(Formal) => "Style=Form"
    case TenseIs(Future) => "Tense=Fut"
    case TenseIs(Imperfect) => "Tense=Imp"
    case TenseIs(Past) => "Tense=Past"
    case TenseIs(Plusquamperfekt) => "Tense=Pqp"
    case TenseIs(Present) => "Tense=Pres"
    case VerbFormIs(Verbnoun) => "VerbForm=Vnoun"
  }

  // Each spelling of a multi-variant axis decodes to its value.

  lemma DegreeSpellings(v: Degree)
    ensures PairFeature(PairText(DegreeIs(v))) == Some(DegreeIs(v))
  {
    match v {
      case Comparative => assert PairFeature("Degree=Cmp").Some?;
      case Equative => assert PairFeature("Degree=Equ").Some?;
      case Positive => assert PairFeature("Degree=Pos").Some?;
      case Superlative => assert PairFeature("Degree=Sup").Some?;
    }
  }

  lemma GenderSpellings(v: Gender)
    ensures PairFeature(PairText(GenderIs(v))) == Some(GenderIs(v))
  {
    match v {
      case Feminine => assert PairFeature("Gender=Fem").Some?;
      case FeminineMasculine => assert PairFeature("Gender=Fem,Masc").Some?;
      case Masculine => assert PairFeature("Gender=Masc").Some?;
    }
  }

  lemma MoodSpellings(v: Mood)
    ensures PairFeature(PairText(MoodIs(v))) == Some(MoodIs(v))
  {
    match v {
      case Imperative => assert PairFeature("Mood=Imp").Some?;
      case Indicative => assert PairFeature("Mood=Ind").Some?;
      case Subjunctive => assert PairFeature("Mood=Sub").Some?;
    }
  }

  lemma MutationSpellings(v: Mutation)
    ensures PairFeature(PairText(MutationIs(v))) == Some(MutationIs(v))
  {
    match v {
      case Aspirate => assert PairFeature("Mutation=AM").Some?;
      case HProthesis => assert PairFeature("Mutation=HM").Some?;
      case Nasal => assert PairFeature("Mutation=NM").Some?;
      case Soft => assert PairFeature("Mutation=SM").Some?;
    }
  }

  lemma NameTypeSpellings(v: NameType)
    ensures PairFeature(PairText(NameTypeIs(v))) == Some(NameTypeIs(v))
  {
    match v {
      case Geographical => assert PairFeature("NameType=Geo").Some?;
      case Person => assert PairFeature("NameType=Prs").Some?;
    }
  }

  lemma NumberSpellings(v: Number)
    ensures PairFeature(PairText(NumberIs(v))) == Some(NumberIs(v))
  {
    match v {
      case Collective => assert PairFeature("Number=Coll").Some?;
      case Plural => assert PairFeature("Number=Plur").Some?;
      case Singular => assert PairFeature("Number=Sing").Some?;
    }
  }

  lemma NumberTypeSpellings(v: NumberType)
    ensures PairFeature(PairText(NumberTypeIs(v))) == Some(NumberTypeIs(v))
  {
    match v {
      case Cardinal => assert PairFeature("Numtype=Card").Some?;
      case Ordinal => assert PairFeature("Numtype=Ord").Some?;
    }
  }

  lemma PersonSpellings(v: Person)
    ensures PairFeature(PairText(PersonIs(v))) == Some(PersonIs(v))
  {
    match v {
      case Zero => assert PairFeature("Person=0").Some?;
      case One => assert PairFeature("Person=1").Some?;
      case Two => assert PairFeature("Person=2").Some?;
      case Three => assert PairFeature("Person=3").Some?;
    }
  }

  lemma PoliteSpellings(v: Polite)
    ensures PairFeature(PairText(PoliteIs(v))) == Some(PoliteIs(v))
  {
    match v {
      case Formal => assert PairFeature("Polite=Form").Some?;
      case Informal => assert PairFeature("Polite=Inf").Some?;
    }
  }

  lemma PronounTypeSpellings(v: PronounType)
    ensures PairFeature(PairText(PronounTypeIs(v))) == Some(PronounTypeIs(v))
  {
    match v {
      case Article => assert PairFeature("PronType=Art").Some?;
      case Demonstrative => assert PairFeature("PronType=Dem").Some?;
      case Interrogative => assert PairFeature("PronType=Int").Some?;
      case Negative => assert PairFeature("PronType=Neg").Some?;
      case Personal => assert PairFeature("PronType=Prs").Some?;
      case Relative => assert PairFeature("PronType=Rel").Some?;
      case Reflexive => assert PairFeature("PronType=Tot").Some?;
    }
  }

  lemma StyleSpellings(v: Style)
    ensures PairFeature(PairText(StyleIs(v))) == Some(StyleIs(v))
  {
    match v {
      case Archaic => assert PairFeature("Style=Arch").Some?;
      case Colloquial => assert PairFeature("Style=Coll").Some?;
      case Formal => assert PairFeature("Style=Form").Some?;
    }
  }

  lemma TenseSpellings(v: Tense)
    ensures PairFeature(PairText(TenseIs(v))) == Some(TenseIs(v))
  {
    match v {
      case Future => assert PairFeature("Tense=Fut").Some?;
      case Imperfect => assert PairFeature("Tense=Imp").Some?;
      case Past => assert PairFeature("Tense=Past").Some?;
      case Plusquamperfekt => assert PairFeature("Tense=Pqp").Some?;
      case Present => assert PairFeature("Tense=Pres").Some?;
    }
  }

  /** Every feature is reachable: its spelling decodes to it. */
  lemma PairTextDecodes(f: Feature)
    ensures PairFeature(PairText(f)) == Some(f)
  {
    match f {
      case AdpositionTypeIs(x) => assert x == Preposition; assert PairFeature("AdpType=Prep").Some?;
      case DefiniteIs(x) => assert x == Definite.Definite; assert PairFeature("Definite=Def").Some?;
      case DegreeIs(v) => DegreeSpellings(v);
      case GenderIs(v) => GenderSpellings(v);
      case MoodIs(v) => MoodSpellings(v);
      case MutationIs(v) => MutationSpellings(v);
      case NameTypeIs(v) => NameTypeSpellings(v);
      case NumberIs(v) => NumberSpellings(v);
      case NumberFormIs(x) => assert x == Word; assert PairFeature("Numform=Word").Some?;
      case NumberTypeIs(v) => NumberTypeSpellings(v);
      case PersonIs(v) => PersonSpellings(v);
      case PolarityIs(x) => assert x == Polarity.Negative; assert PairFeature("Polarity=Neg").Some?;
      case PoliteIs(v) => PoliteSpellings(v);
      case PositionIs(x) => assert x == Prenom; assert PairFeature("Position=Prenom").Some?;
      case PossessiveIs(x) => assert x == Yes; assert PairFeature("Poss=Yes").Some?;
      case PronounTypeIs(v) => PronounTypeSpellings(v);
      case RelativeIs(x) => assert x == Rel; assert PairFeature("Relative=Rel").Some?;
      case StyleIs(v) => StyleSpellings(v);
      case TenseIs(v) => TenseSpellings(v);
      case VerbFormIs(x) => assert x == Verbnoun; assert PairFeature("VerbForm=Vnoun").Some?;
    }
  }

  /** Sets the one field a feature names. */
  function SetFeature(e: Entry, f: Feature): Entry {
    match f
    case AdpositionTypeIs(v) => e.(adpositionType := Some(v))
    case DefiniteIs(v) => e.(definite := Some(v))
    case DegreeIs(v) => e.(degree := Some(v))
    case GenderIs(v) => e.(gender := Some(v))
    case MoodIs(v) => e.(mood := Some(v))
    case MutationIs(v) => e.(mutation := Some(v))
    case NameTypeIs(v) => e.(nameType := Some(v))
    case NumberIs(v) => e.(number := Some(v))
    case NumberFormIs(v) => e.(numberForm := Some(v))
    case NumberTypeIs(v) => e.(numberType := Some(v))
    case PersonIs(v) => e.(person := Some(v))
    case PolarityIs(v) => e.(polarity := Some(v))
    case PoliteIs(v) => e.(polite := Some(v))
    case PositionIs(v) => e.(position := Some(v))
    case PossessiveIs(v) => e.(possessive := Some(v))
    case PronounTypeIs(v) => e.(pronounType := Some(v))
    case RelativeIs(v) => e.(relative := Some(v))
    case StyleIs(v) => e.(style := Some(v))
    case TenseIs(v) => e.(tense := Some(v))
    case VerbFormIs(v) => e.(verbForm := Some(v))
  }

  /** A later pair on the same axis overwrites an earlier one. */
  lemma SameAxisOverwrites(e: Entry, f: Feature, g: Feature)
    requires FeatureAxis(f) == FeatureAxis(g)
    ensures SetFeature(SetFeature(e, f), g) == SetFeature(e, g)
  {
    match f
    case AdpositionTypeIs(_) => assert g.AdpositionTypeIs?;
    case DefiniteIs(_) => assert g.DefiniteIs?;
    case DegreeIs(_) => assert g.DegreeIs?;
    case GenderIs(_) => assert g.GenderIs?;
    case MoodIs(_) => assert g.MoodIs?;
    case MutationIs(_) => assert g.MutationIs?;
    case NameTypeIs(_) => assert g.NameTypeIs?;
    case NumberIs(_) => assert g.NumberIs?;
    case NumberFormIs(_) => assert g.NumberFormIs?;
    case NumberTypeIs(_) => assert g.NumberTypeIs?;
    case PersonIs(_) => assert g.PersonIs?;
    case PolarityIs(_) => assert g.PolarityIs?;
    case PoliteIs(_) => assert g.PoliteIs?;
    case PositionIs(_) => assert g.PositionIs?;
    case PossessiveIs(_) => assert g.PossessiveIs?;
    case PronounTypeIs(_) => assert g.PronounTypeIs?;
    case RelativeIs(_) => assert g.RelativeIs?;
    case StyleIs(_) => assert g.StyleIs?;
    case TenseIs(_) => assert g.TenseIs?;
    case VerbFormIs(_) => assert g.VerbFormIs?;
  }

  /** Blank pairs: the empty string and a single space, both ignored. */
  predicate Blank(pair: string) {
    pair == "" || pair == " "
  }

  /** A pair that is neither blank nor in the vocabulary; it panics. */
  predicate Unrecognised(pair: string) {
    !Blank(pair) && PairFeature(pair).None?
  }

  /** One arm of the tag-pair match. */
  function ApplyTagPair(e: Entry, pair: string): (r: Result<Entry, IngestError>)
    ensures r.Err? <==> Unrecognised(pair)
    ensures r.Err? ==> r.error == UnknownTagPair(pair)
    ensures Blank(pair) ==> r == Ok(e)
    ensures r.Ok? ==> (r.value.id == e.id && r.value.word == e.word
                       && r.value.lemmaForm == e.lemmaForm && r.value.tag == e.tag)
  {
    if Blank(pair) then Ok(e)
    else match PairFeature(pair)
      case Some(f) => Ok(SetFeature(e, f))
      case None => Err(UnknownTagPair(pair))
  }

  /** The tag pairs applied left to right; the first unrecognised one aborts. */
  function ApplyPairs(e: Entry, pairs: seq<string>): Result<Entry, IngestError>
    decreases |pairs|
  {
    if pairs == [] then Ok(e)
    else match ApplyTagPair(e, pairs[0])
      case Err(err) => Err(err)
      case Ok(e') => ApplyPairs(e', pairs[1..])
  }

  /** Decoding the pairs fails exactly when one is unrecognised, names the
      first such pair, and never touches id, word, lemma or tag. */
  lemma {:induction false} ApplyPairsOutcome(e: Entry, pairs: seq<string>)
    ensures ApplyPairs(e, pairs).Err? <==> exists k :: 0 <= k < |pairs| && Unrecognised(pairs[k])
    ensures ApplyPairs(e, pairs).Err? ==>
              exists k :: (0 <= k < |pairs| && Unrecognised(pairs[k])
                           && ApplyPairs(e, pairs).error == UnknownTagPair(pairs[k])
                           && forall j :: 0 <= j < k ==> !Unrecognised(pairs[j]))
    ensures ApplyPairs(e, pairs).Ok? ==> var d := ApplyPairs(e, pairs).value;
      d.id == e.id && d.word == e.word && d.lemmaForm == e.lemmaForm && d.tag == e.tag
    decreases |pairs|
  {
    if pairs != [] {
      var r := ApplyTagPair(e, pairs[0]);
      if r.Ok? {
        ApplyPairsOutcome(r.value, pairs[1..]);
        assert forall k :: 1 <= k < |pairs| ==> pairs[k] == pairs[1..][k - 1];
        if ApplyPairs(e, pairs).Err? {
          var k :| 0 <= k < |pairs[1..]| && Unrecognised(pairs[1..][k])
            && ApplyPairs(r.value, pairs[1..]).error == UnknownTagPair(pairs[1..][k])
            && forall j :: 0 <= j < k ==> !Unrecognised(pairs[1..][j]);
          assert Unrecognised(pairs[k + 1]);
          forall j | 0 <= j < k + 1 ensures !Unrecognised(pairs[j]) {
            if j > 0 { assert pairs[j] == pairs[1..][j - 1]; }
          }
        }
      }
    }
  }

  /** Applying pairs one batch after another is applying them all. */
  lemma {:induction false} ApplyPairsAppend(e: Entry, ps: seq<string>, qs: seq<string>)
    ensures ApplyPairs(e, ps + qs) ==
      match ApplyPairs(e, ps)
      case Err(err) => Err(err)
      case Ok(d) => ApplyPairs(d, qs)
    decreases |ps|
  {
    if ps != [] {
      assert (ps + qs)[0] == ps[0];
      assert (ps + qs)[1..] == ps[1..] + qs;
      var r := ApplyTagPair(e, ps[0]);
      if r.Ok? {
        ApplyPairsAppend(r.value, ps[1..], qs);
      }
    } else {
      assert ps + qs == qs;
    }
  }

  /** Method form of the loop over tag pairs. */
  method DecodeDetails(e: Entry, pairs: seq<string>) returns (r: Result<Entry, IngestError>)
    ensures r == ApplyPairs(e, pairs)
  {
    var current := e;
    var i := 0;
    while i < |pairs|
      invariant 0 <= i <= |pairs|
      invariant ApplyPairs(current, pairs[i..]) == ApplyPairs(e, pairs)
    {
      assert pairs[i..][1..] == pairs[i + 1..];
      var step := ApplyTagPair(current, pairs[i]);
      if step.Err? {
        return Err(step.error);
      }
      current := step.value;
      i := i + 1;
    }
    assert pairs[i..] == [];
    r := Ok(current);
  }

  // ---------------------------------------------------------------------
  // Splitting the fourth column on '|'
  // ---------------------------------------------------------------------

  function IndexOf(s: string, c: char): (i: nat)
    requires c in s
    ensures i < |s| && s[i] == c && c !in s[..i]
  {
    if s[0] == c then 0 else 1 + IndexOf(s[1..], c)
  }

  /** The pieces separated by `sep`, glued back with `sep` between them. */
  function Join(parts: seq<string>, sep: char): string
    requires |parts| >= 1
    decreases |parts|
  {
    if |parts| == 1 then parts[0] else parts[0] + [sep] + Join(parts[1..], sep)
  }

  /** `str::split`: at least one piece, none containing the separator, and
      joining them gives the string back ("" splits into [""]). */
  function Split(s: string, sep: char): (parts: seq<string>)
    ensures |parts| >= 1
    ensures forall k :: 0 <= k < |parts| ==> sep !in parts[k]
    ensures Join(parts, sep) == s
    decreases |s|
  {
    if sep !in s then [s]
    else
      var i := IndexOf(s, sep);
      assert s == s[..i] + [sep] + s[i + 1..];
      [s[..i]] + Split(s[i + 1..], sep)
  }

  /** In a join of two or more pieces, the first separator ends the first
      piece, and what follows it is the join of the rest. */
  lemma JoinHead(parts: seq<string>, sep: char)
    requires |parts| > 1 && sep !in parts[0]
    ensures sep in Join(parts, sep)
    ensures IndexOf(Join(parts, sep), sep) == |parts[0]|
    ensures Join(parts, sep)[..|parts[0]|] == parts[0]
    ensures Join(parts, sep)[|parts[0]| + 1..] == Join(parts[1..], sep)
  {
    var s := Join(parts, sep);
    var rest := Join(parts[1..], sep);
    assert s == parts[0] + ([sep] + rest);
    assert s[|parts[0]|] == sep;
    assert s[..|parts[0]|] == parts[0];
    assert forall k :: 0 <= k < |parts[0]| ==> s[k] == parts[0][k];
  }

  /** Splitting a join of separator-free pieces recovers the pieces. */
  lemma {:induction false} SplitJoin(parts: seq<string>, sep: char)
    requires |parts| >= 1
    requires forall k :: 0 <= k < |parts| ==> sep !in parts[k]
    ensures Split(Join(parts, sep), sep) == parts
    decreases |parts|
  {
    if |parts| > 1 {
      var s := Join(parts, sep);
      var tail := parts[1..];
      SplitJoin(tail, sep);
      JoinHead(parts, sep);
      var i := IndexOf(s, sep);
      assert Split(s, sep) == [s[..i]] + Split(s[i + 1..], sep);
      assert parts == [parts[0]] + tail;
    }
  }

  // ---------------------------------------------------------------------
  // The id window
  // ---------------------------------------------------------------------

  /** The most recent (word, id) pairs, newest first. */
  type Window = seq<(string, int)>

  /** The ids the window remembers for `word`, front to back. */
  function WindowIds(window: Window, word: string): seq<int>
    decreases |window|
  {
    if window == [] then []
    else
      var last := window[|window| - 1];
      WindowIds(window[..|window| - 1], word) + if last.0 == word then [last.1] else []
  }

  /** Every id WindowIds gathers is one the window pairs with `word`. */
  lemma {:induction false} WindowIdsSound(window: Window, word: string, k: nat)
    requires k < |WindowIds(window, word)|
    ensures exists j :: 0 <= j < |window| && window[j] == (word, WindowIds(window, word)[k])
    decreases |window|
  {
    var front := window[..|window| - 1];
    if k < |WindowIds(front, word)| {
      WindowIdsSound(front, word, k);
      var j :| 0 <= j < |front| && front[j] == (word, WindowIds(front, word)[k]);
      assert window[j] == front[j];
    } else {
      assert window[|window| - 1] == (word, WindowIds(window, word)[k]);
    }
  }

  /** Every id the window holds for `word` is among WindowIds. */
  lemma {:induction false} WindowIdsComplete(window: Window, word: string, j: nat)
    requires j < |window| && window[j].0 == word
    ensures window[j].1 in WindowIds(window, word)
    decreases |window|
  {
    if j < |window| - 1 {
      WindowIdsComplete(window[..|window| - 1], word, j);
    }
  }

  /** The id a new record of `word` gets from the window:
      max(101, 1 + the largest id remembered for the same word). */
  function NextId(window: Window, word: string): (id: int)
    ensures id >= FirstId
    ensures forall j :: 0 <= j < |window| && window[j].0 == word ==> window[j].1 < id
    ensures id == FirstId || exists j :: 0 <= j < |window| && window[j] == (word, id - 1)
  {
    var ids := WindowIds(window, word);
    forall j | 0 <= j < |window| && window[j].0 == word ensures window[j].1 < MaxAbove(FirstId, ids) {
      WindowIdsComplete(window, word, j);
    }
    forall k | 0 <= k < |ids| ensures exists j :: 0 <= j < |window| && window[j] == (word, ids[k]) {
      WindowIdsSound(window, word, k);
    }
    MaxAbove(FirstId, ids)
  }

  /** One slot of the window scan: a same-word id at or above the current
      candidate bumps it. */
  lemma {:induction false} ScanStep(window: Window, word: string, i: nat)
    requires i < |window|
    ensures MaxAbove(FirstId, WindowIds(window[..i + 1], word)) ==
      var id := MaxAbove(FirstId, WindowIds(window[..i], word));
      if window[i].0 == word && window[i].1 >= id then window[i].1 + 1 else id
  {
    assert window[..i + 1][..i] == window[..i];
    var ids := WindowIds(window[..i], word);
    if window[i].0 == word {
      MaxAboveSnoc(FirstId, ids, window[i].1);
    } else {
      assert WindowIds(window[..i + 1], word) == ids;
    }
  }

  /** The id after scanning the first `i` slots of the window, slot by slot. */
  function Scanned(window: Window, word: string, i: nat): int
    requires i <= |window|
  {
    if i == 0 then FirstId
    else
      var id := Scanned(window, word, i - 1);
      if window[i - 1].0 == word && window[i - 1].1 >= id then window[i - 1].1 + 1 else id
  }

  /** The slot-by-slot scan computes the id above every same-word slot seen. */
  lemma {:induction false} ScannedIsMaxAbove(window: Window, word: string, i: nat)
    requires i <= |window|
    ensures Scanned(window, word, i) == MaxAbove(FirstId, WindowIds(window[..i], word))
  {
    if i == 0 {
      assert window[..0] == [];
    } else {
      var j := i - 1;
      ScannedIsMaxAbove(window, word, j);
      ScanStep(window, word, j);
      assert window[..i] == window[..j + 1];
    }
  }

  /** The scan of the window for the new record's word (the loop that bumps
      the id past every remembered id of that word). */
  method AssignId(window: Window, word: string) returns (id: int)
    ensures id == NextId(window, word)
  {
    id := FirstId;
    var i := 0;
    while i < |window|
      invariant 0 <= i <= |window|
      invariant id == Scanned(window, word, i)
    {
      if window[i].0 == word && window[i].1 >= id {
        id := window[i].1 + 1;
      }
      i := i + 1;
    }
    ScannedIsMaxAbove(window, word, i);
    assert window[..i] == window;
  }

  /** `push_front` then `truncate(20)`. */
  function Remember(window: Window, word: string, id: int): (r: Window)
    ensures |r| == if |window| < WindowSize then |window| + 1 else WindowSize
    ensures r[0] == (word, id)
    ensures r[1..] == window[..|r| - 1]
  {
    var pushed := [(word, id)] + window;
    var r := if |pushed| <= WindowSize then pushed else pushed[..WindowSize];
    assert r[1..] == window[..|r| - 1];
    r
  }

  // ---------------------------------------------------------------------
  // One record, and the whole stream
  // ---------------------------------------------------------------------

  /** What one well-read record turns into. */
  datatype Step = Accept(entry: Entry) | Missing | Fail(error: IngestError)

  /** The body of the record loop for a record the reader produced. */
  function DecodeRecord(fields: seq<string>, window: Window): Step {
    if |fields| < 3 then Missing
    else match PosOfCode(fields[2])
      case None => Fail(UnknownPartOfSpeech(fields[2]))
      case Some(tag) =>
        var seeded := Sentinel().(id := NextId(window, fields[0]), word := fields[0],
                                lemmaForm := Some(fields[1]), tag := Some(tag));
        if |fields| > 3 then
          match ApplyPairs(seeded, Split(fields[3], '|'))
          case Err(err) => Fail(err)
          case Ok(e) => Accept(e)
        else Accept(seeded)
  }

  /** The record loop from a given window and list of accepted entries. */
  function LoadFrom(records: seq<CsvRecord>, window: Window, acc: seq<Entry>): LoadResult
    decreases |records|
  {
    if records == [] then Loaded(acc)
    else match records[0]
      case ReadError => LoadFrom(records[1..], window, acc)
      case Fields(fields) =>
        match DecodeRecord(fields, window)
        case Missing => MissingColumn
        case Fail(err) => Aborted(err)
        case Accept(e) => LoadFrom(records[1..], Remember(window, e.word, e.id), acc + [e])
  }

  /** load_text_lecsicon on the records the reader yields. */
  function LoadSpec(records: seq<CsvRecord>): LoadResult {
    LoadFrom(records, [], [])
  }

  // ---------------------------------------------------------------------
  // Properties of ingestion
  // ---------------------------------------------------------------------

  /** A record ingestion accepts: three mandatory columns, a known part of
      speech and, when a fourth column is present, no unrecognised pair. */
  predicate RecordOk(fields: seq<string>) {
    && |fields| >= 3
    && PosOfCode(fields[2]).Some?
    && (|fields| > 3 ==> forall k :: 0 <= k < |Split(fields[3], '|')| ==> !Unrecognised(Split(fields[3], '|')[k]))
  }

  /** One record: missing exactly when a mandatory column is absent, accepted
      exactly when well formed, and an accepted entry carries the record's
      word, lemma and part of speech and the id the window dictates. */
  lemma DecodeRecordOutcome(fields: seq<string>, window: Window)
    ensures DecodeRecord(fields, window).Missing? <==> |fields| < 3
    ensures DecodeRecord(fields, window).Accept? <==> RecordOk(fields)
    ensures DecodeRecord(fields, window).Accept? ==>
      var e := DecodeRecord(fields, window).entry;
      && e.word == fields[0] && e.lemmaForm == Some(fields[1])
      && e.tag == PosOfCode(fields[2]) && e.id == NextId(window, fields[0])
  {
    if |fields| >= 3 && PosOfCode(fields[2]).Some? {
      var seeded := Sentinel().(id := NextId(window, fields[0]), word := fields[0],
                              lemmaForm := Some(fields[1]), tag := PosOfCode(fields[2]));
      if |fields| > 3 {
        ApplyPairsOutcome(seeded, Split(fields[3], '|'));
      }
    }
  }

  /** The records the reader produced, reader errors dropped. */
  function Readable(records: seq<CsvRecord>): (r: seq<CsvRecord>)
    ensures forall k :: 0 <= k < |r| ==> r[k].Fields?
    ensures |r| <= |records|
    ensures forall x :: x in r <==> x in records && x.Fields?
  {
    if records == [] then []
    else
      assert records == [records[0]] + records[1..];
      (if records[0].Fields? then [records[0]] else []) + Readable(records[1..])
  }

  /** A reader error is logged and skipped: it changes nothing. */
  lemma {:induction false} ReadErrorsSkipped(records: seq<CsvRecord>, window: Window, acc: seq<Entry>)
    ensures LoadFrom(records, window, acc) == LoadFrom(Readable(records), window, acc)
    decreases |records|
  {
    if records != [] {
      var rest := records[1..];
      match records[0] {
        case ReadError =>
          assert Readable(records) == Readable(rest);
          ReadErrorsSkipped(rest, window, acc);
        case Fields(fields) =>
          var rd := Readable(records);
          assert rd == [records[0]] + Readable(rest);
          assert rd[0] == records[0] && rd[1..] == Readable(rest);
          match DecodeRecord(fields, window) {
            case Missing =>
            case Fail(_) =>
            case Accept(e) =>
              var w := Remember(window, e.word, e.id);
              assert LoadFrom(records, window, acc) == LoadFrom(rest, w, acc + [e]);
              assert LoadFrom(rd, window, acc) == LoadFrom(Readable(rest), w, acc + [e]);
              ReadErrorsSkipped(rest, w, acc + [e]);
          }
      }
    }
  }

  /** The load succeeds exactly when every record the reader produced is well
      formed; it returns None only for a record lacking a mandatory column and
      aborts only for one with an unknown code or pair. */
  lemma {:induction false} LoadOutcome(records: seq<CsvRecord>, window: Window, acc: seq<Entry>)
    ensures LoadFrom(records, window, acc).Loaded? <==>
      forall k :: 0 <= k < |records| && records[k].Fields? ==> RecordOk(records[k].fields)
    ensures LoadFrom(records, window, acc) == MissingColumn ==>
      exists k :: 0 <= k < |records| && records[k].Fields? && |records[k].fields| < 3
    ensures LoadFrom(records, window, acc).Aborted? ==>
      exists k :: (0 <= k < |records| && records[k].Fields? && |records[k].fields| >= 3
                   && !RecordOk(records[k].fields))
    ensures LoadFrom(records, window, acc).Loaded? ==>
      |LoadFrom(records, window, acc).entries| == |acc| + |Readable(records)|
    decreases |records|
  {
    if records != [] {
      var rest := records[1..];
      assert forall k :: 1 <= k < |records| ==> records[k] == rest[k - 1];
      match records[0]
      case ReadError =>
        LoadOutcome(rest, window, acc);
      case Fields(fields) =>
        DecodeRecordOutcome(fields, window);
        match DecodeRecord(fields, window)
        case Missing =>
        case Fail(_) =>
        case Accept(e) =>
          LoadOutcome(rest, Remember(window, e.word, e.id), acc + [e]);
    }
  }

  /** `err` names the first unrecognised pair of `pairs`. */
  predicate NamesFirstUnknown(err: IngestError, pairs: seq<string>) {
    exists i :: (0 <= i < |pairs| && Unrecognised(pairs[i]) && err == UnknownTagPair(pairs[i])
                 && forall j :: 0 <= j < i ==> !Unrecognised(pairs[j]))
  }

  /** An ill-formed record with its three columns fails with the panic the
      source raises first: the unknown part of speech, else the first
      unknown pair. */
  lemma RecordFailure(fields: seq<string>, window: Window)
    requires |fields| >= 3 && !RecordOk(fields)
    ensures PosOfCode(fields[2]).None? ==> DecodeRecord(fields, window) == Fail(UnknownPartOfSpeech(fields[2]))
    ensures PosOfCode(fields[2]).Some? ==>
      && |fields| > 3
      && DecodeRecord(fields, window).Fail?
      && NamesFirstUnknown(DecodeRecord(fields, window).error, Split(fields[3], '|'))
  {
    if PosOfCode(fields[2]).Some? {
      var seeded := Sentinel().(id := NextId(window, fields[0]), word := fields[0],
                              lemmaForm := Some(fields[1]), tag := PosOfCode(fields[2]));
      ApplyPairsOutcome(seeded, Split(fields[3], '|'));
    }
  }

  /** The first ill-formed readable record decides the load: None when it
      lacks a column, otherwise the panic for its part of speech or its
      first unknown pair; records after it are never reached. */
  lemma {:induction false} FirstBadRecordDecides(records: seq<CsvRecord>, window: Window, acc: seq<Entry>, k: nat)
    requires k < |records| && records[k].Fields? && !RecordOk(records[k].fields)
    requires forall j :: 0 <= j < k && records[j].Fields? ==> RecordOk(records[j].fields)
    ensures |records[k].fields| < 3 ==> LoadFrom(records, window, acc) == MissingColumn
    ensures |records[k].fields| >= 3 && PosOfCode(records[k].fields[2]).None? ==>
      LoadFrom(records, window, acc) == Aborted(UnknownPartOfSpeech(records[k].fields[2]))
    ensures |records[k].fields| >= 3 && PosOfCode(records[k].fields[2]).Some? ==>
      && |records[k].fields| > 3
      && LoadFrom(records, window, acc).Aborted?
      && NamesFirstUnknown(LoadFrom(records, window, acc).error, Split(records[k].fields[3], '|'))
    decreases k
  {
    var rest := records[1..];
    match records[0]
    case ReadError =>
      assert forall j :: 0 <= j < k - 1 ==> rest[j] == records[j + 1];
      FirstBadRecordDecides(rest, window, acc, k - 1);
    case Fields(fields) =>
      DecodeRecordOutcome(fields, window);
      if k == 0 {
        if |fields| >= 3 {
          RecordFailure(fields, window);
        }
      } else {
        var e := DecodeRecord(fields, window).entry;
        assert forall j :: 0 <= j < k - 1 ==> rest[j] == records[j + 1];
        FirstBadRecordDecides(rest, Remember(window, e.word, e.id), acc + [e], k - 1);
      }
  }

  /** Every loaded entry has left the sentinel behind. */
  predicate Seeded(e: Entry) {
    e.id >= FirstId && e.id != Sentinel().id && e.lemmaForm.Some? && e.tag.Some?
  }

  /** The window after `acc`: its last min(|acc|, 20) entries, newest first. */
  function RecentWindow(acc: seq<Entry>): (w: Window)
    ensures |w| <= WindowSize
  {
    var n := if |acc| < WindowSize then |acc| else WindowSize;
    seq(n, k requires 0 <= k < n => (acc[|acc| - 1 - k].word, acc[|acc| - 1 - k].id))
  }

  /** Remembering an accepted entry keeps the window equal to RecentWindow. */
  lemma RememberRecent(acc: seq<Entry>, e: Entry)
    ensures Remember(RecentWindow(acc), e.word, e.id) == RecentWindow(acc + [e])
  {
    var w := Remember(RecentWindow(acc), e.word, e.id);
    var v := RecentWindow(acc + [e]);
    assert |w| == |v|;
    forall k | 0 <= k < |w| ensures w[k] == v[k] {
      if k > 0 { assert w[k] == w[1..][k - 1]; }
    }
  }

  /** Each entry's id is what the window of the entries before it dictates. */
  predicate IdsFromWindow(es: seq<Entry>) {
    forall j :: 0 <= j < |es| ==> es[j].id == NextId(RecentWindow(es[..j]), es[j].word)
  }

  /** A repeated word at most 20 places later has a larger id. */
  predicate NearbyDistinct(es: seq<Entry>) {
    forall i, j :: 0 <= i < j < |es| && j - i <= WindowSize && es[i].word == es[j].word ==> es[i].id < es[j].id
  }

  /** The window invariant: ids follow the window, and the window is always
      the recent entries. */
  lemma {:induction false} LoadIds(records: seq<CsvRecord>, window: Window, acc: seq<Entry>)
    requires window == RecentWindow(acc)
    requires IdsFromWindow(acc)
    requires forall k :: 0 <= k < |acc| ==> Seeded(acc[k])
    ensures LoadFrom(records, window, acc).Loaded? ==>
      var es := LoadFrom(records, window, acc).entries;
      IdsFromWindow(es) && forall k :: 0 <= k < |es| ==> Seeded(es[k])
    decreases |records|
  {
    if records != [] {
      match records[0]
      case ReadError =>
        LoadIds(records[1..], window, acc);
      case Fields(fields) =>
        DecodeRecordOutcome(fields, window);
        match DecodeRecord(fields, window)
        case Missing =>
        case Fail(_) =>
        case Accept(e) =>
          var acc' := acc + [e];
          assert Seeded(e);
          assert forall k :: 0 <= k < |acc'| ==> Seeded(acc'[k]);
          RememberRecent(acc, e);
          assert acc'[..|acc|] == acc;
          forall j | 0 <= j < |acc'| ensures acc'[j].id == NextId(RecentWindow(acc'[..j]), acc'[j].word) {
            if j < |acc| { assert acc'[..j] == acc[..j]; }
          }
          LoadIds(records[1..], Remember(window, e.word, e.id), acc');
    }
  }

  /** `es` is `acc` followed by one entry per record of `rd`, each the
      decoding of its record against the window of the entries before it. */
  predicate DecodedAfter(rd: seq<CsvRecord>, acc: seq<Entry>, es: seq<Entry>) {
    && |es| == |acc| + |rd| && es[..|acc|] == acc
    && forall k :: 0 <= k < |rd| ==>
         rd[k].Fields? && DecodeRecord(rd[k].fields, RecentWindow(es[..|acc| + k])) == Accept(es[|acc| + k])
  }

  /** Loading records the reader read cleanly appends one entry per record,
      each the decoding of its record against the window of the entries
      before it. */
  lemma {:induction false} LoadDecodes(rd: seq<CsvRecord>, acc: seq<Entry>)
    requires forall k :: 0 <= k < |rd| ==> rd[k].Fields?
    ensures LoadFrom(rd, RecentWindow(acc), acc).Loaded? ==>
      DecodedAfter(rd, acc, LoadFrom(rd, RecentWindow(acc), acc).entries)
    decreases |rd|
  {
    if rd == [] {
      assert LoadFrom(rd, RecentWindow(acc), acc).entries[..|acc|] == acc;
    } else if LoadFrom(rd, RecentWindow(acc), acc).Loaded? {
      var e := LoadStep(rd, acc);
      var acc' := acc + [e];
      LoadDecodes(rd[1..], acc');
      DecodesShift(rd, acc, e, LoadFrom(rd[1..], RecentWindow(acc'), acc').entries);
    }
  }

  /** A load that gets past the first record accepted it and goes on from
      the window and entries that include it. */
  lemma LoadStep(rd: seq<CsvRecord>, acc: seq<Entry>) returns (e: Entry)
    requires rd != [] && rd[0].Fields?
    requires LoadFrom(rd, RecentWindow(acc), acc).Loaded?
    ensures DecodeRecord(rd[0].fields, RecentWindow(acc)) == Accept(e)
    ensures LoadFrom(rd, RecentWindow(acc), acc) == LoadFrom(rd[1..], RecentWindow(acc + [e]), acc + [e])
  {
    e := DecodeRecord(rd[0].fields, RecentWindow(acc)).entry;
    RememberRecent(acc, e);
  }

  /** One step of LoadDecodes: the first record's entry goes in front of the
      entries of the rest. */
  lemma DecodesShift(rd: seq<CsvRecord>, acc: seq<Entry>, e: Entry, es: seq<Entry>)
    requires rd != [] && rd[0].Fields?
    requires DecodeRecord(rd[0].fields, RecentWindow(acc)) == Accept(e)
    requires DecodedAfter(rd[1..], acc + [e], es)
    ensures DecodedAfter(rd, acc, es)
  {
    assert es[..|acc| + 1][..|acc|] == es[..|acc|];
    forall k | 0 <= k < |rd|
      ensures rd[k].Fields? && DecodeRecord(rd[k].fields, RecentWindow(es[..|acc| + k])) == Accept(es[|acc| + k])
    {
      if k == 0 {
        assert es[|acc|] == es[..|acc| + 1][|acc|];
      } else {
        assert rd[k] == rd[1..][k - 1];
        assert |acc + [e]| + (k - 1) == |acc| + k;
      }
    }
  }

  /** An entry at most 20 places back is in the window. */
  lemma InRecentWindow(es: seq<Entry>, i: nat, j: nat)
    requires i < j <= |es| && j - i <= WindowSize
    ensures j - 1 - i < |RecentWindow(es[..j])|
    ensures RecentWindow(es[..j])[j - 1 - i] == (es[i].word, es[i].id)
  {
  }

  /** Ids that follow the window are distinct per word within 20 entries. */
  lemma IdsFromWindowDistinct(es: seq<Entry>)
    requires IdsFromWindow(es)
    ensures NearbyDistinct(es)
  {
    forall i, j | 0 <= i < j < |es| && j - i <= WindowSize && es[i].word == es[j].word
      ensures es[i].id < es[j].id
    {
      InRecentWindow(es, i, j);
      var w := RecentWindow(es[..j]);
      assert es[j].id == NextId(w, es[j].word);
      assert w[j - 1 - i].0 == es[j].word;
    }
  }

  /** What load_text_lecsicon promises about a successful load: as many
      entries as readable records, in their order, entry k the decoding of
      readable record k, none left as the sentinel, and each id the least one
      above 101 and every same-word id among the 20 entries before. */
  lemma LoadedEntries(records: seq<CsvRecord>)
    ensures LoadSpec(records).Loaded? ==>
      var es := LoadSpec(records).entries;
      && |es| == |Readable(records)|
      && (forall k :: 0 <= k < |es| ==> Seeded(es[k]))
      && IdsFromWindow(es)
      && NearbyDistinct(es)
      && forall k :: 0 <= k < |es| ==>
           DecodeRecord(Readable(records)[k].fields, RecentWindow(es[..k])) == Accept(es[k])
  {
    LoadOutcome(records, [], []);
    LoadIds(records, [], []);
    ReadErrorsSkipped(records, [], []);
    assert RecentWindow([]) == [];
    LoadDecodes(Readable(records), []);
    if LoadSpec(records).Loaded? {
      IdsFromWindowDistinct(LoadSpec(records).entries);
    }
  }

  /** Two consecutive "ci" nouns get ids 101 and 102. */
  lemma RepeatedWordScenario()
    ensures LoadSpec([Fields(["ci", "ci", "NOUN"]), Fields(["ci", "ci", "NOUN"])]) ==
      Loaded([Sentinel().(id := 101, word := "ci", lemmaForm := Some("ci"), tag := Some(Noun)),
              Sentinel().(id := 102, word := "ci", lemmaForm := Some("ci"), tag := Some(Noun))])
  {
    var first := Sentinel().(id := 101, word := "ci", lemmaForm := Some("ci"), tag := Some(Noun));
    assert DecodeRecord(["ci", "ci", "NOUN"], []) == Accept(first);
    var w := Remember([], "ci", 101);
    assert w == [("ci", 101)];
    assert WindowIds(w, "ci") == [101];
    assert NextId(w, "ci") == 102;
  }

  /** Of two recognised pairs on one axis, the later wins. */
  lemma LaterPairWins(e: Entry, p: string, q: string)
    requires PairFeature(p).Some? && PairFeature(q).Some?
    requires FeatureAxis(PairFeature(p).value) == FeatureAxis(PairFeature(q).value)
    ensures ApplyPairs(e, [p, q]) == ApplyPairs(e, [q])
  {
    assert !Blank(p) && !Blank(q);
    assert [p, q][1..] == [q];
    SameAxisOverwrites(e, PairFeature(p).value, PairFeature(q).value);
  }

  /** "Gender=Masc" then "Gender=Fem,Masc": the mixed gender, the later pair. */
  lemma GenderPairScenario(e: Entry)
    ensures ApplyPairs(e, ["Gender=Masc", "Gender=Fem,Masc"]) == Ok(e.(gender := Some(FeminineMasculine)))
  {
    assert PairFeature("Gender=Masc") == Some(GenderIs(Masculine));
    assert PairFeature("Gender=Fem,Masc") == Some(GenderIs(FeminineMasculine));
    LaterPairWins(e, "Gender=Masc", "Gender=Fem,Masc");
  }

  /** Blank pairs are ignored and "PronType=Tot" is Reflexive. */
  lemma ReflexivePairScenario(e: Entry)
    ensures ApplyPairs(e, [" ", "PronType=Tot", ""]) == Ok(e.(pronounType := Some(Reflexive)))
  {
    assert PairFeature("PronType=Tot") == Some(PronounTypeIs(Reflexive));
    assert [" ", "PronType=Tot", ""][1..] == ["PronType=Tot", ""];
    assert ["PronType=Tot", ""][1..] == [""];
  }

  /** The fourth column is cut at each '|'. */
  lemma SplitScenario()
    ensures Split("Gender=Fem|Case=Nom", '|') == ["Gender=Fem", "Case=Nom"]
  {
    var parts := ["Gender=Fem", "Case=Nom"];
    assert '|' !in parts[0] && '|' !in parts[1];
    assert parts[1..] == ["Case=Nom"];
    assert Join(parts, '|') == "Gender=Fem|Case=Nom";
    SplitJoin(parts, '|');
  }

  /** A recognised pair is applied, then the unknown one after it stops decoding. */
  lemma UnknownPairStops(e: Entry)
    ensures ApplyPairs(e, ["Gender=Fem", "Case=Nom"]) == Err(UnknownTagPair("Case=Nom"))
  {
    assert PairFeature("Gender=Fem") == Some(GenderIs(Feminine));
    assert PairFeature("Case=Nom") == None;
    assert ["Gender=Fem", "Case=Nom"][1..] == ["Case=Nom"];
  }

  /** A record whose pairs include an unknown one fails. */
  lemma UnknownPairRecord()
    ensures DecodeRecord(["cath", "cath", "NOUN", "Gender=Fem|Case=Nom"], []) ==
      Fail(UnknownTagPair("Case=Nom"))
  {
    var fields: seq<string> := ["cath", "cath", "NOUN", "Gender=Fem|Case=Nom"];
    assert fields[2] == "NOUN" && fields[3] == "Gender=Fem|Case=Nom";
    assert PosOfCode("NOUN") == Some(Noun);
    SplitScenario();
    var seeded := Sentinel().(id := NextId([], fields[0]), word := fields[0],
                            lemmaForm := Some(fields[1]), tag := Some(Noun));
    UnknownPairStops(seeded);
  }

  /** ... and so aborts the whole load. */
  lemma UnknownPairAborts()
    ensures LoadSpec([Fields(["cath", "cath", "NOUN", "Gender=Fem|Case=Nom"])]) ==
      Aborted(UnknownTagPair("Case=Nom"))
  {
    UnknownPairRecord();
  }

  /** An unknown part of speech aborts, a missing column makes the load None. */
  lemma UnknownPosAborts()
    ensures LoadSpec([Fields(["cath", "cath", "N"])]) == Aborted(UnknownPartOfSpeech("N"))
    ensures LoadSpec([Fields(["cath", "cath"]), Fields(["ci", "ci", "N"])]) == MissingColumn
  {
  }

  /** The body of the record loop for a record the reader produced, as the
      source writes it: a mutable entry filled in field by field, the window
      scanned and updated by push-front and truncate, the tag pairs looped
      over. Returns the outcome and the window after the record. */
  method ReadRecord(fields: seq<string>, window: Window) returns (step: Step, next: Window)
    ensures step == DecodeRecord(fields, window)
    ensures step.Accept? ==> next == Remember(window, step.entry.word, step.entry.id)
  {
    next := window;
    var entry := Sentinel();
    entry := entry.(id := FirstId);
    if |fields| < 3 {
      return Missing, next;
    }
    entry := entry.(word := fields[0]);
    entry := entry.(lemmaForm := Some(fields[1]));
    var tag := PosOfCode(fields[2]);
    if tag.None? {
      return Fail(UnknownPartOfSpeech(fields[2])), next;
    }
    entry := entry.(tag := tag);
    var id := AssignId(next, entry.word);
    entry := entry.(id := id);
    next := Remember(next, entry.word, entry.id);
    if |fields| > 3 {
      var pairs := Split(fields[3], '|');
      var details := DecodeDetails(entry, pairs);
      if details.Err? {
        return Fail(details.error), next;
      }
      ApplyPairsOutcome(entry, pairs);
      entry := details.value;
    }
    step := Accept(entry);
  }

  /** The record loop of load_text_lecsicon: a reader error is skipped, a
      missing column or a panic ends the load, an accepted entry is pushed. */
  method Load(records: seq<CsvRecord>) returns (r: LoadResult)
    ensures r == LoadSpec(records)
  {
    var all: seq<Entry> := [];
    var window: Window := [];
    var i := 0;
    while i < |records|
      invariant 0 <= i <= |records|
      invariant LoadFrom(records[i..], window, all) == LoadSpec(records)
    {
      assert records[i..][0] == records[i];
      assert records[i..][1..] == records[i + 1..];
      match records[i] {
        case ReadError =>
        case Fields(fields) =>
          var step, next := ReadRecord(fields, window);
          match step {
            case Missing => return MissingColumn;
            case Fail(err) => return Aborted(err);
            case Accept(entry) =>
              all := all + [entry];
              window := next;
          }
      }
      i := i + 1;
    }
    r := Loaded(all);
  }
}
