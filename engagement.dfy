/**
 The feature encoder of the player-engagement predictor: it turns one player
 record, as typed at the prompts, into the row of 15 numbers the trained
 classifier was fitted on, and it maps the predicted class id to its label.
 */
module Engagement {
  import opened PyStr
  import opened DropFirst

  /** Number of features the model expects after encoding. */
  const ExpectedNumberOfFeatures: nat := 15

  /** The label of each class id the classifier can return. */
  const Labels: map<int, string> := map[0 := "Low", 1 := "Medium", 2 := "High"]

  /** One player's answers: the numbers already parsed, the four categorical
      answers as strings. */
  datatype RawRecord = RawRecord(
    age: int,
    playTime: real,
    purchases: int,
    sessions: int,
    duration: int,
    location: string,
    gender: string,
    genre: string,
    difficulty: string)

  datatype Error =
    | FeatureCountMismatch(got: int, expected: int)
    | NoPrediction
    | UnknownClass(id: int)

  datatype Result<T> = Success(value: T) | Failure(error: Error)

  /** Indicator tokens of each attribute in vector order, and the baseline
      category that all-zero indicators stand for. */
  const LocationTokens: seq<string> := ["europe", "usa"]
  const LocationBaseline: string := "other"
  const GenderTokens: seq<string> := ["male", "other"]
  const GenderBaseline: string := "female"
  const GenreTokens: seq<string> := ["rpg", "simulation", "sports", "strategy"]
  const GenreBaseline: string := "action"
  const DifficultyTokens: seq<string> := ["hard", "medium"]
  const DifficultyBaseline: string := "easy"

  /** `answer.strip().lower()`: the result is trimmed and no longer than the
      answer. */
  function Normalize(s: string): (n: string)
    ensures Trimmed(n) && |n| <= |s|
  {
    LowerKeepsTrimmed(Strip(s));
    Lower(Strip(s))
  }

  /** The four categorical answers as they are read: stripped and lower-cased;
      the numbers are left as they are. */
  function NormalizeAnswers(r: RawRecord): (a: RawRecord)
    ensures NumericFeatures(a) == NumericFeatures(r)
    ensures Trimmed(a.location) && Trimmed(a.gender) && Trimmed(a.genre) && Trimmed(a.difficulty)
  {
    r.(location := Normalize(r.location),
       gender := Normalize(r.gender),
       genre := Normalize(r.genre),
       difficulty := Normalize(r.difficulty))
  }

  /** The list the encoder builds from the normalised answers: five numbers
      copied through, then ten 0/1 indicators in a fixed order. What each
      position holds is stated by the lemmas below. */
  function Encode(n: RawRecord): (x: seq<real>)
    ensures |x| == ExpectedNumberOfFeatures
  {
    [ n.age as real,
      n.playTime,
      n.purchases as real,
      n.sessions as real,
      n.duration as real,
      Indicator(n.location == "europe"),
      Indicator(n.location == "usa"),
      Indicator(n.gender == "male"),
      Indicator(n.gender == "other"),
      Indicator(n.genre == "rpg"),
      Indicator(n.genre == "simulation"),
      Indicator(n.genre == "sports"),
      Indicator(n.genre == "strategy"),
      Indicator(n.difficulty == "hard"),
      Indicator(n.difficulty == "medium") ]
  }

  /** The feature vector of a record as typed. */
  function FeatureVector(r: RawRecord): (x: seq<real>)
    ensures |x| == ExpectedNumberOfFeatures
  {
    Encode(NormalizeAnswers(r))
  }

  /** The encoder with its length check and the reshape into a single row:
      the feature-count error is never raised. */
  function GetUserInput(r: RawRecord): (res: Result<seq<seq<real>>>)
    ensures res.Success? && res.value == [FeatureVector(r)]
    ensures |res.value| == 1 && |res.value[0]| == ExpectedNumberOfFeatures
  {
    var x := FeatureVector(r);
    if |x| != ExpectedNumberOfFeatures then
      Failure(FeatureCountMismatch(|x|, ExpectedNumberOfFeatures))
    else
      Success([x])
  }

  /** `labels[class_id]`; a missing key is an error. */
  function LabelOf(id: int): (res: Result<string>)
    ensures res.Success? <==> 0 <= id <= 2
    ensures id == 0 ==> res == Success("Low")
    ensures id == 1 ==> res == Success("Medium")
    ensures id == 2 ==> res == Success("High")
    ensures res.Failure? ==> res.error == UnknownClass(id)
  {
    if id in Labels then Success(Labels[id]) else Failure(UnknownClass(id))
  }

  /** The main program with the fitted scaler and classifier passed in: the
      encoded row goes through `transform`, then `predict`, and the first
      predicted class id is looked up in the labels. */
  function PredictEngagement(
    r: RawRecord,
    transform: seq<seq<real>> -> seq<seq<real>>,
    predict: seq<seq<real>> -> seq<int>): (res: Result<string>)
    ensures var classes := predict(transform([FeatureVector(r)]));
      && (classes == [] ==> res == Failure(NoPrediction))
      && (classes != [] ==> res == LabelOf(classes[0]))
    ensures res.Success? ==> res.value == "Low" || res.value == "Medium" || res.value == "High"
    ensures !(res.Failure? && res.error.FeatureCountMismatch?)
  {
    match GetUserInput(r)
    case Failure(e) => Failure(e)
    case Success(row) =>
      var classes := predict(transform(row));
      if classes == [] then Failure(NoPrediction) else LabelOf(classes[0])
  }

  // ---------------------------------------------------------------------
  // What each position holds
  // ---------------------------------------------------------------------

  /** The five numbers in vector order. */
  function NumericFeatures(r: RawRecord): seq<real> {
    [r.age as real, r.playTime, r.purchases as real, r.sessions as real, r.duration as real]
  }

  /** Positions 0 to 4 are the five numbers, unchanged and in this order. */
  lemma NumericFeaturesCopied(n: RawRecord)
    ensures Encode(n)[..5] == NumericFeatures(n)
    ensures Encode(n)[0] == n.age as real && Encode(n)[1] == n.playTime
    ensures Encode(n)[2] == n.purchases as real && Encode(n)[3] == n.sessions as real
    ensures Encode(n)[4] == n.duration as real
  {
  }

  /** Positions 5 and 6: location, baseline "other". */
  lemma LocationGroup(n: RawRecord)
    ensures Encode(n)[5] == 1.0 <==> n.location == "europe"
    ensures Encode(n)[6] == 1.0 <==> n.location == "usa"
    ensures Encode(n)[5..7] == OneHot(LocationTokens, n.location)
  {
  }

  /** Positions 7 and 8: gender, baseline "female". */
  lemma GenderGroup(n: RawRecord)
    ensures Encode(n)[7] == 1.0 <==> n.gender == "male"
    ensures Encode(n)[8] == 1.0 <==> n.gender == "other"
    ensures Encode(n)[7..9] == OneHot(GenderTokens, n.gender)
  {
  }

  /** Positions 9 to 12: game genre, baseline "action". */
  lemma GenreGroup(n: RawRecord)
    ensures Encode(n)[9] == 1.0 <==> n.genre == "rpg"
    ensures Encode(n)[10] == 1.0 <==> n.genre == "simulation"
    ensures Encode(n)[11] == 1.0 <==> n.genre == "sports"
    ensures Encode(n)[12] == 1.0 <==> n.genre == "strategy"
    ensures Encode(n)[9..13] == OneHot(GenreTokens, n.genre)
  {
  }

  /** Positions 13 and 14: game difficulty, baseline "easy". */
  lemma DifficultyGroup(n: RawRecord)
    ensures Encode(n)[13] == 1.0 <==> n.difficulty == "hard"
    ensures Encode(n)[14] == 1.0 <==> n.difficulty == "medium"
    ensures Encode(n)[13..15] == OneHot(DifficultyTokens, n.difficulty)
  {
  }

  lemma SplitAtGroups(x: seq<real>)
    requires |x| == 15
    ensures x == x[..5] + x[5..7] + x[7..9] + x[9..13] + x[13..15]
  {
  }

  /** The literal list the encoder writes out is the drop-first one-hot
      encoding of the four attributes after the five numbers. */
  lemma EncodeLayout(n: RawRecord)
    ensures Encode(n)
            == NumericFeatures(n)
               + OneHot(LocationTokens, n.location)
               + OneHot(GenderTokens, n.gender)
               + OneHot(GenreTokens, n.genre)
               + OneHot(DifficultyTokens, n.difficulty)
  {
    SplitAtGroups(Encode(n));
    NumericFeaturesCopied(n);
    LocationGroup(n);
    GenderGroup(n);
    GenreGroup(n);
    DifficultyGroup(n);
  }

  /** Every indicator is 0 or 1. */
  lemma IndicatorsAreBinary(n: RawRecord)
    ensures forall i :: 5 <= i < ExpectedNumberOfFeatures ==> Encode(n)[i] == 0.0 || Encode(n)[i] == 1.0
  {
    var x := Encode(n);
    LocationGroup(n);
    GenderGroup(n);
    GenreGroup(n);
    DifficultyGroup(n);
    forall i | 5 <= i < ExpectedNumberOfFeatures ensures x[i] == 0.0 || x[i] == 1.0 {
      if i < 7 {
        OneHotAt(LocationTokens, n.location, i - 5);
        assert x[i] == x[5..7][i - 5];
      } else if i < 9 {
        OneHotAt(GenderTokens, n.gender, i - 7);
        assert x[i] == x[7..9][i - 7];
      } else if i < 13 {
        OneHotAt(GenreTokens, n.genre, i - 9);
        assert x[i] == x[9..13][i - 9];
      } else {
        OneHotAt(DifficultyTokens, n.difficulty, i - 13);
        assert x[i] == x[13..15][i - 13];
      }
    }
  }

  /** Within each attribute's group the indicators add up to 1 when the
      answer is recognised and to 0 when it is not: at most one is set. */
  lemma OneHotGroups(n: RawRecord)
    ensures Sum(Encode(n)[5..7]) == if n.location in LocationTokens then 1.0 else 0.0
    ensures Sum(Encode(n)[7..9]) == if n.gender in GenderTokens then 1.0 else 0.0
    ensures Sum(Encode(n)[9..13]) == if n.genre in GenreTokens then 1.0 else 0.0
    ensures Sum(Encode(n)[13..15]) == if n.difficulty in DifficultyTokens then 1.0 else 0.0
  {
    LocationGroup(n);
    GenderGroup(n);
    GenreGroup(n);
    DifficultyGroup(n);
    OneHotSum(LocationTokens, n.location);
    OneHotSum(GenderTokens, n.gender);
    OneHotSum(GenreTokens, n.genre);
    OneHotSum(DifficultyTokens, n.difficulty);
  }

  // ---------------------------------------------------------------------
  // Normalisation
  // ---------------------------------------------------------------------

  /** Normalising twice changes nothing more than normalising once. */
  lemma NormalizeIdempotent(s: string)
    ensures Normalize(Normalize(s)) == Normalize(s)
  {
    var t := Strip(s);
    LowerKeepsTrimmed(t);
    StripTrimmed(Lower(t));
    LowerIdempotent(t);
  }

  /** A trimmed answer normalises to its lower-cased self. */
  lemma NormalizeTrimmed(s: string)
    requires Trimmed(s)
    ensures Normalize(s) == Lower(s)
  {
    StripTrimmed(s);
  }

  /** A word with whitespace around it normalises like the bare word. */
  lemma NormalizePadded(pre: string, s: string, post: string)
    requires AllWhitespace(pre) && AllWhitespace(post) && Trimmed(s)
    ensures Normalize(pre + s + post) == Lower(s)
  {
    StripPadded(pre, s, post);
  }

  // ---------------------------------------------------------------------
  // What the encoding can and cannot tell apart
  // ---------------------------------------------------------------------

  /** The record as the encoder sees it: numbers unchanged, each categorical
      answer replaced by its normalised token when that token has an
      indicator, and by the attribute's baseline otherwise. */
  function Canonical(r: RawRecord): RawRecord {
    var n := NormalizeAnswers(r);
    n.(location := Category(LocationTokens, LocationBaseline, n.location),
       gender := Category(GenderTokens, GenderBaseline, n.gender),
       genre := Category(GenreTokens, GenreBaseline, n.genre),
       difficulty := Category(DifficultyTokens, DifficultyBaseline, n.difficulty))
  }

  /** Two normalised records encode to the same vector exactly when they
      agree on the numbers and on the category of every attribute. */
  lemma EncodeDeterminesCategories(n1: RawRecord, n2: RawRecord)
    ensures Encode(n1) == Encode(n2) <==>
      && NumericFeatures(n1) == NumericFeatures(n2)
      && Category(LocationTokens, LocationBaseline, n1.location) == Category(LocationTokens, LocationBaseline, n2.location)
      && Category(GenderTokens, GenderBaseline, n1.gender) == Category(GenderTokens, GenderBaseline, n2.gender)
      && Category(GenreTokens, GenreBaseline, n1.genre) == Category(GenreTokens, GenreBaseline, n2.genre)
      && Category(DifficultyTokens, DifficultyBaseline, n1.difficulty) == Category(DifficultyTokens, DifficultyBaseline, n2.difficulty)
  {
    EncodeLayout(n1);
    EncodeLayout(n2);
    NumericFeaturesCopied(n1);
    NumericFeaturesCopied(n2);
    LocationGroup(n1);
    LocationGroup(n2);
    GenderGroup(n1);
    GenderGroup(n2);
    GenreGroup(n1);
    GenreGroup(n2);
    DifficultyGroup(n1);
    DifficultyGroup(n2);
    OneHotSameIffSameCategory(LocationTokens, LocationBaseline, n1.location, n2.location);
    OneHotSameIffSameCategory(GenderTokens, GenderBaseline, n1.gender, n2.gender);
    OneHotSameIffSameCategory(GenreTokens, GenreBaseline, n1.genre, n2.genre);
    OneHotSameIffSameCategory(DifficultyTokens, DifficultyBaseline, n1.difficulty, n2.difficulty);
  }

  lemma NumericFeaturesInjective(n1: RawRecord, n2: RawRecord)
    ensures NumericFeatures(n1) == NumericFeatures(n2) <==>
      && n1.age == n2.age && n1.playTime == n2.playTime && n1.purchases == n2.purchases
      && n1.sessions == n2.sessions && n1.duration == n2.duration
  {
    if NumericFeatures(n1) == NumericFeatures(n2) {
      assert NumericFeatures(n1)[0] == NumericFeatures(n2)[0];
      assert NumericFeatures(n1)[2] == NumericFeatures(n2)[2];
      assert NumericFeatures(n1)[3] == NumericFeatures(n2)[3];
      assert NumericFeatures(n1)[4] == NumericFeatures(n2)[4];
    }
  }

  /** Two records as typed give the same vector exactly when their canonical
      records are equal: the encoding keeps the numbers and the recognised
      categories and forgets only case, surrounding whitespace and which
      unrecognised word was typed. */
  lemma EncodingDeterminesCanonical(r1: RawRecord, r2: RawRecord)
    ensures FeatureVector(r1) == FeatureVector(r2) <==> Canonical(r1) == Canonical(r2)
  {
    var n1, n2 := NormalizeAnswers(r1), NormalizeAnswers(r2);
    EncodeDeterminesCategories(n1, n2);
    NumericFeaturesInjective(n1, n2);
  }

  /** An unrecognised answer encodes exactly like the baseline category typed
      in as the prompt shows it; this fallback is silent, not an error. */
  lemma UnrecognisedIsBaseline(r: RawRecord, s: string)
    ensures Normalize(s) !in LocationTokens
            ==> FeatureVector(r.(location := s)) == FeatureVector(r.(location := "Other"))
    ensures Normalize(s) !in GenderTokens
            ==> FeatureVector(r.(gender := s)) == FeatureVector(r.(gender := "Female"))
    ensures Normalize(s) !in GenreTokens
            ==> FeatureVector(r.(genre := s)) == FeatureVector(r.(genre := "Action"))
    ensures Normalize(s) !in DifficultyTokens
            ==> FeatureVector(r.(difficulty := s)) == FeatureVector(r.(difficulty := "Easy"))
  {
    LocationOptions();
    GenderOptions();
    GenreOptions();
    DifficultyOptions();
    EncodingDeterminesCanonical(r.(location := s), r.(location := "Other"));
    EncodingDeterminesCanonical(r.(gender := s), r.(gender := "Female"));
    EncodingDeterminesCanonical(r.(genre := s), r.(genre := "Action"));
    EncodingDeterminesCanonical(r.(difficulty := s), r.(difficulty := "Easy"));
  }

  /** Each option the location prompt offers normalises to its token. */
  lemma LocationOptions()
    ensures Normalize("USA") == "usa" && Normalize("Europe") == "europe"
    ensures Normalize("Other") == LocationBaseline
  {
    NormalizeTrimmed("USA");
    NormalizeTrimmed("Europe");
    NormalizeTrimmed("Other");
  }

  /** Each option the gender prompt offers normalises to its token. */
  lemma GenderOptions()
    ensures Normalize("Male") == "male" && Normalize("Other") == "other"
    ensures Normalize("Female") == GenderBaseline
  {
    NormalizeTrimmed("Male");
    NormalizeTrimmed("Other");
    NormalizeTrimmed("Female");
  }

  /** Each option the genre prompt offers normalises to its token. */
  lemma GenreOptions()
    ensures Normalize("RPG") == "rpg" && Normalize("Strategy") == "strategy"
    ensures Normalize("Sports") == "sports" && Normalize("Action") == GenreBaseline
  {
    NormalizeTrimmed("RPG");
    NormalizeTrimmed("Strategy");
    NormalizeTrimmed("Sports");
    NormalizeTrimmed("Action");
  }

  /** The genre prompt does not offer "Simulation", yet the encoder
      recognises it at position 10. */
  lemma SimulationRecognised(r: RawRecord)
    ensures Normalize("Simulation") == "simulation"
    ensures FeatureVector(r.(genre := "Simulation"))[10] == 1.0
  {
    NormalizeTrimmed("Simulation");
    GenreGroup(NormalizeAnswers(r.(genre := "Simulation")));
  }

  /** Each option the difficulty prompt offers normalises to its token. */
  lemma DifficultyOptions()
    ensures Normalize("Hard") == "hard" && Normalize("Medium") == "medium"
    ensures Normalize("Easy") == DifficultyBaseline
  {
    NormalizeTrimmed("Hard");
    NormalizeTrimmed("Medium");
    NormalizeTrimmed("Easy");
  }

  /** Answers that normalise alike give the same vector. */
  lemma NormalizationInsensitive(r: RawRecord, s1: string, s2: string)
    requires Normalize(s1) == Normalize(s2)
    ensures FeatureVector(r.(location := s1)) == FeatureVector(r.(location := s2))
    ensures FeatureVector(r.(gender := s1)) == FeatureVector(r.(gender := s2))
    ensures FeatureVector(r.(genre := s1)) == FeatureVector(r.(genre := s2))
    ensures FeatureVector(r.(difficulty := s1)) == FeatureVector(r.(difficulty := s2))
  {
  }

  /** `strip().lower()` gives no capital letters back. */
  lemma NormalizeHasNoCapitals(s: string)
    ensures forall k :: 0 <= k < |Normalize(s)| ==> !IsUpper(Normalize(s)[k])
  {
    LowerChars(Strip(s));
  }

  /** Answers that differ only in the case of their letters normalise alike. */
  lemma NormalizeCaseInsensitive(s: string, t: string)
    requires SameUpToCase(s, t)
    ensures Normalize(s) == Normalize(t)
  {
    StripSameCase(s, t);
    LowerCaseInsensitive(Strip(s), Strip(t));
  }

  /** Answers that differ only in the case of their letters give the same
      vector, for each of the four attributes. */
  lemma CaseInsensitive(r: RawRecord, s: string, t: string)
    requires SameUpToCase(s, t)
    ensures FeatureVector(r.(location := s)) == FeatureVector(r.(location := t))
    ensures FeatureVector(r.(gender := s)) == FeatureVector(r.(gender := t))
    ensures FeatureVector(r.(genre := s)) == FeatureVector(r.(genre := t))
    ensures FeatureVector(r.(difficulty := s)) == FeatureVector(r.(difficulty := t))
  {
    NormalizeCaseInsensitive(s, t);
    NormalizationInsensitive(r, s, t);
  }

  /** The worked example: "USA", "Male", "RPG", "Hard". */
  lemma ScenarioWorkedExample()
    ensures FeatureVector(RawRecord(25, 10.5, 3, 5, 45, "USA", "Male", "RPG", "Hard"))
            == [25.0, 10.5, 3.0, 5.0, 45.0, 0.0, 1.0, 1.0, 0.0, 1.0, 0.0, 0.0, 0.0, 1.0, 0.0]
  {
    LocationOptions();
    GenderOptions();
    GenreOptions();
    DifficultyOptions();
    assert NormalizeAnswers(RawRecord(25, 10.5, 3, 5, 45, "USA", "Male", "RPG", "Hard"))
           == RawRecord(25, 10.5, 3, 5, 45, "usa", "male", "rpg", "hard");
  }

  /** Every baseline answer leaves all ten indicators at 0. */
  lemma ScenarioAllBaselines(age: int, playTime: real, purchases: int, sessions: int, duration: int)
    ensures FeatureVector(RawRecord(age, playTime, purchases, sessions, duration, "Other", "Female", "Action", "Easy"))[5..]
            == [0.0, 0.0, 0.0, 0.0, 0.0, 0.0, 0.0, 0.0, 0.0, 0.0]
  {
    LocationOptions();
    GenderOptions();
    GenreOptions();
    DifficultyOptions();
    assert NormalizeAnswers(RawRecord(age, playTime, purchases, sessions, duration, "Other", "Female", "Action", "Easy"))
           == RawRecord(age, playTime, purchases, sessions, duration, "other", "female", "action", "easy");
  }

  /** " MALE " encodes like "Male", and the unknown "Mars" like "Other". */
  lemma ScenarioSpacingAndUnknown(r: RawRecord)
    ensures FeatureVector(r.(gender := " MALE ")) == FeatureVector(r.(gender := "Male"))
    ensures FeatureVector(r.(location := "Mars")) == FeatureVector(r.(location := "Other"))
  {
    NormalizePadded(" ", "MALE", " ");
    assert " " + "MALE" + " " == " MALE ";
    GenderOptions();
    NormalizationInsensitive(r, " MALE ", "Male");
    NormalizeTrimmed("Mars");
    UnrecognisedIsBaseline(r, "Mars");
  }

  /** The label table is defined on exactly the class ids 0, 1 and 2, and
      different classes get different labels. */
  lemma LabelsTable()
    ensures Labels.Keys == {0, 1, 2}
    ensures Labels[0] == "Low" && Labels[1] == "Medium" && Labels[2] == "High"
    ensures forall i, j :: i in Labels && j in Labels && Labels[i] == Labels[j] ==> i == j
  {
  }
}
