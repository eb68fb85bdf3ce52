# Player-engagement feature encoder

This is a Dafny model of the command-line engagement predictor. The program
reads one player's details:

- five numbers: age, play time in hours, in-game purchases, sessions per week
  and average session length in minutes;
- four free-text categorical answers: location, gender, game genre and game
  difficulty.

It strips and lower-cases each categorical answer. It then one-hot encodes
each answer against the categories the classifier was trained on, with the
first (baseline) category dropped. The result is a fixed-order row of 15
numbers. The row is checked for length and passed through the fitted scaler
and classifier. The predicted class id is printed as `Low`, `Medium` or
`High`.

The model has three modules:

- `PyStr` (`pystr.dfy`) models `str.strip()` and `str.lower()` on ASCII text.
  `Strip` is written as CPython's two index scans. It has a proved
  characterisation: a trimmed core surrounded by any whitespace strips back
  to that core.
- `DropFirst` (`dropfirst.dfy`) is a reference definition of a drop-first
  one-hot encoding for any attribute. It covers the indicator group, the
  category the group still distinguishes, and a decoder. The lemmas show
  three things: decoding inverts encoding up to the baseline, each group sums
  to at most 1, and two answers share a group exactly when they share a
  category.
- `Engagement` (`engagement.dfy`) holds the player record and the
  15-position vector exactly as the source writes it. It also holds the
  length check, the label table and the main pipeline. The lemmas tie the
  literal vector to the `DropFirst` reference definition. From that they
  prove which inputs the encoding can and cannot tell apart. They also cover
  the prompt options and the worked scenarios.

The code has ten indicator positions (5 to 14). `ScenarioAllBaselines`
states that all ten are 0 for Other, Female, Action and Easy. The genre
prompt at line 27 does not offer Simulation, but line 45 recognises it;
`SimulationRecognised` states this.

## Model

| member | source | states |
|---|---|---|
| PyStr.IsWhitespace | predict_engagement.py:25-28 | the ASCII characters `str.strip()` removes: TAB, LF, VT, FF, CR, the separators FS, GS, RS, US, and SPACE |
| PyStr.WhitespaceChars | predict_engagement.py:25-28 | a character is removed by `strip()` if and only if it is one of those ten characters |
| PyStr.StripStart | predict_engagement.py:25-28 | the left scan of `strip()` stops at the first non-whitespace character at or after `i` (or at the end), and everything it skipped is whitespace |
| PyStr.StripEnd | predict_engagement.py:25-28 | the right scan stops just after the last non-whitespace character before `j` (or at `i`), and everything it skipped is whitespace |
| PyStr.Strip | predict_engagement.py:25-28 | the stripped answer has no leading or trailing whitespace |
| PyStr.StripIsSlice | predict_engagement.py:25-28 | what `strip()` keeps is one contiguous slice of the answer, and everything removed on both sides is whitespace |
| PyStr.StripStartAt | predict_engagement.py:25-28 | the left scan from `i` returns exactly the first non-whitespace position after a whitespace run |
| PyStr.StripEndAt | predict_engagement.py:25-28 | the right scan returns exactly the start of the trailing whitespace run |
| PyStr.StripPadded | predict_engagement.py:25-28 | stripping any whitespace prefix and suffix off a trimmed core gives exactly the core |
| PyStr.StripTrimmed | predict_engagement.py:25-28 | an answer without surrounding whitespace is unchanged by `strip()` |
| PyStr.Lower | predict_engagement.py:25-28 | `lower()` keeps the length of the answer |
| PyStr.LowerKeepsTrimmed | predict_engagement.py:25-28 | lower-casing does not create leading or trailing whitespace |
| PyStr.LowerIdempotent | predict_engagement.py:25-28 | lower-casing twice is the same as lower-casing once |
| PyStr.LowerChars | predict_engagement.py:25-28 | `lower()` turns each capital A-Z into the small letter 32 code points above it, keeps every other character, and leaves no capital |
| PyStr.LowerCaseInsensitive | predict_engagement.py:25-28 | two strings lower-case alike if and only if they differ at most in the case of ASCII letters, position by position |
| PyStr.SameCaseWhitespace | predict_engagement.py:25-28 | changing the case of a character never turns whitespace into non-whitespace or back |
| PyStr.StripStartSameCase | predict_engagement.py:25-28 | the left scan stops at the same position in two strings that differ only in case |
| PyStr.StripEndSameCase | predict_engagement.py:25-28 | the right scan stops at the same position in two strings that differ only in case |
| PyStr.StripSameCase | predict_engagement.py:25-28 | stripping two strings that differ only in case gives two strings that still differ only in case |
| DropFirst.OneHotTail | predict_engagement.py:35-51 | an indicator group is the first token's indicator followed by the group of the remaining tokens |
| DropFirst.OneHotAt | predict_engagement.py:35-51 | each indicator of a group is 0 or 1, and it is 1 exactly when the answer equals that indicator's token |
| DropFirst.DecodeOneHot | predict_engagement.py:31-51 | decoding a group gives back the answer when it is a listed category and the baseline otherwise (encoding is inverted up to the baseline) |
| DropFirst.OneHotSum | predict_engagement.py:31-51 | with distinct tokens, a group's indicators add up to 1 for a listed answer and to 0 for any other: at most one indicator is set |
| DropFirst.UnlistedIsAllZero | predict_engagement.py:31-51 | an answer has all-zero indicators if and only if it is not a listed category |
| DropFirst.OneHotSameIffSameCategory | predict_engagement.py:31-51 | two answers get the same indicator group if and only if they fall in the same category (listed token or baseline) |
| Engagement.Normalize | predict_engagement.py:25-28 | `strip().lower()` of an answer is trimmed and no longer than the answer |
| Engagement.NormalizeAnswers | predict_engagement.py:18-28 | the five numbers are kept and each of the four categorical answers is normalised, so each is trimmed |
| Engagement.Encode | predict_engagement.py:56-72 | the encoded list has exactly 15 entries |
| Engagement.FeatureVector | predict_engagement.py:25-72 | the vector built from a record as typed has exactly `expected_number_of_features` (15) entries |
| Engagement.GetUserInput | predict_engagement.py:74-78 | the length check always passes, so the encoder always returns one row, which is the record's 15-entry feature vector; the feature-count error is unreachable |
| Engagement.LabelOf | predict_engagement.py:86 | a class id has a label if and only if it is 0, 1 or 2; these map to Low, Medium and High; any other id is a missing-key error naming that id |
| Engagement.PredictEngagement | predict_engagement.py:82-86 | the printed label is the label of the first class the classifier predicts for the scaled one-row input; an empty prediction and an id with no label are errors; a result is always Low, Medium or High; a feature-count error never occurs |
| Engagement.NumericFeaturesCopied | predict_engagement.py:56-61 | positions 0 to 4 are age, play time, purchases, sessions and duration, unchanged and in that order |
| Engagement.LocationGroup | predict_engagement.py:35-37 | position 5 is 1 if and only if location is "europe", position 6 if and only if it is "usa"; together they are the location's drop-first group (baseline "other") |
| Engagement.GenderGroup | predict_engagement.py:39-41 | position 7 is 1 if and only if gender is "male", position 8 if and only if it is "other"; together they are the gender group (baseline "female") |
| Engagement.GenreGroup | predict_engagement.py:43-47 | positions 9 to 12 are 1 exactly for "rpg", "simulation", "sports" and "strategy"; together they are the genre group (baseline "action") |
| Engagement.DifficultyGroup | predict_engagement.py:49-51 | position 13 is 1 if and only if difficulty is "hard", position 14 if and only if it is "medium"; together they are the difficulty group (baseline "easy") |
| Engagement.SplitAtGroups | predict_engagement.py:56-72 | a 15-entry vector is its numeric part followed by the four group slices |
| Engagement.EncodeLayout | predict_engagement.py:31-72 | the literal vector equals the five numbers followed by the drop-first one-hot groups of location, gender, genre and difficulty, in that order |
| Engagement.IndicatorsAreBinary | predict_engagement.py:35-51 | every position from 5 to 14 holds 0 or 1 |
| Engagement.OneHotGroups | predict_engagement.py:35-51 | within each attribute's group the indicators sum to 1 for a recognised answer and to 0 otherwise |
| Engagement.NormalizeIdempotent | predict_engagement.py:25-28 | `strip().lower()` applied to its own result changes nothing |
| Engagement.NormalizeTrimmed | predict_engagement.py:25-28 | an answer without surrounding whitespace normalises to its lower-cased self |
| Engagement.NormalizePadded | predict_engagement.py:25-28 | a word with any whitespace around it normalises like the bare word |
| Engagement.EncodeDeterminesCategories | predict_engagement.py:35-72 | two normalised records give the same vector if and only if they agree on the five numbers and on the category of each attribute |
| Engagement.NumericFeaturesInjective | predict_engagement.py:56-61 | the numeric part of the vector is equal if and only if the five numbers are |
| Engagement.EncodingDeterminesCanonical | predict_engagement.py:25-72 | two records as typed give the same vector if and only if they agree on the numbers and on each recognised category: the encoding forgets only case, surrounding whitespace and which unrecognised word was typed (with `strip()` and `lower()` as modelled on ASCII) |
| Engagement.UnrecognisedIsBaseline | predict_engagement.py:35-51 | any answer that is not recognised after normalisation encodes exactly like the baseline option typed as the prompt shows it (Other, Female, Action, Easy), with no error (with `strip()` as modelled on ASCII whitespace) |
| Engagement.LocationOptions | predict_engagement.py:25 | each option the location prompt offers normalises to its token or to the baseline |
| Engagement.GenderOptions | predict_engagement.py:26 | each option the gender prompt offers normalises to its token or to the baseline |
| Engagement.GenreOptions | predict_engagement.py:27 | each option the genre prompt offers normalises to its token or to the baseline |
| Engagement.SimulationRecognised | predict_engagement.py:44-45 | "Simulation" sets position 10 even though the genre prompt at line 27 does not offer it |
| Engagement.DifficultyOptions | predict_engagement.py:28 | each option the difficulty prompt offers normalises to its token or to the baseline |
| Engagement.NormalizationInsensitive | predict_engagement.py:25-28 | two answers that normalise alike give the same vector, for each of the four attributes |
| Engagement.NormalizeHasNoCapitals | predict_engagement.py:25-28 | a normalised answer contains no capital letter |
| Engagement.NormalizeCaseInsensitive | predict_engagement.py:25-28 | answers that differ only in the case of their letters normalise to the same token |
| Engagement.CaseInsensitive | predict_engagement.py:25-51 | answers that differ only in the case of their letters give the same vector, for each of the four attributes |
| Engagement.ScenarioWorkedExample | predict_engagement.py:35-72 | 25, 10.5, 3, 5, 45, USA, Male, RPG, Hard encodes to `[25, 10.5, 3, 5, 45, 0, 1, 1, 0, 1, 0, 0, 0, 1, 0]` |
| Engagement.ScenarioAllBaselines | predict_engagement.py:35-51 | Other, Female, Action and Easy leave all ten indicator positions at 0, whatever the numbers |
| Engagement.ScenarioSpacingAndUnknown | predict_engagement.py:25-51 | " MALE " encodes like "Male", and the unknown location "Mars" encodes like "Other" |
| Engagement.LabelsTable | predict_engagement.py:12 | the label table is defined on exactly the ids 0, 1 and 2, maps them to Low, Medium and High, and gives different ids different labels |

## Left out

- Loading the trained model and scaler from their pickle files (lines 5-6) is file I/O. `PredictEngagement` takes the scaler's `transform` and the classifier's `predict` as function parameters.
- The fitted scaler and classifier are foreign code. Their behaviour is not part of this model; only how their results are used is.
- Prompting, reading lines from standard input and printing (lines 15-28 and 86) are I/O. A `RawRecord` holds the answers as read, and the printed label is the result of `PredictEngagement`.
- Parsing the numeric answers with `int()` and `float()` (lines 18-22) is left out. When an answer is not a number, the source raises Python's `ValueError` before encoding. The model starts from the parsed numbers, so it has no input-format error.
- Engagement.FeatureVector: entries are exact reals, not the 64-bit floats that `np.array` (line 78) produces. Integers above 2^53 and the rounding of play time are not modelled. Play time cannot be `nan` or `inf`, which `float()` at line 19 accepts.
- Engagement.GetUserInput: the text of the `ValueError` message at line 76 is not modelled, only the counts it names.
- PyStr.Strip and PyStr.Lower: only ASCII is modelled. Python's `strip()` also removes non-ASCII whitespace (for example U+00A0 and U+2028), and `lower()` also maps non-ASCII capitals. Answers containing such characters are outside the model: for example the model strips nothing from `"\u00A0usa"`, so it encodes that answer as the baseline, while Python gives `usa`. The lemmas about the encoder hold for the model on all strings and describe the program only for ASCII answers.
- Engagement.PredictEngagement: the classifier's ids are modelled as `int`. An id of a type the label dictionary would not match is outside the model. An empty prediction, which would be an `IndexError` in Python, is the `NoPrediction` error.
