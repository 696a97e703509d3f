# Hand-landmark normalisation and sign prediction, in Dafny

This project models the front of a sign-language recognition pipeline. MediaPipe
reports 21 keypoints per detected hand. The pipeline turns them into pixel
positions or into a normalised feature vector, and the prediction server turns
a feature vector into a letter.

- `utils/calc_landmarks.py`, modelled in `calc_landmarks.dfy`:
  - the conversion of landmarks to pixels;
  - the 2D and 3D normalisers. Each subtracts the wrist (point 0) from every point, flattens the points into one vector and divides it by its largest absolute value.
  - the extraction of the first hand from a MediaPipe result.
- `api_server.py`, modelled in `api_server.dfy`:
  - the server's own copy of the 2D normaliser. It reads 63 values, drops z and keeps 42.
  - the decision logic of the `/predict` endpoint: request validation, routing by handedness, and the top-1 and top-3 selection over the classifier's scores;
  - the default label table.
- `normalizer.dfy` holds the pure definition of the normalisation, shared by both files, and what is proved about it.
- `wrappers.dfy` holds the `Option` type used for the error paths.

Floats are idealised as `real`. Python's `int()` on a float truncates toward zero, and it is modelled that way, including for negative values.

The source works in place in two places, and the model keeps that form:
- The utility normalisers deep-copy the caller's list and overwrite the copy point by point. Here the list is an `array` that the method copies and overwrites. The method has no `modifies` clause, so the caller's array provably stays unchanged.
- The server normaliser subtracts the wrist from a 21×3 numpy array column by column. Here that is an `array2` with two loops.

Each method is proved equal to the pure function that specifies it. The properties are proved about that function.

The classifier is a parameter `Classifier = (HandModel, seq<real>) -> seq<real>`. It stands for the two loaded Keras models.

A few facts about the code that the model follows:
- The server feeds the classifier 42 values (x and y of 21 points), not 63. The 3D normaliser is used only by `extract_landmarks_from_mediapipe`.
- The normalisers check no point count. For a list of `[x, y]` (or `[x, y, z]`) lists they fail only on an empty list, where `max` raises. The server answers 400 for any count other than 63 values, and 500 for any exception in the handler.
- There is no "unavailable" path when a model is missing. Both models are loaded at start-up, and a missing model file raises there (api_server.py:39-42), so the server never starts without both. The exact string `"Left"` selects the left one, and any other value selects the right one.

## Model

| member | source | states |
|---|---|---|
| Normalizer.ToWrist2 | utils/calc_landmarks.py:52-58 | translating to the wrist keeps one point per input point |
| Normalizer.ToWrist3 | utils/calc_landmarks.py:88-97 | the same for 3D points |
| Normalizer.Flatten2 | utils/calc_landmarks.py:61-62 | flattening 2D points gives exactly 2·n values |
| Normalizer.Flatten3 | utils/calc_landmarks.py:100-101 | flattening 3D points gives exactly 3·n values |
| Normalizer.Flatten2At | utils/calc_landmarks.py:61-62 | the flat vector is interleaved in point order: value 2i is point i's x and value 2i+1 its y |
| Normalizer.Flatten3At | utils/calc_landmarks.py:100-101 | values 3i, 3i+1 and 3i+2 are point i's x, y and z |
| Normalizer.MaxAbsIsMax | utils/calc_landmarks.py:65 | the maximum of the absolute values bounds the absolute value of every entry and is reached by one |
| Normalizer.MaxAbs | utils/calc_landmarks.py:65 | the largest absolute value is never negative; `MaxAbsIsMax`, `MaxAbsUnique` and `MaxAbsZero` show that it is the maximum of the absolute values |
| Normalizer.MaxAbsZero | utils/calc_landmarks.py:65 | that maximum is never negative, and it is 0 exactly when every entry is 0 |
| Normalizer.DivideByMax | utils/calc_landmarks.py:67-70 | mapping the division over the vector keeps its length |
| Normalizer.Normalize | utils/calc_landmarks.py:65-70 | normalisation fails (max of an empty list) exactly on the empty vector, and otherwise keeps the length |
| Normalizer.NormalizeValueRange | utils/calc_landmarks.py:67-68 | a value divided by a bound of its absolute value lies in [-1, 1], is 0 only for 0, and reaches ±1 when it attains a non-zero bound |
| Normalizer.NormalizeValue | utils/calc_landmarks.py:67-68 | `normalize_` divides by the maximum only when it is non-zero; `NormalizeValueRange` and `NormalizeValueScale` state what the result is |
| Normalizer.NormalizeRange | utils/calc_landmarks.py:65-70 | every normalised value lies in [-1, 1]; one reaches ±1 when any input is non-zero; the output is all 0 exactly when the input is |
| Normalizer.NormalizeScaleInvariant | utils/calc_landmarks.py:65-70 | multiplying the vector by a positive factor does not change the normalised result |
| Normalizer.WristRelative2At | utils/calc_landmarks.py:52-62 | after translation every point is shifted by the same wrist offset: flat value 2i is x_i − x_0 and 2i+1 is y_i − y_0 |
| Normalizer.WristRelative3At | utils/calc_landmarks.py:88-101 | the same for x, y and z |
| Normalizer.Span2IsMax | utils/calc_landmarks.py:53-65 | the divisor is the largest absolute offset of any coordinate from the wrist, and some coordinate attains it |
| Normalizer.Span3IsMax | utils/calc_landmarks.py:89-104 | the same for three coordinates |
| Normalizer.PreProcess2At | utils/calc_landmarks.py:34-72 | output 2i and 2i+1 are point i's offsets from the wrist divided by the common span |
| Normalizer.PreProcess3At | utils/calc_landmarks.py:75-111 | output 3i, 3i+1 and 3i+2 are point i's offsets from the wrist divided by the common span |
| Normalizer.WristRelativeZero2 | utils/calc_landmarks.py:52-62 | the flat wrist-relative vector is all 0 exactly when every point equals the wrist |
| Normalizer.WristRelativeZero3 | utils/calc_landmarks.py:88-101 | the same in 3D |
| Normalizer.PreProcess2Properties | utils/calc_landmarks.py:34-72 | fails exactly on an empty list; otherwise 2·n values, the wrist's two are 0, all lie in [-1, 1], one is ±1 unless every point sits on the wrist, and all are 0 exactly when every point does |
| Normalizer.PreProcess2 | utils/calc_landmarks.py:34-72 | the 2D normaliser fails exactly on an empty list and otherwise gives 2·n values; `PreProcess2Properties`, `PreProcess2At` and the invariance lemmas state the rest |
| Normalizer.PreProcess3Properties | utils/calc_landmarks.py:75-111 | fails exactly on an empty list; otherwise 3·n values, the wrist's three are 0, all lie in [-1, 1], one is ±1 unless every point sits on the wrist, and all are 0 exactly when every point does |
| Normalizer.PreProcess3 | utils/calc_landmarks.py:75-111 | the 3D normaliser fails exactly on an empty list and otherwise gives 3·n values; `PreProcess3Properties`, `PreProcess3At` and the invariance lemmas state the rest |
| Normalizer.PreProcess2ScaleInvariant | utils/calc_landmarks.py:34-72 | scaling every point by a positive factor (a larger or nearer hand) does not change the output |
| Normalizer.PreProcess3ScaleInvariant | utils/calc_landmarks.py:75-111 | the same in 3D |
| Normalizer.PreProcess2TranslationInvariant | utils/calc_landmarks.py:52-58 | moving the whole hand by any offset does not change the output |
| Normalizer.PreProcess3TranslationInvariant | utils/calc_landmarks.py:88-97 | the same in 3D |
| CalcLandmarks.Truncate | utils/calc_landmarks.py:27-28 | `int()` truncates toward zero: for r ≥ 0, t ≤ r < t+1 and t ≥ 0; for r < 0, t−1 < r ≤ t and t ≤ 0 |
| CalcLandmarks.ToPixel | utils/calc_landmarks.py:27-28 | a pixel is never past the last column or row (x ≤ width−1, y ≤ height−1) |
| CalcLandmarks.PixelCoordinateInImage | utils/calc_landmarks.py:27-28 | a coordinate in [0, 1] lands in [0, size−1], and below 1 it is the floor of coordinate × size, unclamped |
| CalcLandmarks.ToPixelInImage | utils/calc_landmarks.py:27-28 | a landmark inside the unit square lands inside the image |
| CalcLandmarks.ToPixelNoLowerClamp | utils/calc_landmarks.py:27-28 | an illustration of `ToPixelBeforeImage` on concrete values: x = −0.5 on a 100-pixel-wide image gives pixel x = −50 |
| CalcLandmarks.PixelCoordinateBeforeImage | utils/calc_landmarks.py:27-28 | a negative coordinate is not clamped: its pixel is the truncated product, at most 0 |
| CalcLandmarks.ToPixelBeforeImage | utils/calc_landmarks.py:27-28 | for every landmark and non-empty image, a negative x (or y) gives the unclamped truncated pixel x (or y), at most 0 |
| CalcLandmarks.CalcLandmarkList | utils/calc_landmarks.py:11-31 | one pixel pair per landmark, in input order, each the landmark's pixel, none past the last column or row |
| CalcLandmarks.PreProcessLandmark | utils/calc_landmarks.py:34-72 | the in-place loop on a copy computes the 2D normaliser and leaves the caller's list unchanged; None exactly for an empty list; 2·n values with wrist entries 0, all in [-1, 1] |
| CalcLandmarks.PreProcessLandmark3d | utils/calc_landmarks.py:75-111 | the same for three coordinates: 3·n values, the wrist's three are 0, all in [-1, 1] |
| CalcLandmarks.ExtractLandmarksFromMediapipe | utils/calc_landmarks.py:114-147 | no hand gives NoHand; otherwise only the first hand is used, its landmarks 3D-normalised (3·n values) and reported with that hand's own label and score |
| ApiServer.Reshape3 | api_server.py:97 | reshaping 3·rows values gives `rows` points |
| ApiServer.FlattenReshape | api_server.py:97 | reshaping a flattened list of points gives the points back |
| ApiServer.ReshapeFlatten | api_server.py:97 | flattening the reshaped points gives the values back |
| ApiServer.DropZ | api_server.py:98 | keeping the x, y columns keeps each point's x and y |
| ApiServer.ServerPoints | api_server.py:97-98 | 63 values make 21 points |
| ApiServer.ServerPointsAt | api_server.py:97-98 | point i is made of values 3i and 3i+1; value 3i+2 (z) is dropped |
| ApiServer.PreprocessedLandmarks | api_server.py:84-113 | the server's normaliser returns 42 values for a 63-value request |
| ApiServer.PreprocessedLandmarksMatchesUtility | api_server.py:109-111 | the `> 0` guard of the server agrees with the `!= 0` guard of the utility normaliser: the server's result equals the 2D utility normaliser on the x, y columns, so `Normalizer.PreProcess2At` gives each output value as its point's offset from the wrist over one common span |
| ApiServer.ShiftRequest | api_server.py:101-103 | moving every point of a request keeps its 63 values |
| ApiServer.PreprocessedLandmarksShiftInvariant | api_server.py:101-103 | every point is shifted by the same wrist offset, so moving the whole hand leaves the output unchanged |
| ApiServer.PreprocessedLandmarksProperties | api_server.py:101-111 | 42 values, the wrist's two are 0, all lie in [-1, 1], one is ±1 unless every point sits on the wrist, and all are 0 exactly when every point does |
| ApiServer.PreprocessedLandmarksIgnoresZ | api_server.py:97-98 | two requests that differ only in their z values are preprocessed alike |
| ApiServer.WristRelativeRows | api_server.py:101-103 | the rows after the two column subtractions are the points translated to the wrist |
| ApiServer.PreprocessLandmarks | api_server.py:84-113 | fails (reshape raises) exactly when there are not 63 values; otherwise the in-place column subtraction, flattening and guarded division compute the server normaliser |
| ApiServer.ArgMax | api_server.py:222 | `np.argmax` gives an index of a largest score and no earlier index scores as high |
| ApiServer.InsertIndex | api_server.py:227 | inserting an index into a score-ascending list keeps it ascending and distinct and adds exactly that index |
| ApiServer.ArgSortPrefix | api_server.py:227 | sorting indices 0..n−1 gives each of them once, in ascending order of score |
| ApiServer.ArgSort | api_server.py:227 | `np.argsort` gives every index of the vector once, in ascending order of score |
| ApiServer.LastN | api_server.py:227 | the slice `[-3:]` keeps three elements, or all of them when there are fewer |
| ApiServer.Reverse | api_server.py:227 | reversal keeps the length |
| ApiServer.TopIndexAt | api_server.py:227 | entry a of the top-k is entry n−1−a of the argsort |
| ApiServer.TopIndices | api_server.py:227 | the last k of the argsort, reversed, has min(k, n) entries; `TopIndicesOrdered`, `TopIndicesExcluded` and `TopIndicesProperties` state which indices and in what order |
| ApiServer.TopIndicesOrdered | api_server.py:227 | the top-k are min(k, n) different indices of the vector in non-increasing order of score |
| ApiServer.TopIndicesExcluded | api_server.py:227 | no index left out of the top-k scores above one kept |
| ApiServer.TopIndicesProperties | api_server.py:227 | both of the above together |
| ApiServer.ArgMaxMatchesTop | api_server.py:222-234 | the first top-3 entry scores the same as the argmax, so `top3[0]` carries the reported confidence |
| ApiServer.DefaultLabels | api_server.py:65 | the default table has 27 labels: 26 single lowercase letters in strictly increasing order, then "space" |
| ApiServer.DefaultLabelsAlphabet | api_server.py:65 | every letter a–z is a label, and all 27 labels are different |
| ApiServer.RankEntries | api_server.py:228-234 | one `top3` entry per selected index, carrying that index's label and score |
| ApiServer.PredictValidation | api_server.py:192-199 | 400 exactly when `landmarks` is missing or has other than 63 values, with the matching error; this answer does not depend on the classifier |
| ApiServer.WellFormed | api_server.py:192-199 | a request passes validation exactly when `landmarks` is present and holds 63 values; `PredictValidation` and `Predict` state that every other request gets 400 |
| ApiServer.Predict | api_server.py:181-257 | the handler answers 400 exactly for a request without landmarks or with other than 63 of them; `PredictValidation`, `PredictScored`, `PredictRouting` and `DefaultLabelsSuffice` state the rest |
| ApiServer.RequestedHandedness | api_server.py:196 | a missing `handedness` means "Right"; stated in `PredictRouting` |
| ApiServer.SelectModel | api_server.py:208-213 | exactly the string "Left" selects the left model, any other the right one; stated in `PredictRouting` |
| ApiServer.Respond | api_server.py:219-234 | after validation no path answers 400; a 500 comes from empty scores or an index outside the label table; `RespondTop1`, `RespondTop3`, `RespondSucceeds` and `RespondEcho` state the rest |
| ApiServer.RespondNeverBadRequest | api_server.py:219-234 | after validation, no path answers 400 |
| ApiServer.PredictScored | api_server.py:204-219 | a well-formed request is answered from the scores that the model selected by its handedness gives for its preprocessed landmarks |
| ApiServer.Scores | api_server.py:204-219 | the scores of the model chosen by the handedness on the preprocessed landmarks; `PredictScored` states that a well-formed request is answered from them and `PredictRouting` that no other model's scores matter |
| ApiServer.PredictRouting | api_server.py:196-213 | handedness defaults to "Right" and is echoed back; the left model, reported as "Left Hand", is used exactly for "Left", and the right one, "Right Hand", otherwise; only the chosen model's scores affect the response |
| ApiServer.RespondEcho | api_server.py:245-251 | a response reports the requested handedness and the chosen model's name |
| ApiServer.ModelName | api_server.py:208-213 | the `model_name` strings "Left Hand" and "Right Hand", returned as `model_used` (line 250); `RespondEcho` and `PredictRouting` state which one a response carries |
| ApiServer.RespondTop1 | api_server.py:222-224 | the prediction is `LABELS` at the first index of a largest score, and the confidence is that largest score |
| ApiServer.RespondTop3 | api_server.py:227-234 | `top3` has min(3, n) entries for different classes, each with its own label and score, in non-increasing confidence; the first matches the confidence; no class left out scores above one kept |
| ApiServer.RespondSucceeds | api_server.py:222-234 | scores that are non-empty and no more than the labels always give a prediction; a 500 arises only for no scores or more scores than labels |
| ApiServer.DefaultLabelsSuffice | api_server.py:65 | with the default table, a well-formed request to a 27-class model always gets a prediction |

## Left out

- Floating point: all arithmetic is on `real`. The float32 cast of the model input (api_server.py:216) and IEEE rounding are not modelled.
- Ties in `np.argsort`: numpy's default sort is not stable for long vectors, so the order of equally scored classes in `top3` is unspecified. `ApiServer.ArgSort` orders ties by index (a stable sort). Every property proved about `top3` holds whatever the tie order. Under ties, `prediction` (the first maximal index) and `top3[0].label` may name different classes with the same confidence.
- The deep copy: points are values here, so the model cannot express that a shallow copy would have changed the caller's inner lists. It shows only that the caller's list is never written.
- CalcLandmarks.PreProcessLandmark and CalcLandmarks.PreProcessLandmark3d: aliasing inside the caller's list is not modelled. `copy.deepcopy` keeps a shared inner list shared. So a list holding the same inner list twice, such as `[p, p]`, has the wrist subtracted twice from that one copy, and the source then returns different values than `PreProcess2`/`PreProcess3` of the points. No caller in the modelled source builds such a list: every point is a fresh list.
- Points are typed as `Point2` and `Point3`, so the model covers only lists of `[x, y]` (or `[x, y, z]`) lists. In the source, a tuple point raises TypeError at the first in-place write (utils/calc_landmarks.py:57 in the 2D normaliser, line 95 in the 3D one). A point with too few coordinates raises IndexError: at the wrist on lines 55 and 92-93, and for any other point on lines 58 and 96-97. A point with extra coordinates passes them unchanged into the flattened vector.
- `extract_landmarks_from_mediapipe`: the parallel lists `multi_hand_landmarks` and `multi_handedness` are one sequence of hands, each with its landmarks and its first classification. A missing result and an empty list are both the empty sequence.
- The hand with no landmarks, where `max` raises ValueError, is an explicit `NoLandmarks` result rather than an exception.
- `calc_landmark_list` takes the image only for its width and height, so it takes those two numbers.
- The label file (api_server.py:57-62): file I/O. Only the default table is modelled. `Predict` takes the table as a parameter.
- The classifier itself (`model.predict`) and model loading: an opaque parameter.
- Flask routing, JSON decoding and logging are left out. `Request` holds `landmarks` as an optional list of numbers and `handedness` as an optional string, so it covers only string values of `handedness`. The source accepts other JSON values for these, and the model does not express them:
  - `data.get('handedness', 'Right')` returns any JSON value. Null, a number or a list compares unequal to `'Left'`, so it selects the right model, answers 200 and is echoed back in the response.
  - A body that is a JSON array or string does not raise at the `'landmarks' not in data` test. That is a membership or substring test, and it answers 400 "Landmarks required" when `'landmarks'` is not an element or substring. A null or numeric body raises there and gives 500.
  - A `landmarks` value with no length raises at the count check and gives 500.
  - `np.array(...).reshape(21, 3)` needs only 63 elements in total. So 63 entries that are one-element lists of numbers, such as `[[0.1], [0.2], …]`, are flattened by the reshape and answered exactly like the 63 numbers themselves.
  - A string anywhere among the 63 entries makes the whole numpy array one of strings. It passes the reshape and raises at the wrist subtraction, giving 500. So does null at an x or y position.
  - Null only at z positions (entries 2, 5, …, 62) gives an array of Python objects. The z column is dropped, and the subtraction, `np.abs`, `np.max`, the division and the float32 cast all work element by element on the x and y values. The server answers 200 as if z were absent. This is the source-level counterpart of `ApiServer.PreprocessedLandmarksIgnoresZ`, which the model states for numeric z only.
- `landmarks_to_image`: image drawing, not part of the landmark path.
- Temporal consensus, hold-commit and the hand-absence watchdog: none of these is present in the modelled source.
