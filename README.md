# Face-Classifier: the selection and assembly layer of `util.py`

This project models `server/artifacts/util.py` of the face-classifier service in Dafny. That file
takes a photo (a base64 string, possibly behind a data-URI header, or a file path). It finds the faces
in which an eye detector sees at least two eyes. It turns each such face into a 4096-entry feature
vector and asks a pickled classifier for a class. The result is a list of records, one per face, or a
single error record.

Everything perceptual or numeric is a call into a library, and each such call is a function
value here (module `Foreign`). These are the face and eye cascades (`Cascade`), `cv2.imdecode`,
`cv2.imread`, `cv2.cvtColor`, `cv2.resize`, wavelet.py's `w2d`, `base64.b64decode`, `np.around`
and the model's `predict` and `predict_proba` (`Classifier`, `Vision`). A call that can raise returns
`Outcome.Raised(message)`, where the message is the text of the exception.

What the repository's own code does is modelled exactly:

- `NdArray`: numpy semantics that the code relies on. `img[y:y+h, x:x+w]` clamps at the edges.
  `reshape(n, 1)` reads the array in C order and raises unless the sizes agree.
- `Labels`: the class dictionary as its ordered (name, number) entries, since a Python dict keeps
  insertion order. `{v:k ...}` keeps the last name for a repeated number. `class_number_to_name`
  falls back to `"Unknown"`.
- `DataUri`: `split(',')` and the payload choice `split(',')[1]`.
- `Util`: the five module globals as `class Artifacts` and as the value `Globals`. It also holds
  `load_saved_artifacts`, the lazy loading in `classify_image` and `get_cropped_image_if_2_eyes`, the
  eye filter loop, the feature-vector layout, and the per-face classification loop. The two loops are
  the module-level methods `KeepTwoEyed` and `ClassifyEach`, which the class methods call.
  `GetImage` picks `cv2.imread` for a non-empty path and the base64 decoder otherwise. An empty path is
  falsy in Python, so it also falls back to the base64 decoder.

Some behaviours of the code that a reader might not expect, all modelled as written:

- The payload of a data URI is `split(',')[1]` (lines 135-138): the text between the first and the
  second comma, not everything after the first comma. `DataUri.PayloadBetweenCommas` states this.
  The two readings agree whenever the payload holds no comma, which valid base64 never does.
- A base64 string that does not decode is not reported as a decoding error. The decoder returns
  None (lines 143-146), so `get_cropped_image_if_2_eyes` returns `[]` (lines 163-165), and
  `classify_image` then answers with the single "No face detected with two eyes" record (lines 47-48).
- Loading the artifacts is not a one-time step. `classify_image` and `get_cropped_image_if_2_eyes`
  load lazily (lines 41-42 and 154-155). A load failure inside `classify_image` becomes a single
  "Classification error: ..." record (lines 74-77). Every call to `load_saved_artifacts` replaces
  the dictionaries and cascades, but it sets the model only when none is set (lines 113-115).
- `cv2.CascadeClassifier` raises on a cascade file it cannot parse (lines 124-125). By then the
  model is already set, so a cascade can stay unset while the model is set.
  `Util.CascadeFailureAfterModel` states the consequence. Later `classify_image` calls skip the
  load (lines 41-42), `get_cropped_image_if_2_eyes` loads again (lines 154-155), and when that
  load fails too it returns `[]` (lines 180-183). The caller then gets the "No face detected with
  two eyes" record, not a "Classification error" record.

## Model

| member | source | states |
|---|---|---|
| `NdArray.Slice` | server/artifacts/util.py:173-174 | Python slicing `s[lo:hi]`: length is the clamped span, entry k is `s[lo+k]` |
| `NdArray.Crop` | server/artifacts/util.py:173-174 | `img[y:y+h, x:x+w]` has the clamped number of rows, row i being source row y+i cut to columns x..x+w |
| `NdArray.CropShape` | server/artifacts/util.py:173-174 | a crop of an H x W x C array has the clamped shape and holds source pixel (y+i, x+j) at (i, j) |
| `NdArray.CropSeesOnlyTheRegion` | server/artifacts/util.py:173-174 | two arrays of the same shape that agree on every pixel inside the rectangle have equal crops |
| `NdArray.RavelLength` | server/artifacts/util.py:56 | the C-order ravel of an H x W x C array has H*W*C samples |
| `NdArray.RavelAt` | server/artifacts/util.py:56 | C-order layout: sample (i, j, k) sits at position (i*W + j)*C + k of the ravel |
| `Labels.Invert` | server/artifacts/util.py:107 | the inverted map's keys are exactly the dictionary's numbers, each mapped to a name paired with it |
| `Labels.InvertLastWins` | server/artifacts/util.py:107 | for a repeated number, the inverted map keeps the name of the last entry carrying it |
| `Labels.ClassNumberToName` | server/artifacts/util.py:79-83 | a number in the map gives its mapped name; any other number gives `"Unknown"` |
| `Labels.NameRoundTrip` | server/artifacts/util.py:79-83 | for an injective dictionary, `number_to_name[name_to_number[n]] == n` for every name n |
| `Labels.NumberRoundTrip` | server/artifacts/util.py:79-83 | `class_number_to_name(k)` gives a name that maps back to k when k is a class number, `"Unknown"` otherwise |
| `DataUri.Split` | server/artifacts/util.py:136 | `split(',')`: one field more than commas, no field holds a comma, and joining with commas gives the text back |
| `DataUri.SplitJoin` | server/artifacts/util.py:136 | splitting the comma-join of comma-free fields gives the fields back |
| `DataUri.Payload` | server/artifacts/util.py:135-138 | without a comma the whole text is the payload; with one, the payload holds no comma |
| `DataUri.PayloadBetweenCommas` | server/artifacts/util.py:135-138 | the payload is the text between the first and the second comma (or the end), not everything after the first comma |
| `Util.DecodeBase64Image` | server/artifacts/util.py:133-146 | a missing string or a base64 error gives None; otherwise the image is `imdecode` of the decoded payload |
| `Util.Load` | server/artifacts/util.py:85-131 | dictionaries replaced together and kept inverse; an already-set model never replaced; success iff the dictionary loads, a model is set or loads, and both cascade files load; with no model set, a loaded model becomes the model and a failed model load is the raised exception; a failing cascade file is the raised exception and leaves the model set, the face cascade replaced only if its file loaded, and the eye cascade as it was |
| `Util.CascadeFailureAfterModel` | server/artifacts/util.py:113-125 | after a first load whose face-cascade file raises, the model is set and both cascades are unset; `classify_image` then does not load, and `get_cropped_image_if_2_eyes` loads again and raises the same exception |
| `Util.GlobalsNumberRoundTrip` | server/artifacts/util.py:79-83 | in any reachable state, a known class number maps to a name that the name-to-number dictionary maps back to it; an unknown number gives `"Unknown"` |
| `Util.EnsureModel` | server/artifacts/util.py:41-42 | with a model set nothing is loaded, even if a cascade is unset; otherwise a load; a success leaves the model set, and a success after a load leaves both cascades set |
| `Util.EnsureCascades` | server/artifacts/util.py:154-155 | with both cascades set nothing is loaded; otherwise a load; success leaves both cascades set; a set model stays the same |
| `Util.GetImage` | server/artifacts/util.py:158-161 | a non-empty path is read with `imread`; a missing or empty path falls back to the base64 decoder |
| `Util.EyesIn` | server/artifacts/util.py:173-175 | the eye detector runs on the face's region of the grayscale image with OpenCV's default scale factor 1.1 and 3 minimum neighbours |
| `Util.HasTwoEyes` | server/artifacts/util.py:175-176 | a face is accepted iff the eye detector succeeds on it and finds at least two eyes |
| `Util.EyeRuleSeesOnlyTheFace` | server/artifacts/util.py:173-176 | two grayscale images of the same shape that agree pixel by pixel on a face's region give the same eyes and the same verdict for that face |
| `Util.AcceptedFaces` | server/artifacts/util.py:171-179 | the kept faces are no more than the detections, and each is a detection with two eyes |
| `Util.AcceptedFacesComplete` | server/artifacts/util.py:171-179 | every detection with two eyes is kept, as many times as it was detected, and no other; the kept ones are a subsequence of the detections (detection order) |
| `Util.TwoEyedCrops` | server/artifacts/util.py:171-177 | the loop's result has at most one crop per detection, and each crop is the colour crop of some detection |
| `Util.TwoEyedCropsFilter` | server/artifacts/util.py:171-183 | the loop raises iff the eye detector raises on some face; otherwise it yields the crops of exactly the accepted faces, in order |
| `Util.KeepTwoEyed` | server/artifacts/util.py:171-179 | the loop computes `TwoEyedCrops`, stopping at the first eye-detector exception |
| `Util.DetectTwoEyedFaces` | server/artifacts/util.py:168-179 | raises iff the grayscale conversion, the face detector or an eye detection on some face raises; otherwise the crops of exactly the two-eyed faces, in detection order |
| `Util.CroppedFaces` | server/artifacts/util.py:163-183 | a missing image gives the empty list; an exception in detection gives the empty list; otherwise the detected two-eyed crops |
| `Util.FeatureVector` | server/artifacts/util.py:53-60 | a feature vector has 4096 entries: the raw crop's 32x32 ravel first (3072), the wavelet image's after (1024); a failing first resize, `w2d`, second resize or reshape of the raw image is the raised exception, the earliest in that order |
| `Util.Scores` | server/artifacts/util.py:53-62 | fails iff building the feature vector, `predict` or `predict_proba` raises, carrying the first exception in that order; otherwise the prediction and the probabilities on that vector |
| `Util.FeatureVectorLayout` | server/artifacts/util.py:53-60 | with 32x32x3 and 32x32 resizes the vector exists; entry (i*32+j)*3+k is raw sample (i,j,k), entry 3072+i*32+j wavelet pixel (i,j) |
| `Util.Percentages` | server/artifacts/util.py:66 | one percentage per class probability, in order, each `np.around(p * 100, 2)` of its probability |
| `Util.ClassifyFace` | server/artifacts/util.py:52-71 | a success record iff feature vector, predict and predict_proba all succeed, naming the predicted class via `class_number_to_name`, with `class_probability` the rounded percentages of `predict_proba` in class order and the loaded dictionary; otherwise the "Error processing image: " record with the exception |
| `Util.ClassifyEach` | server/artifacts/util.py:50-73 | exactly one record per face, in order, each depending only on its own face |
| `Util.Artifacts.constructor` | server/artifacts/util.py:10-14 | at import the dictionaries are empty and nothing is loaded |
| `Util.Artifacts.LoadSavedArtifacts` | server/artifacts/util.py:85-131 | the globals change exactly as `Load` says, step by step, keeping the state invariant: dictionaries inverse, and the model set before the face cascade and the face cascade before the eye cascade |
| `Util.Artifacts.GetCroppedImageIf2Eyes` | server/artifacts/util.py:148-183 | loads only when a cascade is unset; a failed load gives `[]`; otherwise the result is `CroppedFaces` with the loaded cascades |
| `Util.Artifacts.ClassifyImage` | server/artifacts/util.py:38-77 | loads only when no model is set; a failed load gives one "Classification error" record; afterwards the cascades are loaded as `get_cropped_image_if_2_eyes` does, and a failure there gives no faces; no face gives one "No face detected with two eyes" record; otherwise one `ClassifyFace` record per cropped face, in order |

## Left out

- OpenCV (`imdecode`, `imread`, `cvtColor`, `detectMultiScale`, `resize`, `CascadeClassifier`), wavelet.py's `w2d`, `base64.b64decode`, `np.around` and the classifier's `predict`/`predict_proba` are arbitrary functions. Their numerics and floating point are not modelled.
- `cv2.imdecode` returning None and `cv2.imdecode` raising both show as None, because the source catches both the same way (line 143).
- Reading files, `json.load`, `joblib.load` and `os.listdir` are left out (lines 93-131). Their results are the parameters `ArtifactFiles`. The class dictionary is taken to map strings to ints; as a loaded dict it holds each name once (`Labels.JsonDictionary`).
- Exceptions are their message strings (`str(e)`), and no exception types are modelled. `os.listdir` raising at line 99 is not modelled.
- `print`, `traceback.print_exc` and the `pip install` at import time (lines 16-36) are logging and environment changes.
- Detector rectangles have non-negative coordinates (`Rect` uses `nat`). Python's negative slice indices are therefore not modelled.
- A `image_base64_data` that is neither a string nor None is not modelled.
- The `None.predict` AttributeError cannot happen: `ClassifyImage` proves that a model is set before the loop.
- Concurrent callers of `load_saved_artifacts` are not modelled. The source has no guard, and the model is sequential.
- `Util.Percentages`: the values are `np.around` results, and `np.around` on floats is a parameter, so that the percentages sum to about 100 is not modelled.
- server.py (Flask routing, CORS, the Vercel handler), debug.py (environment dump) and c.py (a MySQL console client) are transport and I/O and are not part of this model.
