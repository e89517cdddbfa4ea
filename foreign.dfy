/** The calls util.py makes into code it does not contain: OpenCV, PyWavelets through
    wavelet.py's `w2d`, `base64.b64decode`, numpy's rounding and the pickled scikit-learn
    model. Each is an arbitrary function here; a call that may raise returns an Outcome. */
module Foreign {
  import opened Wrappers
  import opened NdArray
  import opened Labels

  /** A `cv2.CascadeClassifier`: `detectMultiScale(image, scaleFactor, minNeighbors)` returns
      the rectangles it finds, in its own order, or raises (as an empty classifier does). */
  datatype Cascade = Cascade(detectMultiScale: (Image, real, nat) -> Outcome<seq<Rect>>)

  /** The unpickled model: `predict(X)[0]` and `predict_proba(X)[0]` for the one-row matrix X. */
  datatype Classifier = Classifier(
    predict: seq<real> -> Outcome<int>,
    predictProba: seq<real> -> Outcome<seq<real>>)

  /** The image and numeric library calls of the pipeline. */
  datatype Vision = Vision(
    /** `base64.b64decode`, which raises on malformed input. */
    b64decode: string -> Outcome<seq<uint8>>,
    /** `cv2.imdecode(buffer, cv2.IMREAD_COLOR)`: None for a buffer OpenCV cannot read,
        whether OpenCV returns None or raises. */
    imdecode: seq<uint8> -> Option<Image>,
    /** `cv2.imread(path)`: None for a file OpenCV cannot read. */
    imread: string -> Option<Image>,
    /** `cv2.cvtColor(img, cv2.COLOR_BGR2GRAY)`. */
    toGray: Image -> Outcome<Image>,
    /** `cv2.resize(img, (width, height))`. */
    resize: (Image, nat, nat) -> Outcome<Image>,
    /** wavelet.py's `w2d(img, mode, level)`. */
    w2d: (Image, string, nat) -> Outcome<Image>,
    /** `np.around(x, decimals)`. */
    around: (real, nat) -> real)

  /** What `load_saved_artifacts` reads from the artifact directory: the JSON class
      dictionary (an ordered name-to-number list), the pickled model, and the two cascade
      files. Each may raise: opening or parsing the first two, and `cv2.CascadeClassifier`
      on a file it cannot parse (a missing file gives an empty classifier instead, whose
      `detectMultiScale` raises). */
  datatype ArtifactFiles = ArtifactFiles(
    classDictionary: Outcome<JsonDictionary>,
    savedModel: Outcome<Classifier>,
    faceCascade: Outcome<Cascade>,
    eyeCascade: Outcome<Cascade>)
}
