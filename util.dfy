/** server/artifacts/util.py: the module globals and their lazy loading, the face/eye
    acceptance filter, the feature-vector layout and the per-face classification loop. */
module Util {
  import opened Wrappers
  import opened NdArray
  import opened Foreign
  import opened Labels
  import opened DataUri

  const NoFaceMessage := "No face detected with two eyes. Please try another image."
  const ProcessingErrorPrefix := "Error processing image: "
  const ClassificationErrorPrefix := "Classification error: "

  /** `detectMultiScale(gray, 1.3, 5)` for faces; the eye call passes no parameters, so
      OpenCV's defaults 1.1 and 3 apply. */
  const FaceScaleFactor: real := 1.3
  const FaceMinNeighbors: nat := 5
  const EyeScaleFactor: real := 1.1
  const EyeMinNeighbors: nat := 3

  /** The 32 x 32 resize target, and the layout sizes of lines 56-58. */
  const Side: nat := 32
  const RawLength: nat := 32 * 32 * 3
  const WaveletLength: nat := 32 * 32
  const ImageVectorLength: nat := 32 * 32 * 3 + 32 * 32
  const WaveletMode := "db1"
  const WaveletLevel: nat := 5

  /** One entry of the result list: `{'class', 'class_probability', 'class_dictionary'}`
      or `{'error'}`. */
  datatype Record =
    | Success(className: string, classProbability: seq<real>, classDictionary: ClassDictionary)
    | Error(error: string)

  /** The five module globals of util.py as one value. */
  datatype Globals = Globals(
    classNameToNumber: ClassDictionary,
    classNumberToName: map<int, string>,
    model: Option<Classifier>,
    faceCascade: Option<Cascade>,
    eyeCascade: Option<Cascade>)
  {
    /** What every reachable state satisfies: the name-to-number map is a dict (no name twice),
        the number-to-name map is its inversion, and the loader sets the model before the face
        cascade and the face cascade before the eye cascade, and never unsets any of them. A
        cascade file that raises can leave the model set and a cascade unset. */
    ghost predicate Valid()
    {
      && DistinctNames(classNameToNumber)
      && classNumberToName == Invert(classNameToNumber)
      && (faceCascade.Some? ==> model.Some?)
      && (eyeCascade.Some? ==> faceCascade.Some?)
    }
  }

  /** The globals at import time (lines 10-14). */
  const Initial := Globals([], map[], None, None, None)

  /** `load_saved_artifacts` (lines 85-131) on a state g: replace both dictionaries, load the
      model only if none is set, then replace the face cascade and the eye cascade. An
      exception leaves whatever was assigned before it and is re-raised. */
  function Load(g: Globals, files: ArtifactFiles): (r: (Globals, Outcome<()>))
    ensures g.Valid() ==> r.0.Valid()
    ensures g.model.Some? ==> r.0.model == g.model
    ensures r.1.Ok? <==>
              files.classDictionary.Ok? && (g.model.Some? || files.savedModel.Ok?) &&
              files.faceCascade.Ok? && files.eyeCascade.Ok?
    ensures files.classDictionary.Raised? ==> r == (g, Raised(files.classDictionary.message))
    ensures files.classDictionary.Ok? ==>
              r.0.classNameToNumber == files.classDictionary.value &&
              r.0.classNumberToName == Invert(files.classDictionary.value)
    ensures files.classDictionary.Ok? && g.model.None? && files.savedModel.Ok? ==>
              r.0.model == Some(files.savedModel.value)
    ensures files.classDictionary.Ok? && g.model.None? && files.savedModel.Raised? ==>
              r.1 == Raised(files.savedModel.message) &&
              r.0.model == g.model && r.0.faceCascade == g.faceCascade && r.0.eyeCascade == g.eyeCascade
    ensures files.classDictionary.Ok? && (g.model.Some? || files.savedModel.Ok?) ==>
              r.0.model.Some? &&
              (files.faceCascade.Raised? ==>
                 r.1 == Raised(files.faceCascade.message) &&
                 r.0.faceCascade == g.faceCascade && r.0.eyeCascade == g.eyeCascade) &&
              (files.faceCascade.Ok? ==> r.0.faceCascade == Some(files.faceCascade.value)) &&
              (files.faceCascade.Ok? && files.eyeCascade.Raised? ==>
                 r.1 == Raised(files.eyeCascade.message) && r.0.eyeCascade == g.eyeCascade) &&
              (files.faceCascade.Ok? && files.eyeCascade.Ok? ==> r.0.eyeCascade == Some(files.eyeCascade.value))
  {
    match files.classDictionary
    case Raised(m) => (g, Raised(m))
    case Ok(d) =>
      var g1 := g.(classNameToNumber := d, classNumberToName := Invert(d));
      if g1.model.None? && files.savedModel.Raised? then
        (g1, Raised(files.savedModel.message))
      else
        var g2 := g1.(model := if g1.model.Some? then g1.model else Some(files.savedModel.value));
        match files.faceCascade
        case Raised(m) => (g2, Raised(m))
        case Ok(face) =>
          var g3 := g2.(faceCascade := Some(face));
          match files.eyeCascade
          case Raised(m) => (g3, Raised(m))
          case Ok(eye) => (g3.(eyeCascade := Some(eye)), Ok(()))
  }

  /** A cascade file that raises after the model is loaded leaves the model set and the
      cascades unset. `classify_image` then no longer loads, `get_cropped_image_if_2_eyes`
      loads again on every call, and a second failure makes it answer with no faces. */
  lemma {:induction false} CascadeFailureAfterModel(files: ArtifactFiles)
    requires files.classDictionary.Ok? && files.savedModel.Ok? && files.faceCascade.Raised?
    ensures var g := Load(Initial, files).0;
            g.Valid() && g.model.Some? && g.faceCascade.None? && g.eyeCascade.None? &&
            EnsureModel(g, files) == (g, Ok(())) &&
            EnsureCascades(g, files) == (g, Raised(files.faceCascade.message))
  {
    var g := Load(Initial, files).0;
    assert Load(g, files).0 == g;
  }

  /** In any reachable state, a class number the model predicts maps to a name that the
      name-to-number dictionary maps back to that number; an unknown number reads "Unknown"
      (lines 79-83 over the dictionaries built at lines 106-107). */
  lemma {:induction false} GlobalsNumberRoundTrip(g: Globals, classNum: int)
    requires g.Valid()
    ensures classNum in g.classNumberToName ==>
              NameToNumber(g.classNameToNumber, ClassNumberToName(g.classNumberToName, classNum)) == Some(classNum)
    ensures classNum !in g.classNumberToName ==> ClassNumberToName(g.classNumberToName, classNum) == "Unknown"
  {
    NumberRoundTrip(g.classNameToNumber, classNum);
  }

  /** Lines 41-42: `classify_image` loads only when no model is set. */
  function EnsureModel(g: Globals, files: ArtifactFiles): (r: (Globals, Outcome<()>))
    ensures g.model.Some? ==> r == (g, Ok(()))
    ensures g.model.None? ==> r == Load(g, files)
    ensures g.Valid() ==> r.0.Valid()
    ensures r.1.Ok? ==> r.0.model.Some?
    ensures g.model.None? && r.1.Ok? ==> r.0.faceCascade.Some? && r.0.eyeCascade.Some?
  {
    if g.model.None? then Load(g, files) else (g, Ok(()))
  }

  /** Lines 154-155: `get_cropped_image_if_2_eyes` loads when either cascade is unset. */
  function EnsureCascades(g: Globals, files: ArtifactFiles): (r: (Globals, Outcome<()>))
    ensures g.faceCascade.Some? && g.eyeCascade.Some? ==> r == (g, Ok(()))
    ensures g.faceCascade.None? || g.eyeCascade.None? ==> r == Load(g, files)
    ensures g.Valid() ==> r.0.Valid()
    ensures r.1.Ok? ==> r.0.faceCascade.Some? && r.0.eyeCascade.Some?
    ensures g.model.Some? ==> r.0.model == g.model
  {
    if g.faceCascade.None? || g.eyeCascade.None? then Load(g, files) else (g, Ok(()))
  }

  /** `get_cv2_image_from_base64_string` (lines 133-146): decode the payload and the image;
      every failure, including a missing string, gives None. */
  function DecodeBase64Image(vision: Vision, b64str: Option<string>): (img: Option<Image>)
    ensures b64str.None? ==> img.None?
    ensures b64str.Some? && vision.b64decode(Payload(b64str.value)).Raised? ==> img.None?
    ensures b64str.Some? && vision.b64decode(Payload(b64str.value)).Ok? ==>
              img == vision.imdecode(vision.b64decode(Payload(b64str.value)).value)
  {
    match b64str
    case None => None
    case Some(s) =>
      match vision.b64decode(Payload(s))
      case Raised(_) => None
      case Ok(bytes) => vision.imdecode(bytes)
  }

  /** Lines 158-161: a non-empty path is read from disk, otherwise the base64 text is decoded. */
  function GetImage(vision: Vision, imagePath: Option<string>, b64str: Option<string>): (img: Option<Image>)
    ensures imagePath.Some? && imagePath.value != "" ==> img == vision.imread(imagePath.value)
    ensures imagePath.None? || imagePath.value == "" ==> img == DecodeBase64Image(vision, b64str)
  {
    if imagePath.Some? && imagePath.value != "" then vision.imread(imagePath.value)
    else DecodeBase64Image(vision, b64str)
  }

  /** The eye detector run on the grayscale crop of one face (line 175). */
  function EyesIn(eye: Cascade, gray: Image, face: Rect): (eyes: Outcome<seq<Rect>>)
    ensures eyes == eye.detectMultiScale(Crop(gray, face), 1.1, 3)
  {
    eye.detectMultiScale(Crop(gray, face), EyeScaleFactor, EyeMinNeighbors)
  }

  /** The acceptance rule of line 176: the eye detector finds at least two eyes in the face. */
  predicate HasTwoEyes(eye: Cascade, gray: Image, face: Rect): (accepted: bool)
    ensures accepted <==> EyesIn(eye, gray, face).Ok? && |EyesIn(eye, gray, face).value| >= 2
  {
    var eyes := EyesIn(eye, gray, face);
    eyes.Ok? && |eyes.value| >= 2
  }

  /** The eye detector sees only the face's own region of the grayscale image (line 173):
      two grayscale images of the same shape that agree pixel by pixel on that region give
      the same eyes and the same verdict. */
  lemma {:induction false} EyeRuleSeesOnlyTheFace(eye: Cascade, gray: Image, other: Image, face: Rect,
                                                  height: nat, width: nat)
    requires Shaped(gray, height, width, 1) && Shaped(other, height, width, 1)
    requires forall i, j :: face.y <= i < face.y + face.h && i < height && face.x <= j < face.x + face.w && j < width ==>
               gray[i][j] == other[i][j]
    ensures EyesIn(eye, gray, face) == EyesIn(eye, other, face)
    ensures HasTwoEyes(eye, gray, face) == HasTwoEyes(eye, other, face)
  {
    CropSeesOnlyTheRegion(gray, other, face, height, width, 1);
  }

  /** The accepted faces, as a filter over the detections in detection order. */
  function AcceptedFaces(eye: Cascade, gray: Image, faces: seq<Rect>): (kept: seq<Rect>)
    ensures |kept| <= |faces|
    ensures forall f :: f in kept ==> f in faces && HasTwoEyes(eye, gray, f)
    decreases |faces|
  {
    if |faces| == 0 then []
    else (if HasTwoEyes(eye, gray, faces[0]) then [faces[0]] else []) + AcceptedFaces(eye, gray, faces[1..])
  }

  /** a occurs in b in order, possibly with gaps. */
  ghost predicate IsSubsequence<T>(a: seq<T>, b: seq<T>)
    decreases |b|
  {
    |a| == 0 || (|b| > 0 && (IsSubsequence(a, b[1..]) || (a[0] == b[0] && IsSubsequence(a[1..], b[1..]))))
  }

  /** Every accepted detection is kept, as often as it was detected, and the kept ones keep
      detection order. */
  lemma {:induction false} AcceptedFacesComplete(eye: Cascade, gray: Image, faces: seq<Rect>)
    ensures forall f :: f in faces && HasTwoEyes(eye, gray, f) ==> f in AcceptedFaces(eye, gray, faces)
    ensures forall f :: multiset(AcceptedFaces(eye, gray, faces))[f] ==
                        if HasTwoEyes(eye, gray, f) then multiset(faces)[f] else 0
    ensures IsSubsequence(AcceptedFaces(eye, gray, faces), faces)
    decreases |faces|
  {
    if |faces| > 0 {
      var rest := AcceptedFaces(eye, gray, faces[1..]);
      AcceptedFacesComplete(eye, gray, faces[1..]);
      assert forall f :: f in faces ==> f == faces[0] || f in faces[1..];
      assert faces == [faces[0]] + faces[1..];
      if HasTwoEyes(eye, gray, faces[0]) {
        assert AcceptedFaces(eye, gray, faces) == [faces[0]] + rest;
        assert AcceptedFaces(eye, gray, faces)[1..] == rest;
      } else {
        assert AcceptedFaces(eye, gray, faces) == rest;
      }
    }
  }

  /** Appending one detection to the input appends it to the output when accepted. */
  lemma {:induction false} AcceptedFacesSnoc(eye: Cascade, gray: Image, faces: seq<Rect>, face: Rect)
    ensures AcceptedFaces(eye, gray, faces + [face]) ==
            AcceptedFaces(eye, gray, faces) + (if HasTwoEyes(eye, gray, face) then [face] else [])
    decreases |faces|
  {
    if |faces| > 0 {
      assert (faces + [face])[1..] == faces[1..] + [face];
      AcceptedFacesSnoc(eye, gray, faces[1..], face);
    } else {
      assert faces + [face] == [face];
    }
  }

  /** `img[y:y+h, x:x+w]` for each rectangle, in order. */
  function CropAll(img: Image, rects: seq<Rect>): (crops: seq<Image>)
    ensures |crops| == |rects|
    ensures forall i :: 0 <= i < |rects| ==> crops[i] == Crop(img, rects[i])
  {
    seq(|rects|, i requires 0 <= i < |rects| => Crop(img, rects[i]))
  }

  /** The loop of lines 171-177 as a function of the detections it has seen: it stops at the
      first eye detection that raises; otherwise it keeps the colour crop of every face with
      two eyes. */
  function TwoEyedCrops(eye: Cascade, gray: Image, img: Image, faces: seq<Rect>): (r: Outcome<seq<Image>>)
    ensures r.Ok? ==> |r.value| <= |faces|
    ensures r.Ok? ==> forall c :: c in r.value ==> exists i :: 0 <= i < |faces| && c == Crop(img, faces[i])
    decreases |faces|
  {
    if |faces| == 0 then Ok([])
    else
      var kept :- TwoEyedCrops(eye, gray, img, faces[..|faces| - 1]);
      var face := faces[|faces| - 1];
      var eyes :- EyesIn(eye, gray, face);
      Ok(if |eyes| >= 2 then kept + [Crop(img, face)] else kept)
  }

  /** Once a prefix of the detections raises, the whole loop raises the same exception. */
  lemma {:induction false} TwoEyedCropsRaisedPrefix(eye: Cascade, gray: Image, img: Image, faces: seq<Rect>, n: nat)
    requires n <= |faces|
    requires TwoEyedCrops(eye, gray, img, faces[..n]).Raised?
    ensures TwoEyedCrops(eye, gray, img, faces) == TwoEyedCrops(eye, gray, img, faces[..n])
    decreases |faces| - n
  {
    if n < |faces| {
      var longer := faces[..|faces| - 1];
      assert longer[..n] == faces[..n];
      TwoEyedCropsRaisedPrefix(eye, gray, img, longer, n);
    } else {
      assert faces[..n] == faces;
    }
  }

  /** The loop fails exactly when the eye detector raises on some face; otherwise it returns
      the crops of the accepted faces, in detection order. */
  lemma {:induction false} TwoEyedCropsFilter(eye: Cascade, gray: Image, img: Image, faces: seq<Rect>)
    ensures TwoEyedCrops(eye, gray, img, faces).Raised? <==>
            exists i :: 0 <= i < |faces| && EyesIn(eye, gray, faces[i]).Raised?
    ensures TwoEyedCrops(eye, gray, img, faces).Ok? ==>
            TwoEyedCrops(eye, gray, img, faces).value == CropAll(img, AcceptedFaces(eye, gray, faces))
    decreases |faces|
  {
    if |faces| > 0 {
      var prefix := faces[..|faces| - 1];
      var face := faces[|faces| - 1];
      TwoEyedCropsFilter(eye, gray, img, prefix);
      assert faces == prefix + [face];
      AcceptedFacesSnoc(eye, gray, prefix, face);
      assert forall i :: 0 <= i < |prefix| ==> prefix[i] == faces[i];
      if TwoEyedCrops(eye, gray, img, prefix).Raised? {
        var i :| 0 <= i < |prefix| && EyesIn(eye, gray, prefix[i]).Raised?;
        assert EyesIn(eye, gray, faces[i]).Raised?;
      } else if EyesIn(eye, gray, face).Raised? {
        assert EyesIn(eye, gray, faces[|faces| - 1]).Raised?;
      } else {
        assert forall i :: 0 <= i < |faces| ==> EyesIn(eye, gray, faces[i]).Ok? by {
          forall i | 0 <= i < |faces| ensures EyesIn(eye, gray, faces[i]).Ok? {
            if i < |prefix| {
              assert EyesIn(eye, gray, prefix[i]).Ok?;
            }
          }
        }
      }
    }
  }

  /** The loop of lines 171-177: crop each detection, run the eye detector on its grayscale
      crop, and keep the colour crop when it finds at least two eyes; an exception from the
      eye detector ends the loop. */
  method KeepTwoEyed(eye: Cascade, gray: Image, img: Image, faces: seq<Rect>) returns (kept: Outcome<seq<Image>>)
    ensures kept == TwoEyedCrops(eye, gray, img, faces)
  {
    var croppedFaces: seq<Image> := [];
    var i := 0;
    while i < |faces|
      invariant 0 <= i <= |faces|
      invariant TwoEyedCrops(eye, gray, img, faces[..i]) == Ok(croppedFaces)
    {
      var face := faces[i];
      var roiGray := Crop(gray, face);
      var roiColor := Crop(img, face);
      var eyes := eye.detectMultiScale(roiGray, EyeScaleFactor, EyeMinNeighbors);
      assert faces[..i + 1][..i] == faces[..i];
      if eyes.Raised? {
        TwoEyedCropsRaisedPrefix(eye, gray, img, faces, i + 1);
        return Raised(eyes.message);
      }
      if |eyes.value| >= 2 {
        croppedFaces := croppedFaces + [roiColor];
      }
      i := i + 1;
    }
    assert faces[..i] == faces;
    kept := Ok(croppedFaces);
  }

  /** Lines 168-179 on a decoded image: grayscale, detect faces, filter by eyes. It raises
      exactly when the grayscale conversion, the face detector or one of the eye detections
      raises; otherwise it gives the crops of the accepted faces in detection order. */
  function DetectTwoEyedFaces(face: Cascade, eye: Cascade, vision: Vision, img: Image): (r: Outcome<seq<Image>>)
    ensures r.Raised? <==>
              vision.toGray(img).Raised? ||
              face.detectMultiScale(vision.toGray(img).value, FaceScaleFactor, FaceMinNeighbors).Raised? ||
              var faces := face.detectMultiScale(vision.toGray(img).value, FaceScaleFactor, FaceMinNeighbors).value;
              exists i :: 0 <= i < |faces| && EyesIn(eye, vision.toGray(img).value, faces[i]).Raised?
    ensures r.Ok? ==>
              var gray := vision.toGray(img).value;
              r.value == CropAll(img, AcceptedFaces(eye, gray, face.detectMultiScale(gray, FaceScaleFactor, FaceMinNeighbors).value))
  {
    var gray :- vision.toGray(img);
    var faces :- face.detectMultiScale(gray, FaceScaleFactor, FaceMinNeighbors);
    TwoEyedCropsFilter(eye, gray, img, faces);
    TwoEyedCrops(eye, gray, img, faces)
  }

  /** `get_cropped_image_if_2_eyes` once the cascades are loaded (lines 157-183): a missing
      image or any exception gives the empty list. */
  function CroppedFaces(face: Cascade, eye: Cascade, vision: Vision, imagePath: Option<string>, b64str: Option<string>): (crops: seq<Image>)
    ensures GetImage(vision, imagePath, b64str).None? ==> crops == []
    ensures GetImage(vision, imagePath, b64str).Some? ==>
              var detected := DetectTwoEyedFaces(face, eye, vision, GetImage(vision, imagePath, b64str).value);
              (detected.Raised? ==> crops == []) && (detected.Ok? ==> crops == detected.value)
  {
    match GetImage(vision, imagePath, b64str)
    case None => []
    case Some(img) =>
      match DetectTwoEyedFaces(face, eye, vision, img)
      case Raised(_) => []
      case Ok(crops) => crops
  }

  /** Python's `astype(float)` on uint8 samples, which is exact. */
  function AsFloat(samples: seq<uint8>): (r: seq<real>)
    ensures |r| == |samples|
    ensures forall i :: 0 <= i < |samples| ==> r[i] == samples[i] as real
  {
    seq(|samples|, i requires 0 <= i < |samples| => samples[i] as real)
  }

  /** Lines 53-60: resize the crop and its wavelet image to 32 x 32, ravel both in C order
      into columns of 3072 and 1024 samples (reshape raises otherwise), stack them and convert
      to float. The vector has 4096 entries: the raw crop's samples first, the wavelet
      image's after. */
  function FeatureVector(vision: Vision, img: Image): (r: Outcome<seq<real>>)
    ensures r.Ok? ==> |r.value| == ImageVectorLength
    ensures r.Ok? ==>
              var raw := vision.resize(img, Side, Side);
              raw.Ok? && r.value[..RawLength] == AsFloat(Ravel(raw.value))
    ensures r.Ok? ==>
              var har := vision.w2d(img, WaveletMode, WaveletLevel);
              har.Ok? && vision.resize(har.value, Side, Side).Ok? &&
              r.value[RawLength..] == AsFloat(Ravel(vision.resize(har.value, Side, Side).value))
    ensures vision.resize(img, Side, Side).Raised? ==> r == Raised(vision.resize(img, Side, Side).message)
    ensures vision.resize(img, Side, Side).Ok? && vision.w2d(img, WaveletMode, WaveletLevel).Raised? ==>
              r == Raised(vision.w2d(img, WaveletMode, WaveletLevel).message)
    ensures vision.resize(img, Side, Side).Ok? && vision.w2d(img, WaveletMode, WaveletLevel).Ok? &&
            vision.resize(vision.w2d(img, WaveletMode, WaveletLevel).value, Side, Side).Raised? ==>
              r == Raised(vision.resize(vision.w2d(img, WaveletMode, WaveletLevel).value, Side, Side).message)
    ensures vision.resize(img, Side, Side).Ok? && vision.w2d(img, WaveletMode, WaveletLevel).Ok? &&
            vision.resize(vision.w2d(img, WaveletMode, WaveletLevel).value, Side, Side).Ok? &&
            |Ravel(vision.resize(img, Side, Side).value)| != RawLength ==>
              r == Raised(ReshapeColumn(Ravel(vision.resize(img, Side, Side).value), RawLength).message)
  {
    var scaledRawImg :- vision.resize(img, Side, Side);
    var imgHar :- vision.w2d(img, WaveletMode, WaveletLevel);
    var scaledImgHar :- vision.resize(imgHar, Side, Side);
    var rawColumn :- ReshapeColumn(Ravel(scaledRawImg), RawLength);
    var harColumn :- ReshapeColumn(Ravel(scaledImgHar), WaveletLength);
    assert (rawColumn + harColumn)[..RawLength] == rawColumn;
    assert (rawColumn + harColumn)[RawLength..] == harColumn;
    Ok(AsFloat(rawColumn + harColumn))
  }

  /** The layout contract: when the resizes return 32 x 32 arrays (three channels for the
      crop, one for the wavelet image), the vector exists, entry (i * 32 + j) * 3 + k is
      channel k of raw pixel (i, j), and entry 3072 + i * 32 + j is wavelet pixel (i, j). */
  lemma {:induction false} FeatureVectorLayout(vision: Vision, img: Image, scaledRawImg: Image, imgHar: Image, scaledImgHar: Image)
    requires vision.resize(img, Side, Side) == Ok(scaledRawImg)
    requires vision.w2d(img, WaveletMode, WaveletLevel) == Ok(imgHar)
    requires vision.resize(imgHar, Side, Side) == Ok(scaledImgHar)
    requires Shaped(scaledRawImg, Side, Side, 3) && Shaped(scaledImgHar, Side, Side, 1)
    ensures FeatureVector(vision, img).Ok?
    ensures forall i, j, k :: 0 <= i < Side && 0 <= j < Side && 0 <= k < 3 ==>
              FeatureVector(vision, img).value[(i * Side + j) * 3 + k] == scaledRawImg[i][j][k] as real
    ensures forall i, j :: 0 <= i < Side && 0 <= j < Side ==>
              FeatureVector(vision, img).value[RawLength + i * Side + j] == scaledImgHar[i][j][0] as real
  {
    RavelLength(scaledRawImg, Side, Side, 3);
    RavelLength(scaledImgHar, Side, Side, 1);
    var v := FeatureVector(vision, img).value;
    forall i, j, k | 0 <= i < Side && 0 <= j < Side && 0 <= k < 3
      ensures v[(i * Side + j) * 3 + k] == scaledRawImg[i][j][k] as real
    {
      RavelAt(scaledRawImg, Side, Side, 3, i, j, k);
      assert v[..RawLength][(i * Side + j) * 3 + k] == v[(i * Side + j) * 3 + k];
    }
    forall i, j | 0 <= i < Side && 0 <= j < Side
      ensures v[RawLength + i * Side + j] == scaledImgHar[i][j][0] as real
    {
      RavelAt(scaledImgHar, Side, Side, 1, i, j, 0);
      assert v[RawLength..][i * Side + j] == v[RawLength + i * Side + j];
    }
  }

  /** `np.around(probabilities * 100, 2)`. */
  function Percentages(vision: Vision, probabilities: seq<real>): (r: seq<real>)
    ensures |r| == |probabilities|
    ensures forall i :: 0 <= i < |r| ==> r[i] == vision.around(probabilities[i] * 100.0, 2)
  {
    seq(|probabilities|, i requires 0 <= i < |probabilities| => vision.around(probabilities[i] * 100.0, 2))
  }

  /** The feature vector and the model's two answers for one face; the first exception wins. */
  function Scores(clf: Classifier, vision: Vision, img: Image): (r: Outcome<(int, seq<real>)>)
    ensures r.Raised? <==>
              FeatureVector(vision, img).Raised? ||
              clf.predict(FeatureVector(vision, img).value).Raised? ||
              clf.predictProba(FeatureVector(vision, img).value).Raised?
    ensures r.Ok? ==>
              r.value == (clf.predict(FeatureVector(vision, img).value).value,
                          clf.predictProba(FeatureVector(vision, img).value).value)
    ensures FeatureVector(vision, img).Raised? ==> r == Raised(FeatureVector(vision, img).message)
    ensures FeatureVector(vision, img).Ok? && clf.predict(FeatureVector(vision, img).value).Raised? ==>
              r == Raised(clf.predict(FeatureVector(vision, img).value).message)
    ensures FeatureVector(vision, img).Ok? && clf.predict(FeatureVector(vision, img).value).Ok? &&
            clf.predictProba(FeatureVector(vision, img).value).Raised? ==>
              r == Raised(clf.predictProba(FeatureVector(vision, img).value).message)
  {
    var final :- FeatureVector(vision, img);
    var prediction :- clf.predict(final);
    var probabilities :- clf.predictProba(final);
    Ok((prediction, probabilities))
  }

  /** The body of the loop of lines 51-71 for one face: a success record naming the predicted
      class (or "Unknown"), with one rounded percentage per class probability and the loaded
      name-to-number dictionary; or the per-face error record carrying the exception. */
  function ClassifyFace(clf: Classifier, vision: Vision, nameToNumber: ClassDictionary,
                        numberToName: map<int, string>, img: Image): (r: Record)
    ensures r.Success? <==> Scores(clf, vision, img).Ok?
    ensures r.Success? ==>
              r.className == ClassNumberToName(numberToName, Scores(clf, vision, img).value.0) &&
              r.classProbability == Percentages(vision, Scores(clf, vision, img).value.1) &&
              r.classDictionary == nameToNumber
    ensures r.Error? ==> r.error == ProcessingErrorPrefix + Scores(clf, vision, img).message
  {
    match Scores(clf, vision, img)
    case Raised(m) => Error(ProcessingErrorPrefix + m)
    case Ok((prediction, probabilities)) =>
      Success(ClassNumberToName(numberToName, prediction), Percentages(vision, probabilities), nameToNumber)
  }

  /** The loop of lines 50-73: one record per face, in order, each depending only on its own
      face; an error record for one face does not stop the others. */
  method ClassifyEach(clf: Classifier, vision: Vision, nameToNumber: ClassDictionary,
                      numberToName: map<int, string>, imgs: seq<Image>) returns (result: seq<Record>)
    ensures |result| == |imgs|
    ensures forall i :: 0 <= i < |imgs| ==> result[i] == ClassifyFace(clf, vision, nameToNumber, numberToName, imgs[i])
  {
    result := [];
    for i := 0 to |imgs|
      invariant |result| == i
      invariant forall k :: 0 <= k < i ==> result[k] == ClassifyFace(clf, vision, nameToNumber, numberToName, imgs[k])
    {
      var record := ClassifyFace(clf, vision, nameToNumber, numberToName, imgs[i]);
      result := result + [record];
    }
  }

  /** The module globals of util.py. */
  class Artifacts {
    var classNameToNumber: ClassDictionary
    var classNumberToName: map<int, string>
    var model: Option<Classifier>
    var faceCascade: Option<Cascade>
    var eyeCascade: Option<Cascade>

    function State(): Globals
      reads this
    {
      Globals(classNameToNumber, classNumberToName, model, faceCascade, eyeCascade)
    }

    ghost predicate Valid()
      reads this
    {
      State().Valid()
    }

    /** Module import (lines 10-14): empty dictionaries, nothing loaded. */
    constructor ()
      ensures State() == Initial
      ensures Valid()
    {
      classNameToNumber := [];
      classNumberToName := map[];
      model := None;
      faceCascade := None;
      eyeCascade := None;
    }

    /** `load_saved_artifacts` (lines 85-131). */
    method LoadSavedArtifacts(files: ArtifactFiles) returns (outcome: Outcome<()>)
      requires Valid()
      modifies this
      ensures Valid()
      ensures (State(), outcome) == Load(old(State()), files)
    {
      match files.classDictionary {
        case Raised(m) =>
          return Raised(m);
        case Ok(d) =>
          classNameToNumber := d;
          classNumberToName := Invert(d);
      }
      if model.None? {
        match files.savedModel {
          case Raised(m) =>
            return Raised(m);
          case Ok(c) =>
            model := Some(c);
        }
      }
      match files.faceCascade {
        case Raised(m) =>
          return Raised(m);
        case Ok(c) =>
          faceCascade := Some(c);
      }
      match files.eyeCascade {
        case Raised(m) =>
          return Raised(m);
        case Ok(c) =>
          eyeCascade := Some(c);
      }
      outcome := Ok(());
    }

    /** `get_cropped_image_if_2_eyes(image_path, image_base64_data)` (lines 148-183). */
    method GetCroppedImageIf2Eyes(files: ArtifactFiles, vision: Vision, imagePath: Option<string>,
                                  b64str: Option<string>) returns (croppedFaces: seq<Image>)
      requires Valid()
      modifies this
      ensures Valid()
      ensures State() == EnsureCascades(old(State()), files).0
      ensures EnsureCascades(old(State()), files).1.Raised? ==> croppedFaces == []
      ensures EnsureCascades(old(State()), files).1.Ok? ==>
                faceCascade.Some? && eyeCascade.Some? &&
                croppedFaces == CroppedFaces(faceCascade.value, eyeCascade.value, vision, imagePath, b64str)
    {
      if faceCascade.None? || eyeCascade.None? {
        var loaded := LoadSavedArtifacts(files);
        if loaded.Raised? {
          return [];
        }
      }
      var img := GetImage(vision, imagePath, b64str);
      if img.None? {
        return [];
      }
      var gray := vision.toGray(img.value);
      if gray.Raised? {
        return [];
      }
      var faces := faceCascade.value.detectMultiScale(gray.value, FaceScaleFactor, FaceMinNeighbors);
      if faces.Raised? {
        return [];
      }
      var kept := KeepTwoEyed(eyeCascade.value, gray.value, img.value, faces.value);
      croppedFaces := if kept.Ok? then kept.value else [];
    }

    /** `classify_image(image_base64_data, file_path)` (lines 38-77). The ghost `faces` is the
        list `imgs` of line 45. */
    method ClassifyImage(files: ArtifactFiles, vision: Vision, b64str: Option<string>, filePath: Option<string>)
      returns (result: seq<Record>, ghost faces: seq<Image>)
      requires Valid()
      modifies this
      ensures Valid()
      ensures var loaded := EnsureModel(old(State()), files);
              loaded.1.Raised? ==>
                State() == loaded.0 && result == [Error(ClassificationErrorPrefix + loaded.1.message)]
      ensures var loaded := EnsureModel(old(State()), files);
              var cascades := EnsureCascades(loaded.0, files);
              loaded.1.Ok? ==>
                State() == cascades.0 && model.Some? &&
                (cascades.1.Raised? ==> faces == []) &&
                (cascades.1.Ok? ==>
                   faceCascade.Some? && eyeCascade.Some? &&
                   faces == CroppedFaces(faceCascade.value, eyeCascade.value, vision, filePath, b64str))
      ensures EnsureModel(old(State()), files).1.Ok? && faces == [] ==> result == [Error(NoFaceMessage)]
      ensures EnsureModel(old(State()), files).1.Ok? && faces != [] ==>
                model.Some? && |result| == |faces| &&
                forall i :: 0 <= i < |faces| ==>
                  result[i] == ClassifyFace(model.value, vision, classNameToNumber, classNumberToName, faces[i])
    {
      if model.None? {
        var loaded := LoadSavedArtifacts(files);
        if loaded.Raised? {
          return [Error(ClassificationErrorPrefix + loaded.message)], [];
        }
      }
      var imgs := GetCroppedImageIf2Eyes(files, vision, filePath, b64str);
      faces := imgs;
      if |imgs| == 0 {
        return [Error(NoFaceMessage)], faces;
      }
      result := ClassifyEach(model.value, vision, classNameToNumber, classNumberToName, imgs);
    }
  }
}
