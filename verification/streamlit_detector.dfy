/** The Streamlit detector page: it picks the image or the video branch from
    the uploaded file's extension, samples one frame of a video, labels the
    face with its own threshold, and offers the Grad-CAM overlay and the PDF
    report for a "fake" verdict. The face detector and classifier are
    inputs. */
module StreamlitDetector {
  import opened Common
  import DeepfakeBackend

  type Frame = DeepfakeBackend.Frame

  // ---------------------------------------------------------------------
  // Dispatch

  /** `name.split('.')[-1].lower()`. */
  function Extension(name: string): string {
    var parts := Split(name, '.');
    Lower(parts[|parts| - 1])
  }

  /** The extension is the lower-cased text after the last '.', or the whole
      lower-cased name when it has no '.'. */
  lemma ExtensionCorrect(name: string)
    ensures '.' !in Extension(name)
    ensures '.' !in name ==> Extension(name) == Lower(name)
    ensures '.' in name ==>
              exists k :: 0 <= k < |name| && name[k] == '.' && '.' !in name[k + 1..] && Extension(name) == Lower(name[k + 1..])
  {
    ExtensionHasNoDot(name);
    ExtensionWithoutDot(name);
    ExtensionAfterLast(name);
  }

  lemma ExtensionHasNoDot(name: string)
    ensures '.' !in Extension(name)
  {
    var parts := Split(name, '.');
    SplitPieces(name, '.');
    LowerNoDot(parts[|parts| - 1]);
  }

  lemma ExtensionWithoutDot(name: string)
    ensures '.' !in name ==> Extension(name) == Lower(name)
  {
    var k := SplitLastAt(name, '.');
    if k == -1 {
      assert name[k + 1..] == name;
    }
  }

  lemma ExtensionAfterLast(name: string)
    ensures '.' in name ==>
              exists k :: 0 <= k < |name| && name[k] == '.' && '.' !in name[k + 1..] && Extension(name) == Lower(name[k + 1..])
  {
    var k := SplitLastAt(name, '.');
    SplitPieces(name, '.');
    if k >= 0 {
      assert name[k] == '.' && '.' !in name[k + 1..] && Extension(name) == Lower(name[k + 1..]);
    }
  }

  lemma LowerNoDot(s: string)
    requires '.' !in s
    ensures '.' !in Lower(s)
  {
    forall i | 0 <= i < |s| ensures Lower(s)[i] != '.' {
      assert s[i] in s;
    }
  }

  /** The extension of `pre.ext`, for an `ext` without '.', is `ext`
      lower-cased, whatever `pre` holds. */
  lemma ExtensionAfterLastDot(pre: string, ext: string)
    requires '.' !in ext
    ensures Extension(pre + "." + ext) == Lower(ext)
  {
    var name := pre + "." + ext;
    assert name == pre + ['.'] + ext;
    SplitLastAfter(pre, '.', ext);
    var parts := Split(name, '.');
    assert parts[|parts| - 1] == ext;
  }

  datatype Branch = ImageBranch | VideoBranch | NoBranch

  /** The branch an extension selects. */
  function BranchOf(ext: string): (b: Branch)
    ensures b == ImageBranch <==> ext == "jpg" || ext == "jpeg" || ext == "png"
    ensures b == VideoBranch <==> ext == "mp4" || ext == "avi" || ext == "mov"
  {
    if ext in ["jpg", "jpeg", "png"] then ImageBranch
    else if ext in ["mp4", "avi", "mov"] then VideoBranch
    else NoBranch
  }

  function BranchFor(name: string): Branch {
    BranchOf(Extension(name))
  }

  /** The extension decides case-insensitively and only the last one counts. */
  lemma BranchExamples()
    ensures BranchFor("clip.MP4") == VideoBranch
    ensures BranchFor("photo.jpg.exe") == NoBranch
  {
    UpperCaseVideo();
    DoubleExtension();
  }

  lemma UpperCaseVideo()
    ensures Extension("clip.MP4") == "mp4"
  {
    ExtensionAfterLastDot("clip", "MP4");
    assert "clip.MP4" == "clip" + "." + "MP4";
    assert Lower("MP4") == "mp4";
  }

  lemma DoubleExtension()
    ensures Extension("photo.jpg.exe") == "exe"
  {
    ExtensionAfterLastDot("photo.jpg", "exe");
    assert "photo.jpg.exe" == "photo.jpg" + "." + "exe";
    assert Lower("exe") == "exe";
  }

  // ---------------------------------------------------------------------
  // predict

  datatype Confidences = Confidences(realScore: real, fakeScore: real)

  /** The confidences, the label and whether a Grad-CAM overlay exists. */
  datatype Prediction = Prediction(confidences: Option<Confidences>, prediction: string, overlay: bool)

  /** `predict`: no face gives `(None, "real", None)`; otherwise "real" below
      0.8 and the two confidences are the score and its complement. */
  function Predict(face: Option<real>): Prediction {
    match face
    case None => Prediction(None, "real", false)
    case Some(score) => Prediction(Some(Confidences(1.0 - score, score)), if score < 0.8 then "real" else "fake", true)
  }

  /** The label is "real" exactly for no face or a score under 0.8, the
      confidences add up to 1, and the label is never "No face detected". */
  lemma PredictRule(face: Option<real>)
    ensures Predict(face).prediction == "real" <==> face.None? || face.value < 0.8
    ensures Predict(face).prediction == "fake" <==> face.Some? && face.value >= 0.8
    ensures Predict(face).confidences.Some? ==>
              Predict(face).confidences.value.realScore + Predict(face).confidences.value.fakeScore == 1.0 &&
              Predict(face).confidences.value.fakeScore == face.value
    ensures Predict(face).prediction != "No face detected"
  {
  }

  /** This page and the detection service label a face differently exactly
      for scores in [0.5, 0.8), and for no face at all. */
  lemma ThresholdsDisagree(face: Option<real>)
    ensures Predict(face).prediction != DeepfakeBackend.Pred(face).status <==>
              face.None? || 0.5 <= face.value < 0.8
  {
  }

  // ---------------------------------------------------------------------
  // frames_from_video_file

  /** The window start: a uniform pick in `[0, length - need]` when the
      video is longer than the window, else 0. */
  function WindowStart(videoLength: int, nFrames: int, frameStep: int, pick: nat): (start: int)
    ensures 1 + (nFrames - 1) * frameStep < videoLength ==>
              0 <= start <= videoLength - (1 + (nFrames - 1) * frameStep)
    ensures 1 + (nFrames - 1) * frameStep >= videoLength ==> start == 0
  {
    var need := 1 + (nFrames - 1) * frameStep;
    if need < videoLength then pick % (videoLength - need + 1) else 0
  }

  /** The two samplers guard the window differently but choose the same
      start: when the video is exactly as long as the window both take 0. */
  lemma WindowStartsAgree(videoLength: int, nFrames: int, frameStep: int, pick: nat)
    ensures WindowStart(videoLength, nFrames, frameStep, pick) ==
              DeepfakeBackend.WindowStart(videoLength, nFrames, frameStep, pick)
  {
  }

  /** What the sampler returns, `None` where it raises: each of the `n`
      frames is the last of `step` reads. A failed read gives a blank frame
      except for the first frame, where `result[0]` does not exist yet; with
      `step = 0` no read ever assigns `ret`. */
  function Sampled(stream: seq<Option<Frame>>, n: nat, step: nat): (r: Option<seq<Frame>>)
    ensures r.Some? ==> |r.value| == n
    ensures r.None? <==> n > 0 && (step == 0 || DeepfakeBackend.ReadAt(stream, step - 1).None?)
  {
    if n == 0 then Some([])
    else if step == 0 || DeepfakeBackend.ReadAt(stream, step - 1).None? then None
    else Some(seq(n, j => DeepfakeBackend.OrBlank(DeepfakeBackend.ReadAt(stream, (j + 1) * step - 1))))
  }

  /** The inner loop: `step` reads from position `pos`; `ret` holds the
      last one, or its earlier value when `step` is 0. */
  method ReadStep(stream: seq<Option<Frame>>, pos: int, step: nat, ret0: Option<Option<Frame>>)
    returns (ret: Option<Option<Frame>>, next: int)
    ensures next == pos + step
    ensures step > 0 ==> ret == Some(DeepfakeBackend.ReadAt(stream, pos + step - 1))
    ensures step == 0 ==> ret == ret0
  {
    ret, next := ret0, pos;
    var k := 0;
    while k < step
      invariant 0 <= k <= step
      invariant next == pos + k
      invariant k > 0 ==> ret == Some(DeepfakeBackend.ReadAt(stream, next - 1))
      invariant k == 0 ==> ret == ret0
    {
      ret := Some(DeepfakeBackend.ReadAt(stream, next));
      next := next + 1;
      k := k + 1;
    }
  }

  /** `frames_from_video_file` after the seek. */
  method FramesFromVideoFile(stream: seq<Option<Frame>>, n: nat, step: nat) returns (frames: Option<seq<Frame>>)
    ensures frames == Sampled(stream, n, step)
  {
    var result: seq<Frame> := [];
    var pos := 0;
    var ret: Option<Option<Frame>> := None;
    var j := 0;
    while j < n
      invariant 0 <= j <= n
      invariant pos == j * step
      invariant j > 0 ==> step > 0 && DeepfakeBackend.ReadAt(stream, step - 1).Some?
      invariant |result| == j
      invariant forall i :: 0 <= i < j ==> result[i] == DeepfakeBackend.OrBlank(DeepfakeBackend.ReadAt(stream, (i + 1) * step - 1))
      invariant j == 0 ==> ret.None?
    {
      ret, pos := ReadStep(stream, pos, step, ret);
      if ret.None? {
        // `ret` was never assigned
        return None;
      }
      match ret.value {
        case Some(frame) =>
          result := result + [frame];
        case None =>
          if result == [] {
            // `np.zeros_like(result[0])` on an empty list
            return None;
          }
          result := result + [DeepfakeBackend.Blank];
      }
      assert (j + 1) * step - 1 == pos - 1;
      j := j + 1;
    }
    assert n > 0 ==> result == seq(n, i => DeepfakeBackend.OrBlank(DeepfakeBackend.ReadAt(stream, (i + 1) * step - 1)));
    frames := Some(result);
  }

  // ---------------------------------------------------------------------
  // The page

  /** What the page ends up showing. */
  datatype Page =
    | NothingShown
    | Crashed
    | NoFaceWarning
    | Verdict(prediction: string, gradCam: bool, pdfButton: bool)

  /** `main` once a file is uploaded: the face the detector finds in the
      image, or in the sampled video frame, is an input. */
  function Render(name: string, imageFace: Option<real>, stream: seq<Option<Frame>>, frameFace: Option<real>): Page {
    match BranchFor(name)
    case ImageBranch =>
      var p := Predict(imageFace);
      if p.prediction == "No face detected" then NoFaceWarning
      else Verdict(p.prediction, p.prediction == "fake", p.prediction == "fake")
    case VideoBranch =>
      if Sampled(stream, 1, 15).None? then Crashed
      else
        var p := Predict(frameFace);
        Verdict(p.prediction, p.prediction == "fake", p.prediction == "fake")
    case NoBranch => NothingShown
  }

  /** The no-face warning is never shown; Grad-CAM and the PDF button come
      exactly with a "fake" verdict; an unknown extension shows nothing; a
      video crashes exactly when its 15th read fails. */
  lemma RenderCorrect(name: string, imageFace: Option<real>, stream: seq<Option<Frame>>, frameFace: Option<real>)
    ensures Render(name, imageFace, stream, frameFace) != NoFaceWarning
    ensures Render(name, imageFace, stream, frameFace).Verdict? ==>
              var v := Render(name, imageFace, stream, frameFace);
              v.gradCam == v.pdfButton == (v.prediction == "fake")
    ensures Render(name, imageFace, stream, frameFace) == NothingShown <==> BranchFor(name) == NoBranch
    ensures BranchFor(name) == VideoBranch ==>
              (Render(name, imageFace, stream, frameFace) == Crashed <==> DeepfakeBackend.ReadAt(stream, 14).None?)
    ensures BranchFor(name) == ImageBranch && imageFace.None? ==>
              Render(name, imageFace, stream, frameFace) == Verdict("real", false, false)
  {
    PredictRule(imageFace);
  }
}
