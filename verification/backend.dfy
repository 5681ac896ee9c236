/** The detection service's decision logic: score-to-label thresholds, the
    majority vote over video frames, the frame window of the video sampler,
    the MFCC width fitting, the reverse-search record mapping and the
    dispatch of an upload request. The neural networks, the reverse-image
    search engine, the file system and the database are inputs here. */
module DeepfakeBackend {
  import opened Common

  // ---------------------------------------------------------------------
  // Labels

  /** A label and the confidence reported beside it. */
  datatype Verdict = Verdict(status: string, confidence: real)

  /** `pred`: the face detector yields no face (`None`) or the sigmoid score
      of the face classifier. */
  function Pred(face: Option<real>): (v: Verdict)
    ensures face.None? ==> v == Verdict("no_face_detected", 0.0)
    ensures face.Some? ==> v.confidence == face.value
    ensures face.Some? ==> (v.status == "real" <==> face.value < 0.5)
    ensures face.Some? ==> (v.status == "fake" <==> face.value >= 0.5)
  {
    match face
    case None => Verdict("no_face_detected", 0.0)
    case Some(score) => Verdict(if score < 0.5 then "real" else "fake", score)
  }

  /** `predictFake`: the audio classifier's score, labelled "fake" above 0.5. */
  function PredictFake(score: real): (v: Verdict)
    ensures v.confidence == score
    ensures v.status == "fake" <==> score > 0.5
    ensures v.status == "real" <==> score <= 0.5
  {
    Verdict(if score > 0.5 then "fake" else "real", score)
  }

  /** Raising a score never turns a "fake" label into "real", for either medium. */
  lemma LabelsMonotone(s: real, t: real)
    requires s <= t
    ensures Pred(Some(s)).status == "fake" ==> Pred(Some(t)).status == "fake"
    ensures PredictFake(s).status == "fake" ==> PredictFake(t).status == "fake"
  {
  }

  /** The image and audio thresholds disagree exactly at a score of 0.5,
      which is "fake" for an image and "real" for an audio clip. */
  lemma ThresholdDrift(s: real)
    ensures Pred(Some(s)).status == PredictFake(s).status <==> s != 0.5
  {
  }

  // ---------------------------------------------------------------------
  // find_mode

  /** Position of the first occurrence of `k` in `xs`. */
  function FirstIndex<K(==)>(xs: seq<K>, k: K): (i: nat)
    requires k in xs
    ensures i < |xs| && xs[i] == k
    ensures forall j :: 0 <= j < i ==> xs[j] != k
  {
    if xs[0] == k then 0 else 1 + FirstIndex(xs[1..], k)
  }

  function MaxCount<K>(bs: seq<Bucket<K>>): (m: nat)
    ensures forall b :: b in bs ==> b.count <= m
    ensures bs != [] ==> exists b :: b in bs && b.count == m
  {
    if bs == [] then 0
    else
      var rest := MaxCount(bs[1..]);
      assert forall b :: b in bs ==> b == bs[0] || b in bs[1..];
      if bs[0].count >= rest then bs[0].count else rest
  }

  /** Index of the first bucket whose count is `c`. */
  function FirstWithCount<K>(bs: seq<Bucket<K>>, c: nat): (i: nat)
    requires exists b :: b in bs && b.count == c
    ensures i < |bs| && bs[i].count == c
    ensures forall j :: 0 <= j < i ==> bs[j].count != c
  {
    if bs[0].count == c then 0
    else
      assert exists b :: b in bs[1..] && b.count == c;
      1 + FirstWithCount(bs[1..], c)
  }

  /** `find_mode`: `Counter(arr)`, its largest count, and the first key (in
      first-seen order) that has it. Python raises on an empty list. */
  function FindMode(arr: seq<string>): string
    requires |arr| > 0
  {
    var counts := Tally(arr);
    TallyDistinct(arr);
    assert arr[0] in KeysOf(counts);
    counts[FirstWithCount(counts, MaxCount(counts))].key
  }

  /** Keys that are first seen earlier come earlier in `FirstSeen`. */
  lemma {:induction false} FirstSeenOrder(xs: seq<string>, i: int, j: int)
    requires 0 <= i < j < |FirstSeen(xs)|
    ensures FirstSeen(xs)[i] in xs && FirstSeen(xs)[j] in xs
    ensures FirstIndex(xs, FirstSeen(xs)[i]) < FirstIndex(xs, FirstSeen(xs)[j])
  {
    FirstSeenMembers(xs);
    var init, x := xs[..|xs| - 1], xs[|xs| - 1];
    assert xs == init + [x];
    var fs := FirstSeen(init);
    FirstSeenMembers(init);
    assert FirstSeen(xs)[i] in fs;
    FirstIndexPrefix(init, x, FirstSeen(xs)[i]);
    if j < |fs| {
      FirstSeenOrder(init, i, j);
      FirstIndexPrefix(init, x, FirstSeen(xs)[j]);
    } else {
      assert FirstSeen(xs)[j] == x && x !in init;
    }
  }

  lemma FirstIndexPrefix(init: seq<string>, x: string, k: string)
    requires k in init
    ensures k in init + [x]
    ensures FirstIndex(init + [x], k) == FirstIndex(init, k)
  {
    var a, b := FirstIndex(init + [x], k), FirstIndex(init, k);
    assert (init + [x])[b] == k;
  }

  /** The mode is an element of the list, occurs at least as often as any
      other, and among the most frequent it is the one seen first. */
  lemma FindModeCorrect(arr: seq<string>)
    requires |arr| > 0
    ensures FindMode(arr) in arr
    ensures forall x :: x in arr ==> Occurrences(arr, x) <= Occurrences(arr, FindMode(arr))
    ensures forall x :: x in arr && Occurrences(arr, x) == Occurrences(arr, FindMode(arr)) ==>
              FirstIndex(arr, FindMode(arr)) <= FirstIndex(arr, x)
  {
    var i := ModeIndex(arr);
    FirstSeenMembers(arr);
    assert FindMode(arr) in FirstSeen(arr);
    forall x | x in arr ensures Occurrences(arr, x) <= Occurrences(arr, FindMode(arr)) {
      var k := KeyIndex(arr, x);
    }
    forall x | x in arr && Occurrences(arr, x) == Occurrences(arr, FindMode(arr))
      ensures FirstIndex(arr, FindMode(arr)) <= FirstIndex(arr, x)
    {
      var k := KeyIndex(arr, x);
      if i < k {
        FirstSeenOrder(arr, i, k);
      }
    }
  }

  /** The mode's bucket: the first one holding the largest count. */
  lemma ModeIndex(arr: seq<string>) returns (i: nat)
    requires |arr| > 0
    ensures i < |Tally(arr)| == |FirstSeen(arr)|
    ensures FindMode(arr) == Tally(arr)[i].key == FirstSeen(arr)[i]
    ensures Tally(arr)[i].count == MaxCount(Tally(arr)) == Occurrences(arr, FindMode(arr))
    ensures forall j :: 0 <= j < i ==> Tally(arr)[j].count != MaxCount(Tally(arr))
  {
    var counts := Tally(arr);
    TallyDistinct(arr);
    TallyCounts(arr);
    TallyKeys(arr);
    assert arr[0] in KeysOf(counts);
    i := FirstWithCount(counts, MaxCount(counts));
    assert KeysOf(counts)[i] == counts[i].key;
  }

  /** The bucket of a list element: same position as in `FirstSeen`, holding
      its number of occurrences. */
  lemma KeyIndex(arr: seq<string>, x: string) returns (k: nat)
    requires x in arr
    ensures k < |Tally(arr)| == |FirstSeen(arr)|
    ensures Tally(arr)[k].key == x == FirstSeen(arr)[k]
    ensures Tally(arr)[k].count == Occurrences(arr, x) <= MaxCount(Tally(arr))
  {
    var counts := Tally(arr);
    TallyDistinct(arr);
    TallyCounts(arr);
    TallyKeys(arr);
    assert x in KeysOf(counts);
    k :| 0 <= k < |counts| && KeysOf(counts)[k] == x;
    assert counts[k] in counts;
  }

  // ---------------------------------------------------------------------
  // Video frame sampling

  /** A decoded frame, or the all-zero frame substituted for a failed read. */
  datatype Frame = Picture(pixels: seq<int>) | Blank

  /** The `k`-th read from the capture after seeking to the window's start:
      `stream` lists what successive `read()` calls return, and every read
      past its end fails. */
  function ReadAt(stream: seq<Option<Frame>>, k: int): Option<Frame> {
    if 0 <= k < |stream| then stream[k] else None
  }

  function OrBlank(o: Option<Frame>): Frame {
    match o
    case Some(f) => f
    case None => Blank
  }

  /** `need_length` and the choice of the first frame: 0 when the video is
      shorter than the window, otherwise a uniform pick in
      `[0, length - need]`, which `pick` stands for. */
  function WindowStart(videoLength: int, nFrames: int, frameStep: int, pick: nat): (start: int)
    ensures 1 + (nFrames - 1) * frameStep > videoLength ==> start == 0
    ensures 1 + (nFrames - 1) * frameStep <= videoLength ==>
              0 <= start <= videoLength - (1 + (nFrames - 1) * frameStep)
  {
    var need := 1 + (nFrames - 1) * frameStep;
    if need > videoLength then 0 else pick % (videoLength - need + 1)
  }

  /** Every admissible start can be the one chosen. */
  lemma WindowStartReachable(videoLength: int, nFrames: int, frameStep: int, start: nat)
    requires start <= videoLength - (1 + (nFrames - 1) * frameStep)
    ensures WindowStart(videoLength, nFrames, frameStep, start) == start
  {
  }

  /** What the sampler returns: `n` blank frames when the first read fails;
      otherwise the first frame followed by the frame read `step` reads after
      the previous one, blank where that read failed. With `n = 0` a
      successful first read still yields one frame. */
  function Sampled(stream: seq<Option<Frame>>, n: nat, step: nat): (frames: seq<Frame>)
    ensures ReadAt(stream, 0).None? ==> |frames| == n
    ensures ReadAt(stream, 0).Some? ==> |frames| == if n == 0 then 1 else n
  {
    if ReadAt(stream, 0).None? then seq(n, _ => Blank)
    else seq(if n == 0 then 1 else n, j => OrBlank(ReadAt(stream, j * step)))
  }

  /** `frames_from_video_file` after the seek: one read, then `n - 1` rounds
      of `step` reads each keeping the last. */
  method FramesFromVideoFile(stream: seq<Option<Frame>>, n: nat, step: nat) returns (frames: seq<Frame>)
    ensures frames == Sampled(stream, n, step)
  {
    var pos := 0;
    var last := ReadAt(stream, pos);
    pos := pos + 1;
    if last.None? {
      frames := seq(n, _ => Blank);
      return;
    }
    frames := [last.value];
    var round := 0;
    while round < n - 1
      invariant 0 <= round && (n >= 1 ==> round <= n - 1)
      invariant n == 0 ==> round == 0
      invariant pos == round * step + 1
      invariant last == ReadAt(stream, round * step)
      invariant frames == seq(round + 1, j => OrBlank(ReadAt(stream, j * step)))
    {
      var k := 0;
      while k < step
        invariant 0 <= k <= step
        invariant pos == round * step + k + 1
        invariant last == ReadAt(stream, round * step + k)
      {
        last := ReadAt(stream, pos);
        pos := pos + 1;
        k := k + 1;
      }
      round := round + 1;
      assert round * step == (round - 1) * step + step;
      frames := frames + [OrBlank(last)];
    }
  }

  /** In a long enough video with no read failures, frame `j` of the sample is
      the video frame `start + j * step`: the frames are `step` apart. */
  lemma SampledSpacing(video: seq<Frame>, start: nat, n: nat, step: nat, j: nat)
    requires 1 <= n && j < n
    requires start + (n - 1) * step < |video|
    ensures j * step <= (n - 1) * step
    ensures Sampled(Reads(video, start), n, step)[j] == video[start + j * step]
  {
    MulMonotone(j, n - 1, step);
    var rs := Reads(video, start);
    assert ReadAt(rs, 0) == Some(video[start]);
    var k := j * step;
    assert 0 <= k < |rs|;
    assert Sampled(rs, n, step)[j] == OrBlank(ReadAt(rs, k));
  }

  lemma MulMonotone(a: nat, b: nat, c: nat)
    requires a <= b
    ensures a * c <= b * c
  {
  }

  /** The reads of a capture positioned at `start` on a fully decodable video. */
  function Reads(video: seq<Frame>, start: nat): (rs: seq<Option<Frame>>)
    ensures |rs| == if start <= |video| then |video| - start else 0
    ensures forall k :: 0 <= k < |rs| ==> rs[k] == Some(video[start + k])
  {
    if start >= |video| then [] else seq(|video| - start, k requires 0 <= k < |video| - start => Some(video[start + k]))
  }

  // ---------------------------------------------------------------------
  // MFCC width

  const MaxLength: nat := 500

  /** Zero-pad a row to `w` columns, or cut it to its first `w`. */
  function FitRow(row: seq<real>, w: nat): (r: seq<real>)
    ensures |r| == w
    ensures forall j :: 0 <= j < w ==> r[j] == if j < |row| then row[j] else 0.0
  {
    if |row| < w then row + seq(w - |row|, _ => 0.0) else row[..w]
  }

  ghost predicate Rectangular(m: seq<seq<real>>) {
    forall i, j :: 0 <= i < j < |m| ==> |m[i]| == |m[j]|
  }

  /** The MFCC block of `predictFake`: pad with zero columns when narrower than
      500, otherwise keep the first 500 columns. */
  function FitMfcc(m: seq<seq<real>>): (r: seq<seq<real>>)
    requires Rectangular(m)
    ensures |r| == |m|
    ensures forall i :: 0 <= i < |r| ==> r[i] == FitRow(m[i], MaxLength)
  {
    var width := if m == [] then 0 else |m[0]|;
    if width < MaxLength then
      seq(|m|, i requires 0 <= i < |m| => m[i] + seq(MaxLength - |m[i]|, _ => 0.0))
    else
      seq(|m|, i requires 0 <= i < |m| => m[i][..MaxLength])
  }

  /** Every row ends up 500 wide, keeping its leading coefficients; fitting is
      idempotent, and a 500-wide matrix is left as it is. */
  lemma FitMfccCorrect(m: seq<seq<real>>)
    requires Rectangular(m)
    ensures Rectangular(FitMfcc(m))
    ensures forall i :: 0 <= i < |m| ==> |FitMfcc(m)[i]| == MaxLength
    ensures forall i, j :: 0 <= i < |m| && 0 <= j < MaxLength && j < |m[i]| ==> FitMfcc(m)[i][j] == m[i][j]
    ensures forall i, j :: 0 <= i < |m| && |m[i]| <= j < MaxLength ==> FitMfcc(m)[i][j] == 0.0
    ensures FitMfcc(FitMfcc(m)) == FitMfcc(m)
    ensures (forall i :: 0 <= i < |m| ==> |m[i]| == MaxLength) ==> FitMfcc(m) == m
  {
    var r := FitMfcc(m);
    assert forall i :: 0 <= i < |r| ==> FitRow(r[i], MaxLength) == r[i];
    if forall i :: 0 <= i < |m| ==> |m[i]| == MaxLength {
      forall i | 0 <= i < |m| ensures r[i] == m[i] {
        assert m[i][..MaxLength] == m[i];
      }
    }
  }

  // ---------------------------------------------------------------------
  // Reverse image search

  /** One result of the reverse-image search engine. */
  datatype SearchItem = SearchItem(pageTitle: string, pageUrl: string, imageUrl: string)

  /** A JSON object whose values are strings. */
  type JsonObject = map<string, string>

  /** The record the service emits for one search result. */
  function HitJson(item: SearchItem): JsonObject {
    map["title" := item.pageTitle, "site" := item.pageUrl, "img" := item.imageUrl]
  }

  /** Reading a hit back by the keys the service writes recovers the item. */
  function DecodeHit(hit: JsonObject): Option<SearchItem> {
    if "title" in hit && "site" in hit && "img" in hit then Some(SearchItem(hit["title"], hit["site"], hit["img"]))
    else None
  }

  /** Each hit has exactly the keys title, site and img, and decodes to its item. */
  lemma HitJsonRoundTrip(item: SearchItem)
    ensures HitJson(item).Keys == {"title", "site", "img"}
    ensures DecodeHit(HitJson(item)) == Some(item)
  {
  }

  /** `reverse_image_search`: one hit per search result, in the engine's order. */
  method ReverseImageSearch(res: seq<SearchItem>) returns (searchResults: seq<JsonObject>)
    ensures |searchResults| == |res|
    ensures forall i :: 0 <= i < |res| ==> searchResults[i] == HitJson(res[i])
  {
    searchResults := [];
    var i := 0;
    while i < |res|
      invariant 0 <= i <= |res|
      invariant |searchResults| == i
      invariant forall k :: 0 <= k < i ==> searchResults[k] == HitJson(res[k])
    {
      searchResults := searchResults + [HitJson(res[i])];
      i := i + 1;
    }
  }

  // ---------------------------------------------------------------------
  // upload_file

  /** An uploaded file part; only its name matters to the dispatch. */
  datatype Upload = Upload(filename: string)

  /** What the image model does with one file. */
  datatype ImageAnalysis = ImageRaised(message: string) | ImageFace(face: Option<real>)

  /** What the audio model does with one file. */
  datatype AudioAnalysis = AudioRaised(message: string) | AudioScore(score: real)

  /** One extracted video frame run through `pred`, or the exception it raised. */
  datatype FrameResult = FrameRaised | FrameFace(face: Option<real>)

  /** The video branch: extracting the frames raised, or the results of the frames. */
  datatype VideoAnalysis = VideoRaised(message: string) | VideoFrames(frames: seq<FrameResult>)

  /** What the reverse-image search engine does with one file: it raises,
      or it returns its results. */
  datatype SearchOutcome = SearchRaised(message: string) | SearchHits(items: seq<SearchItem>)

  /** The outside world the handler consults: the models and the search engine. */
  datatype Services = Services(image: ImageAnalysis, audio: AudioAnalysis, video: VideoAnalysis, search: SearchOutcome)

  /** The JSON body of the reply (always sent with status 200). */
  datatype Reply =
    | ErrorReply(error: string)
    | PredictionReply(prediction: string, confidence: real, reverseSearch: Option<seq<JsonObject>>,
                      metadataFile: bool, message: Option<string>)

  /** A row passed to `save_to_db`. */
  datatype DbRow = DbRow(status: string, confidence: real, mediaFormat: string)

  /** The reply and the handler's lasting effects. */
  datatype UploadResult = UploadResult(reply: Reply, row: Option<DbRow>, mediaSaved: bool)

  const NotSaved := "Deepfake detected, file not saved."

  function FrameVerdict(f: FrameResult): Verdict {
    match f
    case FrameRaised => Verdict("error", 0.0)
    case FrameFace(face) => Pred(face)
  }

  function Labels(frames: seq<FrameResult>): (ls: seq<string>)
    ensures |ls| == |frames|
    ensures forall i :: 0 <= i < |frames| ==> ls[i] == FrameVerdict(frames[i]).status
  {
    if frames == [] then [] else [FrameVerdict(frames[0]).status] + Labels(frames[1..])
  }

  function SumConfidence(frames: seq<FrameResult>): real {
    if frames == [] then 0.0 else FrameVerdict(frames[0]).confidence + SumConfidence(frames[1..])
  }

  /** The image branch. The row is saved before the search engine is
      consulted, so a search that raises leaves the row behind an error reply. */
  function ImageBranch(a: ImageAnalysis, search: SearchOutcome): UploadResult {
    match a
    case ImageRaised(msg) => UploadResult(ErrorReply(msg), None, false)
    case ImageFace(face) =>
      var v := Pred(face);
      var row := Some(DbRow(v.status, v.confidence, "image"));
      if v.status == "real" && search.SearchRaised? then UploadResult(ErrorReply(search.message), row, false)
      else
        var hits := if v.status == "real" then seq(|search.items|, i requires 0 <= i < |search.items| => HitJson(search.items[i])) else [];
        UploadResult(PredictionReply(v.status, v.confidence, Some(hits), true,
                                     if v.status == "fake" then Some(NotSaved) else None),
                     row, true)
  }

  /** The reply of the audio and video branches once a label is known. */
  function LabelledReply(v: Verdict, format: string): UploadResult {
    if v.status == "real" then UploadResult(PredictionReply(v.status, v.confidence, None, true, None), Some(DbRow(v.status, v.confidence, format)), true)
    else UploadResult(PredictionReply(v.status, v.confidence, None, false, Some(NotSaved)), Some(DbRow(v.status, v.confidence, format)), false)
  }

  function AudioBranch(a: AudioAnalysis): UploadResult {
    match a
    case AudioRaised(msg) => UploadResult(ErrorReply(msg), None, false)
    case AudioScore(score) => LabelledReply(PredictFake(score), "audio")
  }

  function VideoBranch(a: VideoAnalysis): UploadResult {
    match a
    case VideoRaised(msg) => UploadResult(ErrorReply(msg), None, false)
    case VideoFrames(frames) =>
      if frames == [] then UploadResult(ErrorReply("max() arg is an empty sequence"), None, false)
      else LabelledReply(Verdict(FindMode(Labels(frames)), SumConfidence(frames) / (|frames| as real)), "video")
  }

  /** `upload_file`: the first of the fields image, audio, video that is
      present decides the branch; an empty filename or no such field is an
      error reply. */
  function UploadFile(files: map<string, Upload>, svc: Services): UploadResult {
    if "image" in files then
      if files["image"].filename == "" then UploadResult(ErrorReply("No selected file"), None, false)
      else ImageBranch(svc.image, svc.search)
    else if "audio" in files then
      if files["audio"].filename == "" then UploadResult(ErrorReply("No selected file"), None, false)
      else AudioBranch(svc.audio)
    else if "video" in files then
      if files["video"].filename == "" then UploadResult(ErrorReply("No selected file"), None, false)
      else VideoBranch(svc.video)
    else UploadResult(ErrorReply("No valid file provided"), None, false)
  }

  /** The fields that take precedence over `f`. */
  function Before(f: string): set<string> {
    if f == "image" then {} else if f == "audio" then {"image"} else {"image", "audio"}
  }

  /** The file field the handler acts on: a present one that no present
      field takes precedence over. */
  function ChosenField(files: map<string, Upload>): (f: Option<string>)
    ensures f.Some? ==> f.value in {"image", "audio", "video"} && f.value in files
    ensures f.Some? ==> forall g :: g in Before(f.value) ==> g !in files
    ensures f.None? <==> "image" !in files && "audio" !in files && "video" !in files
  {
    if "image" in files then Some("image")
    else if "audio" in files then Some("audio")
    else if "video" in files then Some("video")
    else None
  }

  /** The request errors and the branch taken for the chosen field. */
  lemma UploadDispatch(files: map<string, Upload>, svc: Services)
    ensures ChosenField(files).None? ==>
              UploadFile(files, svc) == UploadResult(ErrorReply("No valid file provided"), None, false)
    ensures ChosenField(files).Some? && files[ChosenField(files).value].filename == "" ==>
              UploadFile(files, svc) == UploadResult(ErrorReply("No selected file"), None, false)
    ensures ChosenField(files) == Some("image") && files["image"].filename != "" ==>
              UploadFile(files, svc) == ImageBranch(svc.image, svc.search)
    ensures ChosenField(files) == Some("audio") && files["audio"].filename != "" ==>
              UploadFile(files, svc) == AudioBranch(svc.audio)
    ensures ChosenField(files) == Some("video") && files["video"].filename != "" ==>
              UploadFile(files, svc) == VideoBranch(svc.video)
  {
  }

  /** What the upload handler leaves behind: a prediction reply always
      comes with the row it saved, and that row matches the reply; an error
      reply leaves a row only for a "real" image whose search raised;
      reverse-search hits are sent only for a "real" image; audio and video
      are kept only when "real", images whenever a prediction is sent; and
      nothing is kept without a prediction. */
  predicate ConsistentEffects(u: UploadResult) {
    && (u.row.None? ==> u.reply.ErrorReply?)
    && (u.reply.PredictionReply? ==>
          u.row == Some(DbRow(u.reply.prediction, u.reply.confidence, u.row.value.mediaFormat)))
    && (u.reply.ErrorReply? && u.row.Some? ==>
          u.row.value.status == "real" && u.row.value.mediaFormat == "image")
    && (u.reply.PredictionReply? && u.reply.reverseSearch.Some? && u.reply.reverseSearch.value != [] ==>
          u.reply.prediction == "real" && u.row.value.mediaFormat == "image")
    && (u.reply.PredictionReply? && u.row.value.mediaFormat == "image" ==> u.mediaSaved)
    && (u.row.Some? && u.row.value.mediaFormat != "image" ==>
          u.reply.PredictionReply? && (u.mediaSaved <==> u.reply.prediction == "real"))
    && (u.mediaSaved ==> u.reply.PredictionReply?)
  }

  /** Every outcome of the handler has consistent effects. */
  lemma UploadEffects(files: map<string, Upload>, svc: Services)
    ensures ConsistentEffects(UploadFile(files, svc))
  {
    var u := UploadFile(files, svc);
    if "image" in files && files["image"].filename != "" {
      assert u == ImageBranch(svc.image, svc.search);
      ImageEffects(svc.image, svc.search);
    } else if "image" !in files && "audio" in files && files["audio"].filename != "" {
      assert u == AudioBranch(svc.audio);
      AudioEffects(svc.audio);
    } else if "image" !in files && "audio" !in files && "video" in files && files["video"].filename != "" {
      assert u == VideoBranch(svc.video);
      VideoEffects(svc.video);
    } else {
      assert u.reply.ErrorReply? && u.row.None? && !u.mediaSaved;
    }
  }

  lemma ImageEffects(a: ImageAnalysis, search: SearchOutcome)
    ensures ConsistentEffects(ImageBranch(a, search))
  {
  }

  lemma LabelledEffects(v: Verdict, format: string)
    requires format != "image"
    ensures ConsistentEffects(LabelledReply(v, format))
  {
  }

  lemma AudioEffects(a: AudioAnalysis)
    ensures ConsistentEffects(AudioBranch(a))
  {
    if a.AudioScore? {
      LabelledEffects(PredictFake(a.score), "audio");
    }
  }

  lemma VideoEffects(a: VideoAnalysis)
    ensures ConsistentEffects(VideoBranch(a))
  {
    if a.VideoFrames? && a.frames != [] {
      LabelledEffects(Verdict(FindMode(Labels(a.frames)), SumConfidence(a.frames) / (|a.frames| as real)), "video");
    }
  }

  /** A "real" image brings back one hit per search result, in order. */
  lemma RealImageHits(face: real, items: seq<SearchItem>)
    requires face < 0.5
    ensures ImageBranch(ImageFace(Some(face)), SearchHits(items)).reply.reverseSearch ==
              Some(seq(|items|, i requires 0 <= i < |items| => HitJson(items[i])))
  {
  }

  /** An error reply leaves a row behind exactly when an image with a face
      labelled "real" was uploaded and the search engine raised: the row is
      then saved, the search's message is sent back and the image is not kept. */
  lemma ErrorReplyWithRow(files: map<string, Upload>, svc: Services)
    ensures var u := UploadFile(files, svc);
      u.reply.ErrorReply? && u.row.Some? <==>
        ChosenField(files) == Some("image") && files["image"].filename != "" &&
        svc.image.ImageFace? && Pred(svc.image.face).status == "real" && svc.search.SearchRaised?
    ensures var u := UploadFile(files, svc);
      u.reply.ErrorReply? && u.row.Some? ==>
        u == UploadResult(ErrorReply(svc.search.message), Some(DbRow("real", Pred(svc.image.face).confidence, "image")), false)
  {
    UploadDispatch(files, svc);
    UploadEffects(files, svc);
    var u := UploadFile(files, svc);
    if ChosenField(files) == Some("audio") && files["audio"].filename != "" {
      AudioEffects(svc.audio);
    } else if ChosenField(files) == Some("video") && files["video"].filename != "" {
      VideoEffects(svc.video);
    }
  }

  /** When every element is the same label, that label is the mode. */
  lemma FindModeUnanimous(arr: seq<string>, s: string)
    requires |arr| > 0 && forall i :: 0 <= i < |arr| ==> arr[i] == s
    ensures FindMode(arr) == s
  {
    FindModeCorrect(arr);
  }

  lemma {:induction false} NoFaceConfidence(frames: seq<FrameResult>)
    requires forall i :: 0 <= i < |frames| ==> frames[i] == FrameFace(None)
    ensures SumConfidence(frames) == 0.0
  {
    if frames != [] {
      NoFaceConfidence(frames[1..]);
    }
  }

  /** A video in none of whose frames a face is found is answered with the
      "Deepfake detected" message although its label is "no_face_detected",
      and the file is not kept. */
  lemma NoFaceVideoReportsDeepfake(frames: seq<FrameResult>)
    requires |frames| > 0 && forall i :: 0 <= i < |frames| ==> frames[i] == FrameFace(None)
    ensures VideoBranch(VideoFrames(frames)) ==
              UploadResult(PredictionReply("no_face_detected", 0.0, None, false, Some(NotSaved)),
                           Some(DbRow("no_face_detected", 0.0, "video")), false)
  {
    FindModeUnanimous(Labels(frames), "no_face_detected");
    NoFaceConfidence(frames);
  }
}
