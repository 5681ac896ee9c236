/** The web client's search page: it posts the chosen image to the detection
    service, turns the reply into at most five result rows and a deepfake
    banner, lets the user report rows one at a time or all at once, and
    answers chat questions by keyword. The HTTP exchange is an input
    (`Response`); the toasts are returned as values. */
module WebSearch {
  import opened Common
  import opened Triage
  import DeepfakeBackend

  type JsonObject = DeepfakeBackend.JsonObject

  /** How many reverse-search hits the page keeps (`slice(0, 5)`). */
  const TopResults: nat := 5

  /** One result row. The fields hold `undefined` (`None`) when the hit lacks
      the key they are read from. */
  datatype Match = Match(id: int, platform: Option<string>, url: Option<string>, imageUrl: Option<string>)

  function MatchId(m: Match): int { m.id }

  function Get(o: JsonObject, key: string): Option<string> {
    if key in o then Some(o[key]) else None
  }

  /** The first five hits as rows numbered from 1, reading the image URL from
      `imageKey`. */
  function RowsFrom(hits: seq<JsonObject>, imageKey: string): (ms: seq<Match>)
    ensures |ms| == if |hits| < TopResults then |hits| else TopResults
    ensures forall i :: 0 <= i < |ms| ==>
              ms[i] == Match(i + 1, Get(hits[i], "title"), Get(hits[i], "site"), Get(hits[i], imageKey))
  {
    var top := if |hits| < TopResults then hits else hits[..TopResults];
    seq(|top|, i requires 0 <= i < |top| => Match(i + 1, Get(top[i], "title"), Get(top[i], "site"), Get(top[i], imageKey)))
  }

  /** The key the page reads the image URL from, as written. */
  const PageImageKey := "image"

  /** The key the detection service writes the image URL under. */
  const ServiceImageKey := "img"

  /** Rows are numbered 1, 2, ... so their ids are distinct and a row's id
      tells its position. */
  lemma RowIds(hits: seq<JsonObject>, imageKey: string)
    ensures DistinctIds(RowsFrom(hits, imageKey), MatchId)
    ensures forall k :: k in IdSet(RowsFrom(hits, imageKey), MatchId) <==> 1 <= k <= |RowsFrom(hits, imageKey)|
  {
    var ms := RowsFrom(hits, imageKey);
    IdSetMembers(ms, MatchId);
    forall k | 1 <= k <= |ms| ensures k in IdSet(ms, MatchId) {
      assert MatchId(ms[k - 1]) == k;
    }
  }

  // ---------------------------------------------------------------------
  // The exchange with the detection service

  /** The reply body as the page reads it: `prediction` and
      `reverse_search_results`, each possibly absent. */
  datatype Body = Body(prediction: Option<string>, hits: Option<seq<JsonObject>>)

  /** The fetch: it fails, or a status with a body that is JSON or not. */
  datatype Response = NetworkFailure | Http(status: int, body: Option<Body>)

  /** What a submission leaves behind: nothing, or new rows and a verdict. */
  datatype Outcome = Unchanged | Shown(matches: seq<Match>, deepfake: bool)

  /** A non-2xx status throws, an unparsable body throws, a 2xx status other
      than 200 is ignored, and a body without `reverse_search_results` throws
      in `slice`; each throw is caught and only logged. The rows read the
      image URL from `imageKey`: the page passes `PageImageKey`. */
  function Settle(resp: Response, imageKey: string): (o: Outcome)
    ensures o.Shown? <==> resp.Http? && resp.status == 200 && resp.body.Some? && resp.body.value.hits.Some?
    ensures o.Shown? ==> o.matches == RowsFrom(resp.body.value.hits.value, imageKey)
    ensures o.Shown? ==> (o.deepfake <==> resp.body.value.prediction == Some("fake"))
  {
    match resp
    case NetworkFailure => Unchanged
    case Http(status, body) =>
      if !(200 <= status <= 299) then Unchanged
      else if body.None? then Unchanged
      else if status != 200 then Unchanged
      else if body.value.hits.None? then Unchanged
      else Shown(RowsFrom(body.value.hits.value, imageKey), body.value.prediction == Some("fake"))
  }

  /** The JSON the detection service's reply becomes on the page. */
  function ClientBody(reply: DeepfakeBackend.Reply): Body {
    match reply
    case ErrorReply(_) => Body(None, None)
    case PredictionReply(p, _, hits, _, _) => Body(Some(p), hits)
  }

  /** The file parts the page posts: the chosen image under "image", and
      none when only a URL was typed (the URL itself is never sent). */
  function RequestFiles(image: Option<DeepfakeBackend.Upload>): map<string, DeepfakeBackend.Upload> {
    match image
    case Some(u) => map["image" := u]
    case None => map[]
  }

  /** A search with a typed URL and no image reaches the service without a
      file, is answered with an error body, and changes nothing on the page. */
  lemma UrlOnlySearchShowsNothing(svc: DeepfakeBackend.Services)
    ensures Settle(Http(200, Some(ClientBody(DeepfakeBackend.UploadFile(RequestFiles(None), svc).reply))), PageImageKey) == Unchanged
  {
    DeepfakeBackend.UploadDispatch(RequestFiles(None), svc);
  }

  /** What an uploaded image in which a face is found brings to the page,
      with the image URL read from `imageKey`: the service's verdict, and for
      a "real" image the first five search results in order; a "real" image
      whose search raised gets an error body and changes nothing. */
  lemma ImageSearchRows(u: DeepfakeBackend.Upload, score: real, svc: DeepfakeBackend.Services, imageKey: string)
    requires u.filename != "" && svc.image == DeepfakeBackend.ImageFace(Some(score))
    ensures var o := Settle(Http(200, Some(ClientBody(DeepfakeBackend.UploadFile(RequestFiles(Some(u)), svc).reply))), imageKey);
      && (o.Unchanged? <==> score < 0.5 && svc.search.SearchRaised?)
      && (o.Shown? ==> (o.deepfake <==> score >= 0.5))
      && (o.Shown? && o.deepfake ==> o.matches == [])
      && (o.Shown? && !o.deepfake ==>
            var items := svc.search.items;
            && |o.matches| == (if |items| < TopResults then |items| else TopResults)
            && forall i :: 0 <= i < |o.matches| ==>
                 o.matches[i] == Match(i + 1, Some(items[i].pageTitle), Some(items[i].pageUrl), Get(DeepfakeBackend.HitJson(items[i]), imageKey)))
  {
    DeepfakeBackend.UploadDispatch(RequestFiles(Some(u)), svc);
  }

  /** The page with the key corrected to "img": an image in which a face is
      found is shown with the service's verdict; only a "real" image brings
      rows, at most five, taken in the search engine's order with title, site
      and image URL. */
  lemma ImageSearchShown(u: DeepfakeBackend.Upload, score: real, svc: DeepfakeBackend.Services)
    requires u.filename != "" && svc.image == DeepfakeBackend.ImageFace(Some(score))
    ensures var o := Settle(Http(200, Some(ClientBody(DeepfakeBackend.UploadFile(RequestFiles(Some(u)), svc).reply))), ServiceImageKey);
      && (o.Unchanged? <==> score < 0.5 && svc.search.SearchRaised?)
      && (o.Shown? ==> (o.deepfake <==> score >= 0.5))
      && (o.Shown? && o.deepfake ==> o.matches == [])
      && (o.Shown? && !o.deepfake ==>
            var items := svc.search.items;
            && |o.matches| == (if |items| < TopResults then |items| else TopResults)
            && forall i :: 0 <= i < |o.matches| ==>
                 o.matches[i] == Match(i + 1, Some(items[i].pageTitle), Some(items[i].pageUrl), Some(items[i].imageUrl)))
  {
    ImageSearchRows(u, score, svc, ServiceImageKey);
  }

  /** As written, the page reads the image URL from "image" while the
      service writes it under "img", so no row made from service hits has an
      image URL; the corrected key recovers every one. */
  lemma ImageUrlAlwaysMissing(items: seq<DeepfakeBackend.SearchItem>)
    ensures var ms := RowsFrom(seq(|items|, i requires 0 <= i < |items| => DeepfakeBackend.HitJson(items[i])), PageImageKey);
      forall i :: 0 <= i < |ms| ==> ms[i].imageUrl.None?
    ensures var ms := RowsFrom(seq(|items|, i requires 0 <= i < |items| => DeepfakeBackend.HitJson(items[i])), ServiceImageKey);
      forall i :: 0 <= i < |ms| ==> ms[i].imageUrl == Some(items[i].imageUrl)
  {
  }

  /** The page as written, against the service: a "real" image is shown
      with its results' titles and sites, in order, but without any image
      URL. */
  lemma PageShowsNoImageUrl(u: DeepfakeBackend.Upload, score: real, svc: DeepfakeBackend.Services)
    requires u.filename != "" && svc.image == DeepfakeBackend.ImageFace(Some(score))
    ensures var o := Settle(Http(200, Some(ClientBody(DeepfakeBackend.UploadFile(RequestFiles(Some(u)), svc).reply))), PageImageKey);
      o.Shown? && !o.deepfake ==>
        forall i :: 0 <= i < |o.matches| ==>
          o.matches[i] == Match(i + 1, Some(svc.search.items[i].pageTitle), Some(svc.search.items[i].pageUrl), None)
  {
    ImageSearchRows(u, score, svc, PageImageKey);
  }

  // ---------------------------------------------------------------------
  // The results card

  /** As written, a new search keeps the reported ids of earlier searches, so
      after rows 3 to 5 of a five-row result were reported, a three-row
      result shows its rows 1 and 2 to nobody: the card is hidden and would
      announce 0 matches. Reporting a row twice has the same effect. */
  lemma BannerHidesUnreportedRows()
    ensures var rows := [Match(1, None, None, None), Match(2, None, None, None), Match(3, None, None, None)];
      && Visible(rows, MatchId, [3, 4, 5]) == rows[..2]
      && !CardShownAsWritten(rows, [3, 4, 5])
      && BannerCountAsWritten(rows, [3, 4, 5]) == 0
      && Remaining(rows, MatchId, [3, 4, 5]) == 2
    ensures var rows := [Match(1, None, None, None), Match(2, None, None, None)];
      && Visible(rows, MatchId, [1, 1]) == rows[1..]
      && !CardShownAsWritten(rows, [1, 1])
      && Remaining(rows, MatchId, [1, 1]) == 1
  {
  }

  // ---------------------------------------------------------------------
  // Chat

  datatype Sender = User | Bot
  datatype ChatMessage = ChatMessage(sender: Sender, content: string)

  /** The bot's canned answers. */
  datatype Answer = DeepfakeAnswer | HowToAnswer | ReportAnswer | FallbackAnswer

  function AnswerText(a: Answer): string {
    match a
    case FallbackAnswer => FallbackText
    case DeepfakeAnswer => DeepfakeText
    case HowToAnswer => HowToText
    case ReportAnswer => ReportText
  }

  const FallbackText := "I'm sorry, I don't have an answer for that. Can you try rephrasing your question?"
  const DeepfakeText := "Deepfakes are synthetic media in which a person in an existing image or video is replaced with someone else's likeness. Our DeepFake Detective tool can help identify potential deepfakes by analyzing images and performing reverse image searches."
  const HowToText := "To use the DeepFake Detective, simply upload an image or provide an image URL in the input field. Then click 'Search' to analyze the image and perform a reverse image search. The results will show potential matches and whether a deepfake was detected."
  const ReportText := "You can report suspicious results by clicking the 'Report' button next to each result. If you want to report all results at once, use the 'Report All' button at the top of the results table."

  /** The characters JavaScript's `trim` removes. */
  predicate IsJsWhitespace(c: char) {
    c == ' ' || c == '\t' || c == '\n' || c == '\r' || c == '\U{000B}' || c == '\U{000C}' ||
    c == '\U{00A0}' || c == '\U{1680}' || ('\U{2000}' <= c <= '\U{200A}') || c == '\U{2028}' ||
    c == '\U{2029}' || c == '\U{202F}' || c == '\U{205F}' || c == '\U{3000}' || c == '\U{FEFF}'
  }

  /** `!s.trim()`: nothing but whitespace. */
  predicate IsBlank(s: string) {
    forall i :: 0 <= i < |s| ==> IsJsWhitespace(s[i])
  }

  /** The keyword cascade, checked on the lower-cased question. */
  function BotAnswer(question: string): Answer {
    var q := Lower(question);
    if Contains(q, "deepfake") then DeepfakeAnswer
    else if Contains(q, "how to use") then HowToAnswer
    else if Contains(q, "report") then ReportAnswer
    else FallbackAnswer
  }

  /** Each answer is given for exactly its keyword, the earlier keyword
      winning, and the fallback when none occurs. */
  lemma BotAnswerKeywords(question: string)
    ensures var q := Lower(question);
      && (BotAnswer(question) == DeepfakeAnswer <==> Contains(q, "deepfake"))
      && (BotAnswer(question) == HowToAnswer <==> !Contains(q, "deepfake") && Contains(q, "how to use"))
      && (BotAnswer(question) == ReportAnswer <==>
            !Contains(q, "deepfake") && !Contains(q, "how to use") && Contains(q, "report"))
      && (BotAnswer(question) == FallbackAnswer <==>
            !Contains(q, "deepfake") && !Contains(q, "how to use") && !Contains(q, "report"))
  {
  }

  lemma LowerIdempotent(s: string)
    ensures Lower(Lower(s)) == Lower(s)
  {
    assert forall i :: 0 <= i < |s| ==> LowerChar(LowerChar(s[i])) == LowerChar(s[i]);
  }

  /** Questions that differ only in the case of ASCII letters get the same
      answer, and are blank together. */
  lemma BotAnswerIgnoresCase(question: string)
    ensures BotAnswer(Lower(question)) == BotAnswer(question)
    ensures IsBlank(Lower(question)) <==> IsBlank(question)
  {
    LowerIdempotent(question);
  }

  // ---------------------------------------------------------------------
  // The page

  /** The notifications the page raises. */
  datatype Toast =
    | NoToast
    | DeepfakeToast
    | ClearToast
    | ReportedToast(id: int)
    | ReportedAllToast(count: nat)

  class SearchPage {
    var searchResult: Option<seq<Match>>
    var input: string
    var image: Option<DeepfakeBackend.Upload>
    var isLoading: bool
    var reportedIds: seq<int>
    var isDeepfakeDetected: Option<bool>
    var chatMessages: seq<ChatMessage>
    var userInput: string

    constructor ()
      ensures searchResult.None? && input == "" && image.None? && !isLoading
      ensures reportedIds == [] && isDeepfakeDetected.None? && chatMessages == [] && userInput == ""
    {
      searchResult := None;
      input := "";
      image := None;
      isLoading := false;
      reportedIds := [];
      isDeepfakeDetected := None;
      chatMessages := [];
      userInput := "";
    }

    /** `handleSubmit`: nothing without a URL or an image; otherwise the
        response settles the rows and the verdict, or leaves them, and the
        page stops loading. Earlier reports are kept. */
    method HandleSubmit(resp: Response) returns (toast: Toast)
      modifies this
      ensures input == old(input) && image == old(image) && reportedIds == old(reportedIds)
      ensures chatMessages == old(chatMessages) && userInput == old(userInput)
      ensures input == "" && image.None? ==>
                searchResult == old(searchResult) && isDeepfakeDetected == old(isDeepfakeDetected) &&
                isLoading == old(isLoading) && toast == NoToast
      ensures (input != "" || image.Some?) && Settle(resp, PageImageKey).Unchanged? ==>
                searchResult == old(searchResult) && isDeepfakeDetected == old(isDeepfakeDetected) &&
                !isLoading && toast == NoToast
      ensures (input != "" || image.Some?) && Settle(resp, PageImageKey).Shown? ==>
                var o := Settle(resp, PageImageKey);
                searchResult == Some(o.matches) && isDeepfakeDetected == Some(o.deepfake) &&
                !isLoading && toast == (if o.deepfake then DeepfakeToast else ClearToast)
    {
      toast := NoToast;
      if input == "" && image.None? {
        return;
      }
      isLoading := true;
      var outcome := Settle(resp, PageImageKey);
      if outcome.Shown? {
        searchResult := Some(outcome.matches);
        isDeepfakeDetected := Some(outcome.deepfake);
        toast := if outcome.deepfake then DeepfakeToast else ClearToast;
      }
      isLoading := false;
    }

    /** `handleReport`: the id is appended, even if already reported. */
    method HandleReport(id: int) returns (toast: Toast)
      modifies this`reportedIds
      ensures reportedIds == old(reportedIds) + [id]
      ensures toast == ReportedToast(id)
    {
      reportedIds := reportedIds + [id];
      toast := ReportedToast(id);
    }

    /** `handleReportAll`: the ids of the shown rows are appended and their
        number announced; nothing happens before the first search. */
    method HandleReportAll() returns (toast: Toast)
      modifies this`reportedIds
      ensures searchResult.None? ==> reportedIds == old(reportedIds) && toast == NoToast
      ensures searchResult.Some? ==>
                reportedIds == old(reportedIds) + UnreportedIds(searchResult.value, MatchId, old(reportedIds)) &&
                toast == ReportedAllToast(|Visible(searchResult.value, MatchId, old(reportedIds))|)
      ensures searchResult.Some? ==> Visible(searchResult.value, MatchId, reportedIds) == []
    {
      toast := NoToast;
      if searchResult.Some? {
        var unreported := UnreportedIds(searchResult.value, MatchId, reportedIds);
        ReportAllCorrect(searchResult.value, MatchId, reportedIds);
        reportedIds := reportedIds + unreported;
        toast := ReportedAllToast(|unreported|);
      }
    }

    /** `handleChatSubmit`: a blank question is ignored; otherwise the
        question and the bot's answer are appended and the input cleared. */
    method HandleChatSubmit()
      modifies this`chatMessages, this`userInput
      ensures IsBlank(old(userInput)) ==> chatMessages == old(chatMessages) && userInput == old(userInput)
      ensures !IsBlank(old(userInput)) ==>
                chatMessages == old(chatMessages) + [ChatMessage(User, old(userInput)), ChatMessage(Bot, AnswerText(BotAnswer(old(userInput))))] &&
                userInput == ""
    {
      if IsBlank(userInput) {
        return;
      }
      chatMessages := chatMessages + [ChatMessage(User, userInput)];
      var answer := BotAnswer(userInput);
      chatMessages := chatMessages + [ChatMessage(Bot, AnswerText(answer))];
      userInput := "";
    }

    /** The rows the filter keeps: those whose id is unreported. */
    function Rows(): seq<Match>
      reads this
    {
      match searchResult
      case None => []
      case Some(rs) => Visible(rs, MatchId, reportedIds)
    }

    /** The results card, corrected: shown while the filter keeps some row,
        with the number of rows it keeps. */
    function Card(): (c: Option<nat>)
      reads this
      ensures c.Some? ==> c.value == |Rows()| > 0
      ensures c.None? <==> Rows() == []
    {
      if searchResult.Some? && Remaining(searchResult.value, MatchId, reportedIds) > 0 then
        Some(Remaining(searchResult.value, MatchId, reportedIds))
      else None
    }
  }
}
