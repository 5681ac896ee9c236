/** The mobile client's reverse-search screen: it posts the picked photo to
    the detection service and shows the verdict as a single result with a
    random id, which the user may report. The HTTP exchange and the random
    draw are inputs. */
module MobileSearch {
  import opened Common
  import opened Triage
  import DeepfakeBackend

  /** The one result a submission produces. */
  datatype Item = Item(id: int, result: Option<string>)

  function ItemId(it: Item): int { it.id }

  /** A photo picked from the library. */
  datatype Asset = Asset(originalPath: string, uri: string)

  /** The reply body as the screen reads it: `error` and `prediction`. */
  datatype Body = Body(error: Option<string>, prediction: Option<string>)

  datatype Response = NetworkFailure | Http(status: int, body: Option<Body>)

  /** How a submission ends:
      - `Stuck`: an exception escapes `handleSubmit` and the loading flag stays on;
      - `Alerted`: an error alert is raised and the handler returns with the flag on;
      - `Ignored`: a 2xx status other than 200, the flag is cleared;
      - `NewItem`: the result replaces the list and the flag is cleared. */
  datatype Outcome = Stuck | Alerted(message: string) | Ignored | NewItem(item: Item)

  /** `data?.error` is truthy: present and not the empty string. */
  predicate ErrorTruthy(b: Body) {
    b.error.Some? && b.error.value != ""
  }

  /** `Math.floor(Math.random() * 10000)` for a draw in [0, 1). */
  function RandomId(draw: real): (id: int)
    requires 0.0 <= draw < 1.0
    ensures 0 <= id <= 9999
    ensures id as real <= draw * 10000.0 < id as real + 1.0
  {
    (draw * 10000.0).Floor
  }

  /** A submission after the input check. Without a picked image, reading
      `image.uri` throws before the request; a failed fetch, a non-2xx
      status or a body that is not JSON reach the catch block, whose
      `Alert('Error', error)` calls the `Alert` class as a function and
      throws again. */
  function Settle(hasImage: bool, resp: Response, draw: real): Outcome
    requires 0.0 <= draw < 1.0
  {
    if !hasImage then Stuck
    else match resp
      case NetworkFailure => Stuck
      case Http(status, body) =>
        if !(200 <= status <= 299) || body.None? then Stuck
        else if status != 200 then Ignored
        else if ErrorTruthy(body.value) then Alerted(body.value.error.value)
        else NewItem(Item(RandomId(draw), body.value.prediction))
  }

  predicate ClearsLoading(o: Outcome) {
    o.Ignored? || o.NewItem?
  }

  /** The loading flag is cleared exactly when an image was picked and the
      service answered 2xx with JSON that is not a 200 error body; a new
      result appears exactly for a 200 body without a truthy error. */
  lemma SettleOutcomes(hasImage: bool, resp: Response, draw: real)
    requires 0.0 <= draw < 1.0
    ensures ClearsLoading(Settle(hasImage, resp, draw)) <==>
              hasImage && resp.Http? && 200 <= resp.status <= 299 && resp.body.Some? &&
              !(resp.status == 200 && ErrorTruthy(resp.body.value))
    ensures Settle(hasImage, resp, draw).NewItem? <==>
              hasImage && resp.Http? && resp.status == 200 && resp.body.Some? && !ErrorTruthy(resp.body.value)
    ensures Settle(hasImage, resp, draw).NewItem? ==>
              0 <= Settle(hasImage, resp, draw).item.id <= 9999 &&
              Settle(hasImage, resp, draw).item.result == resp.body.value.prediction
  {
  }

  /** The JSON the detection service's reply becomes on the screen. */
  function ClientBody(reply: DeepfakeBackend.Reply): Body {
    match reply
    case ErrorReply(e) => Body(Some(e), None)
    case PredictionReply(p, _, _, _, _) => Body(None, Some(p))
  }

  /** The screen posts the photo under "image" with the name "photo.jpeg". */
  const PhotoPart := map["image" := DeepfakeBackend.Upload("photo.jpeg")]

  /** The service's failure message, if its analysis of the photo raised:
      the image model, or the search engine after a "real" label. */
  function FailureOf(svc: DeepfakeBackend.Services): Option<string> {
    match svc.image
    case ImageRaised(msg) => Some(msg)
    case ImageFace(face) =>
      if DeepfakeBackend.Pred(face).status == "real" && svc.search.SearchRaised? then Some(svc.search.message)
      else None
  }

  /** Against the detection service: an analysed image becomes one result
      holding the service's label; a failing analysis or search raises an
      alert with its message, except that an exception with an empty message
      slips through as a result with no label. */
  lemma ImageRoundTrip(svc: DeepfakeBackend.Services, draw: real)
    requires 0.0 <= draw < 1.0
    ensures var o := Settle(true, Http(200, Some(ClientBody(DeepfakeBackend.UploadFile(PhotoPart, svc).reply))), draw);
      && (FailureOf(svc).None? ==>
            o.NewItem? && o.item.result == Some(DeepfakeBackend.Pred(svc.image.face).status))
      && (FailureOf(svc).Some? && FailureOf(svc).value != "" ==> o == Alerted(FailureOf(svc).value))
      && (FailureOf(svc) == Some("") ==> o.NewItem? && o.item.result.None?)
  {
    DeepfakeBackend.UploadDispatch(PhotoPart, svc);
  }

  /** As written, the results card is shown only while the list is longer
      than the list of reported ids. A submission yields a single result, so
      once any result has been reported, every later result is hidden with
      the card, although the filter on reported ids would keep it. */
  lemma OneReportHidesLaterResults(it: Item, reported: seq<int>)
    requires |reported| >= 1 && it.id !in reported
    ensures Visible([it], ItemId, reported) == [it]
    ensures Remaining([it], ItemId, reported) == 1
    ensures !CardShownAsWritten([it], reported)
  {
  }

  /** The notifications the screen raises. */
  datatype Toast = NoToast | ReportedToast(id: int) | ReportedAllToast(count: nat)

  class ReverseSearchScreen {
    var searchResult: Option<seq<Item>>
    var input: string
    var isLoading: bool
    var reportedIds: seq<int>
    var image: Option<Asset>

    constructor ()
      ensures searchResult.None? && input == "" && !isLoading && reportedIds == [] && image.None?
    {
      searchResult := None;
      input := "";
      isLoading := false;
      reportedIds := [];
      image := None;
    }

    /** `handleChoosePhoto`: a picked photo fills the input with its path. */
    method HandleChoosePhoto(picked: Option<Asset>)
      modifies this`input, this`image
      ensures picked.Some? ==> input == picked.value.originalPath && image == picked
      ensures picked.None? ==> input == old(input) && image == old(image)
    {
      if picked.Some? {
        input := picked.value.originalPath;
        image := picked;
      }
    }

    /** `handleSubmit`: nothing while the input is empty; otherwise the
        loading flag is raised and the outcome decides the list, the alert
        and whether the flag comes down. Reports are kept. */
    method HandleSubmit(resp: Response, draw: real) returns (alert: Option<string>)
      requires 0.0 <= draw < 1.0
      modifies this`searchResult, this`isLoading
      ensures input == "" ==> searchResult == old(searchResult) && isLoading == old(isLoading) && alert.None?
      ensures input != "" ==>
                var o := Settle(image.Some?, resp, draw);
                && isLoading == !ClearsLoading(o)
                && searchResult == (if o.NewItem? then Some([o.item]) else old(searchResult))
                && alert == (if o.Alerted? then Some(o.message) else None)
    {
      alert := None;
      if input == "" {
        return;
      }
      isLoading := true;
      var o := Settle(image.Some?, resp, draw);
      match o {
        case Stuck =>
        case Alerted(message) =>
          alert := Some(message);
        case Ignored =>
          isLoading := false;
        case NewItem(item) =>
          searchResult := Some([item]);
          isLoading := false;
      }
    }

    /** `handleReport`: the id is appended, even if already reported. */
    method HandleReport(id: int) returns (toast: Toast)
      modifies this`reportedIds
      ensures reportedIds == old(reportedIds) + [id]
      ensures toast == ReportedToast(id)
    {
      reportedIds := reportedIds + [id];
      toast := ReportedToast(id);
    }

    /** `handleReportAll`: the ids of the shown results are appended and
        their number announced. */
    method HandleReportAll() returns (toast: Toast)
      modifies this`reportedIds
      ensures searchResult.None? ==> reportedIds == old(reportedIds) && toast == NoToast
      ensures searchResult.Some? ==>
                reportedIds == old(reportedIds) + UnreportedIds(searchResult.value, ItemId, old(reportedIds)) &&
                toast == ReportedAllToast(|Visible(searchResult.value, ItemId, old(reportedIds))|)
      ensures searchResult.Some? ==> Visible(searchResult.value, ItemId, reportedIds) == []
    {
      toast := NoToast;
      if searchResult.Some? {
        var unreported := UnreportedIds(searchResult.value, ItemId, reportedIds);
        ReportAllCorrect(searchResult.value, ItemId, reportedIds);
        reportedIds := reportedIds + unreported;
        toast := ReportedAllToast(|unreported|);
      }
    }

    /** The results card, corrected: shown while the filter keeps some result. */
    function Card(): (shown: bool)
      reads this
      ensures shown <==> searchResult.Some? && exists it :: it in searchResult.value && it.id !in reportedIds
    {
      if searchResult.Some? then
        RemainingCorrectFor(searchResult.value, reportedIds);
        Remaining(searchResult.value, ItemId, reportedIds) > 0
      else false
    }
  }

  lemma RemainingCorrectFor(items: seq<Item>, reported: seq<int>)
    ensures Remaining(items, ItemId, reported) > 0 <==> exists it :: it in items && it.id !in reported
  {
    ShownIffUnreported(items, ItemId, reported);
  }
}
