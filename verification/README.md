# DeepTracersV0 decision logic in Dafny

DeepTracersV0 is a deepfake-detection platform with several front ends:

- a Flask detection service (`Backend/DeepfakeBackend.py`);
- a predictions database API (`Backend/DatabaseBackend.py`);
- a Next.js web client with a search page and a dashboard;
- a React Native mobile client;
- a Streamlit detector page;
- a second Flask web application with accounts, demos and a blog;
- an Instagram-style sign-up prototype.

This project models what these programs decide, and proves properties of it.
The models, classifiers, HTTP, databases, files and the clock are inputs to
the model.

Modules, one per source file, plus a shared one:

- `Common` holds the shared definitions:
  - ASCII lower-casing and substring search;
  - `str.split` on one character;
  - the count-by-key tally, in first-seen order, that both the dashboard charts (object insertion order) and `find_mode` (`Counter` insertion order) use;
  - the stable descending sort by count.
- `Dashboard` models the web dashboard:
  - the merged log and the three filters;
  - the three chart distributions and the ranking;
  - paging;
  - the CSV and PDF row mapping;
  - the page's state and its handlers, as a class.
- `Triage` is the report ledger shared by the web and mobile search screens: visible rows, "Report All" and the results-card count.
- `WebSearch` models the web search page:
  - the response mapping;
  - the handlers, as a class;
  - the chat bot's keyword answers.
- `MobileSearch` models the mobile reverse-search screen, as a class, with its outcomes against the detection service.
- `DeepfakeBackend` models the detection service:
  - the image and audio thresholds;
  - `find_mode`;
  - the frame sampler, as a method with loops;
  - MFCC pad/truncate;
  - the reverse-search mapping;
  - the `/upload` dispatch and its effects.
- `PredictionsApi` models `get_predictions`, the row-to-record mapping, as a method.
- `MobileDashboard` models the mobile dashboard's case-sensitive table filter.
- `StreamlitDetector` models the Streamlit page:
  - extension dispatch;
  - the 0.8 threshold;
  - its own frame sampler;
  - what the page shows.
- `Routes` models the second web application's routes:
  - the `detect_deepfake` route;
  - the three demo predicates;
  - blog-post creation.
- `Accounts` models login, register and change-password over a user store class.
- `Signup` models the username-unique sign-up list kept in local storage.

Where code and documentation disagree, the model follows the code:

- The backend sampler returns one frame, not zero, when asked for zero frames and the first read succeeds.
- A video in which no face is found is answered with the "Deepfake detected, file not saved." message.
- The Streamlit page can never show its "No face detected" warning.

## Model

| member | source | states |
|---|---|---|
| Common.Lower | WebApplication/my-app/app/dashboard/page.tsx:74-82 | The lower-cased string has the same length, and each character is the ASCII lower case of the original character. |
| Common.Contains | WebApplication/my-app/components/page.tsx:114-118 | `includes` is true exactly when the needle occurs at some position. |
| Common.Split | StreamlitApplication/Detector.py:230-230 | `split('.')` gives one more piece than there are separators. |
| Common.SplitPieces | StreamlitApplication/Detector.py:230-230 | No piece of a split contains the separator. |
| Common.SplitJoin | WebApplication2.0/routes.py:142-142 | Joining the pieces with the separator gives back the string (the split is lossless). |
| Common.SplitLast | StreamlitApplication/Detector.py:230-230 | The last piece is the whole string when there is no separator; otherwise it is the text after the last separator. |
| Common.TallyKeys | WebApplication/my-app/app/dashboard/page.tsx:96-105 | The tally's keys are the distinct values in first-seen order. |
| Common.TallyDistinct | WebApplication/my-app/app/dashboard/page.tsx:96-105 | Tally keys are pairwise distinct, and a key appears exactly when the value occurs in the input. |
| Common.TallyCounts | WebApplication/my-app/app/dashboard/page.tsx:96-100 | Each bucket's count is the number of occurrences of its key. |
| Common.TallySum | WebApplication/my-app/app/dashboard/page.tsx:96-100 | The counts add up to the input's length. |
| Common.InsertRanked | WebApplication/my-app/app/dashboard/page.tsx:132-134 | One insertion step of the sort adds exactly the inserted bucket (multiset). |
| Common.RankByCountCorrect | WebApplication/my-app/app/dashboard/page.tsx:132-134 | The sort is a permutation, is non-increasing by count, and keeps the buckets of equal count in their input order (a stable sort). |
| Dashboard.MergedLog | WebApplication/my-app/app/dashboard/page.tsx:35-50 | A successful fetch gives the fetched records followed by the six seeds, with no de-duplication; a failed fetch leaves the log as it was. |
| Dashboard.Cutoff | WebApplication/my-app/app/dashboard/page.tsx:63-71 | "week" is now minus seven days; "month" and "year" are the calendar inputs; any other time frame leaves the cutoff at now. |
| Dashboard.ApplyFiltersIsSelect | WebApplication/my-app/app/dashboard/page.tsx:58-84 | The three chained filters select the same rows, in the same order, as one pass keeping the rows that pass all three tests. |
| Dashboard.SelectMembers | WebApplication/my-app/app/dashboard/page.tsx:72-82 | A record is in the filtered list iff it is in the log and all three hold: it is recent enough, the platform filter is empty or matches case-insensitively, and the media filter is empty or matches case-insensitively. |
| Dashboard.SelectConcat | WebApplication/my-app/app/dashboard/page.tsx:60-84 | Filtering distributes over concatenation, so the kept rows keep their log order. |
| Dashboard.SelectShorter | WebApplication/my-app/app/dashboard/page.tsx:72-82 | The filtered list is never longer than the log, and it is as long exactly when every record is kept. |
| Dashboard.ByPlatformConcat | WebApplication/my-app/app/dashboard/page.tsx:75-77 | The platform filter distributes over concatenation. |
| Dashboard.ByMediaFormatConcat | WebApplication/my-app/app/dashboard/page.tsx:80-82 | The media-type filter distributes over concatenation. |
| Dashboard.UnparsedNeverKept | WebApplication/my-app/app/dashboard/page.tsx:72-72 | A record whose date and time do not parse is never kept, because an invalid date compares false. |
| Dashboard.DistributionCorrect | WebApplication/my-app/app/dashboard/page.tsx:95-129 | Each chart has distinct keys in first-seen order, one bucket per distinct field value, each counting its value's occurrences; the counts add up to the filtered length; an empty list gives no buckets, and only an empty list does. |
| Dashboard.RankingCorrect | WebApplication/my-app/app/dashboard/page.tsx:131-134 | The ranking is a permutation of the platform buckets, is non-increasing by count, and keeps tied platforms in distribution order. |
| Dashboard.TotalPages | WebApplication/my-app/app/dashboard/page.tsx:92-92 | `ceil(n / 10)`: the pages hold all n rows, and the last page is not empty. |
| Dashboard.SliceIndex | WebApplication/my-app/app/dashboard/page.tsx:93-93 | A `slice` bound is clamped into `[0, n]`. |
| Dashboard.PageWindow | WebApplication/my-app/app/dashboard/page.tsx:92-93 | Page p shows exactly rows `(p-1)*10` up to `min(p*10, n)`; it shows at most 10 rows; it is non-empty iff p ≤ totalPages. |
| Dashboard.PagesUpToPrefix | WebApplication/my-app/app/dashboard/page.tsx:92-93 | Pages 1..k together are the first `min(10k, n)` rows, in order. |
| Dashboard.PagesCoverAll | WebApplication/my-app/app/dashboard/page.tsx:92-93 | Pages 1..totalPages together are the whole filtered list. |
| Dashboard.CsvRows | WebApplication/my-app/app/dashboard/page.tsx:136-144 | One CSV row per filtered record, in order. |
| Dashboard.ExportColumnsAgree | WebApplication/my-app/app/dashboard/page.tsx:137-169 | Every export row has six cells: date, time, platform, media_format, status and confidence (to five places), in that order. |
| Dashboard.PdfTableRows | WebApplication/my-app/app/dashboard/page.tsx:156-171 | The `forEach` that pushes PDF rows builds exactly the CSV rows. |
| Dashboard.HeadersNameColumns | WebApplication/my-app/app/dashboard/page.tsx:137-158 | The CSV and PDF headers name the six columns in the rows' order. |
| Dashboard.DownloadReport | WebApplication/my-app/app/dashboard/page.tsx:183-189 | "csv" and "pdf" export the filtered rows under their headers; any other format does nothing. |
| Dashboard.WithFilter | WebApplication/my-app/app/dashboard/page.tsx:192-198 | A filter change replaces only the named filter. |
| Dashboard.DashboardPage.constructor | WebApplication/my-app/app/dashboard/page.tsx:20-23 | The state starts empty, with filters ("week", "", "") and page 1. |
| Dashboard.DashboardPage.RunFilterEffect | WebApplication/my-app/app/dashboard/page.tsx:56-89 | The effect sets the filtered list to the selection and resets the page to 1; log and filters are unchanged. |
| Dashboard.DashboardPage.FetchData | WebApplication/my-app/app/dashboard/page.tsx:25-54 | On success, the log becomes the merged log and the filter effect runs on it; on failure, nothing changes. |
| Dashboard.DashboardPage.HandleFilterChange | WebApplication/my-app/app/dashboard/page.tsx:192-198 | Only the named filter changes, the rows are reselected, and the page returns to 1. |
| Dashboard.DashboardPage.HandleNextPage | WebApplication/my-app/app/dashboard/page.tsx:201-205 | The page advances only while it is below totalPages, and stays in `[1, max(totalPages, 1)]`. |
| Dashboard.DashboardPage.HandlePreviousPage | WebApplication/my-app/app/dashboard/page.tsx:207-211 | The page moves back only while it is above 1, and stays in range. |
| Dashboard.SeedsAllShown | WebApplication/my-app/app/dashboard/page.tsx:35-43 | With every seed inside the window and default filters, all six seeds are shown, in order. |
| Dashboard.SeedDistribution | WebApplication/my-app/app/dashboard/page.tsx:96-105 | The seeds' platform chart is X:2, Facebook:1, YouTube:3. |
| Dashboard.SeedRanking | WebApplication/my-app/app/dashboard/page.tsx:132-134 | The seeds' ranking is YouTube, X, Facebook. |
| Triage.Visible | WebApplication/my-app/components/page.tsx:250-250 | The visible rows are never more than the results. |
| Triage.IdsOf | WebApplication/my-app/components/page.tsx:98-98 | The id list has one id per row, in row order. |
| Triage.VisibleMembers | WebApplication/my-app/components/page.tsx:250-250 | A row is shown exactly when it is a result whose id was never reported. |
| Triage.VisibleConcat | WebApplication/my-app/components/page.tsx:250-250 | The filter distributes over concatenation, so it keeps the original order. |
| Triage.VisibleAppend | WebApplication/my-app/components/page.tsx:91-99 | Reporting a then b hides what hiding a, then hiding b, hides. |
| Triage.VisibleOwnIds | WebApplication/my-app/components/page.tsx:96-101 | Once every row's own id is reported, no row is shown. |
| Triage.AllHidden | WebApplication/my-app/components/page.tsx:250-250 | When every row's id is reported, nothing is shown. |
| Triage.NoneHidden | WebApplication/my-app/components/page.tsx:250-250 | When no row's id is reported, every row is shown, in order. |
| Triage.VisiblePartition | WebApplication/my-app/components/page.tsx:250-250 | The visible rows plus the rows with a reported id make up all the results. |
| Triage.CountReportedIsOverlap | WebApplication/my-app/components/page.tsx:250-250 | With distinct ids, the rows with a reported id number as many as the result ids that were reported; hence visible + reported ∩ ids = results. |
| Triage.ReportIsIdempotentOnView | WebApplication/my-app/components/page.tsx:91-94 | Reporting an id again, or an id no shown row has, leaves the view unchanged while the list still grows by one. |
| Triage.ReportAllCorrect | WebApplication/my-app/components/page.tsx:96-101 | "Report All" announces one id per shown row and then no row is shown; an immediate second "Report All" appends nothing and announces 0. |
| Triage.BannerAgreesIff | WebApplication/my-app/components/page.tsx:226-231 | The as-written count `results - reportedIds` equals the number of shown rows iff the reported list is exactly as long as the number of rows with a reported id. |
| Triage.Remaining | WebApplication/my-app/components/page.tsx:226-231 | The corrected count never exceeds the number of results. |
| Triage.RemainingCorrect | WebApplication/my-app/components/page.tsx:226-231 | With distinct ids, the corrected count is the results minus those reported, and it is positive iff some result is unreported. |
| Triage.ShownIffUnreported | WebApplication/my-app/components/page.tsx:250-250 | Some row is shown iff some result's id was never reported. |
| WebSearch.RowsFrom | WebApplication/my-app/components/page.tsx:52-60 | At most the first five hits become rows, numbered from 1, with platform←title, url←site, and the image URL read from the given key. |
| WebSearch.RowIds | WebApplication/my-app/components/page.tsx:55-56 | Row ids are distinct and are exactly 1..k. |
| WebSearch.Settle | WebApplication/my-app/components/page.tsx:39-88 | Rows and a verdict are shown iff the status is 200 and the body is JSON with reverse-search results; the rows are the first five hits with the image URL read from the given key (the page passes "image", as written at :59); the verdict is exactly `prediction === 'fake'`; any other response leaves the page as it was. |
| WebSearch.UrlOnlySearchShowsNothing | WebApplication/my-app/components/page.tsx:33-49 | A URL without an image reaches the service with no file, gets an error body and changes nothing. |
| WebSearch.ImageSearchRows | WebApplication/my-app/components/page.tsx:49-63 | Against the service, for any image-URL key: an image with a face changes nothing iff it is "real" and the search raised; otherwise it is shown with its verdict (fake iff score ≥ 0.5), and only a "real" image brings rows, the first five search results in order with title, site and the value under the key. |
| WebSearch.ImageSearchShown | WebApplication/my-app/components/page.tsx:49-63 | Corrected mapping (key "img"): an image with a face changes nothing iff it is "real" and the search raised; otherwise it is shown with its verdict (fake iff score ≥ 0.5), and only a "real" image brings rows, the first five search results in order with title, site and image URL. |
| WebSearch.ImageUrlAlwaysMissing | WebApplication/my-app/components/page.tsx:59-59 | As written, no row made from service hits gets an image URL, because the page reads "image" while the service writes "img"; the corrected key recovers every image URL. |
| WebSearch.PageShowsNoImageUrl | WebApplication/my-app/components/page.tsx:49-63 | The page as written, against the service: a "real" image's rows carry the results' titles and sites in order, and no image URL. |
| WebSearch.BannerHidesUnreportedRows | WebApplication/my-app/components/page.tsx:226-231 | As written, after an earlier search's reports, the filter keeps two unreported rows, yet the card, and the table inside it, is hidden and would announce 0. |
| WebSearch.BotAnswerKeywords | WebApplication/my-app/components/page.tsx:112-120 | Each answer is given exactly when its keyword is in the lower-cased question and no earlier keyword is; the fallback is given when none occurs. |
| WebSearch.BotAnswerIgnoresCase | WebApplication/my-app/components/page.tsx:106-120 | Questions that differ only in ASCII case get the same answer, and are blank together. |
| WebSearch.SearchPage.constructor | WebApplication/my-app/components/page.tsx:16-29 | The page starts with no results, no reports, no verdict and an empty chat. |
| WebSearch.SearchPage.HandleSubmit | WebApplication/my-app/components/page.tsx:31-89 | With no input and no image nothing changes. Otherwise rows (image URLs read from "image", as written), verdict and toast follow the response, a failure leaves them, loading is always cleared, and the reports are never reset. |
| WebSearch.SearchPage.HandleReport | WebApplication/my-app/components/page.tsx:91-94 | The id is appended without a membership check. |
| WebSearch.SearchPage.HandleReportAll | WebApplication/my-app/components/page.tsx:96-102 | Exactly the unreported ids of the results are appended and their number announced; afterwards no row is shown; nothing happens before a first result. |
| WebSearch.SearchPage.HandleChatSubmit | WebApplication/my-app/components/page.tsx:104-128 | A blank question is ignored; otherwise the question and the keyword answer are appended and the input is cleared. |
| WebSearch.SearchPage.Card | WebApplication/my-app/components/page.tsx:226-231 | Corrected card: shown exactly while the filter keeps a row, announcing the number of rows it keeps. |
| MobileSearch.RandomId | MobileApplication/src/screens/ReverseSearch.js:68-68 | `Math.floor(Math.random() * 10000)` lies in [0, 9999] and is the floor of the scaled draw. |
| MobileSearch.SettleOutcomes | MobileApplication/src/screens/ReverseSearch.js:37-76 | Loading is cleared iff an image was picked and the service answered 2xx JSON that is not a 200 error body; one new item, with id in [0, 9999] and result = prediction, appears iff the reply is a 200 body without a truthy error. |
| MobileSearch.ImageRoundTrip | MobileApplication/src/screens/ReverseSearch.js:41-69 | Against the service, an analysed photo becomes one item labelled as the service labels it; a failing analysis, or a failing search after a "real" label, raises its message as an alert, except that an empty message slips through as an unlabelled item. |
| MobileSearch.OneReportHidesLaterResults | MobileApplication/src/screens/ReverseSearch.js:154-164 | As written, once any result was reported, the filter keeps a new single result, yet the card `length > reportedIds.length`, and the list inside it, is hidden. |
| MobileSearch.RemainingCorrectFor | MobileApplication/src/screens/ReverseSearch.js:154-164 | The corrected count is positive iff some result is unreported. |
| MobileSearch.ReverseSearchScreen.constructor | MobileApplication/src/screens/ReverseSearch.js:21-25 | The screen starts with no result, an empty input, no reports and no image. |
| MobileSearch.ReverseSearchScreen.HandleChoosePhoto | MobileApplication/src/screens/ReverseSearch.js:27-35 | A picked photo fills the input with its path and becomes the image; a cancelled pick changes nothing. |
| MobileSearch.ReverseSearchScreen.HandleSubmit | MobileApplication/src/screens/ReverseSearch.js:37-76 | An empty input does nothing. Otherwise an error body alerts and leaves loading on, a success replaces the results with one item, and the reports are kept. |
| MobileSearch.ReverseSearchScreen.HandleReport | MobileApplication/src/screens/ReverseSearch.js:78-84 | The id is appended, even if already reported. |
| MobileSearch.ReverseSearchScreen.HandleReportAll | MobileApplication/src/screens/ReverseSearch.js:86-97 | Only the unreported ids are appended and their number announced; afterwards the filter keeps nothing. |
| MobileSearch.ReverseSearchScreen.Card | MobileApplication/src/screens/ReverseSearch.js:154-164 | Corrected card: shown iff some result's id is unreported. |
| DeepfakeBackend.Pred | Backend/DeepfakeBackend.py:106-117 | No face gives ("no_face_detected", 0); otherwise the label is "real" iff score < 0.5, else "fake", with the score as the confidence. |
| DeepfakeBackend.PredictFake | Backend/DeepfakeBackend.py:132-134 | The audio label is "fake" iff score > 0.5, with the score as the confidence. |
| DeepfakeBackend.LabelsMonotone | Backend/DeepfakeBackend.py:106-134 | Raising a score never turns "fake" into "real", for either medium. |
| DeepfakeBackend.ThresholdDrift | Backend/DeepfakeBackend.py:116-133 | Image and audio labels disagree exactly at a score of 0.5. |
| DeepfakeBackend.FindModeCorrect | Backend/DeepfakeBackend.py:151-154 | On a non-empty list, the mode is an element occurring at least as often as any other, and the first-seen one among ties. |
| DeepfakeBackend.FindModeUnanimous | Backend/DeepfakeBackend.py:151-154 | A list of one repeated label has that label as its mode. |
| DeepfakeBackend.WindowStart | Backend/DeepfakeBackend.py:87-89 | The start is 0 when need > length; otherwise 0 ≤ start ≤ length − need. |
| DeepfakeBackend.WindowStartReachable | Backend/DeepfakeBackend.py:89-89 | Every admissible start can be drawn. |
| DeepfakeBackend.Sampled | Backend/DeepfakeBackend.py:92-104 | The sample has n frames, except one frame for n = 0 when the first read succeeds. |
| DeepfakeBackend.FramesFromVideoFile | Backend/DeepfakeBackend.py:83-104 | The nested read loops return exactly the specified sample: the first read, then the last of every `step` reads, with a blank frame for a failed read. |
| DeepfakeBackend.SampledSpacing | Backend/DeepfakeBackend.py:96-101 | In a long enough decodable video, sample j is frame start + j·step. |
| DeepfakeBackend.FitRow | Backend/DeepfakeBackend.py:124-127 | A row becomes exactly w wide, zero-padded when narrower and cut otherwise. |
| DeepfakeBackend.FitMfcc | Backend/DeepfakeBackend.py:122-127 | Every row of the matrix is fitted to 500 columns. |
| DeepfakeBackend.FitMfccCorrect | Backend/DeepfakeBackend.py:122-127 | The result is rectangular and 500 wide; leading coefficients are kept and the rest are zero; fitting is idempotent and leaves a 500-wide matrix alone. |
| DeepfakeBackend.HitJsonRoundTrip | Backend/DeepfakeBackend.py:160-164 | Each hit has exactly the keys title, site and img, and decodes back to its search item. |
| DeepfakeBackend.ReverseImageSearch | Backend/DeepfakeBackend.py:156-165 | The loop emits one hit per search result, in order. |
| DeepfakeBackend.Labels | Backend/DeepfakeBackend.py:299-308 | One label per frame, "error" for a frame whose prediction raised. |
| DeepfakeBackend.ChosenField | Backend/DeepfakeBackend.py:210-339 | The branch is the first present field among image, audio and video; none is chosen only when all three are absent. |
| DeepfakeBackend.UploadDispatch | Backend/DeepfakeBackend.py:206-339 | No field gives "No valid file provided"; an empty filename gives "No selected file"; otherwise the chosen field's branch runs. |
| DeepfakeBackend.UploadEffects | Backend/DeepfakeBackend.py:219-328 | A prediction reply always comes with its database row, which matches the reply; an error reply leaves a row only for a "real" image (the row is saved before the search). Reverse-search hits come only with a "real" image. Audio and video are kept iff "real"; images whenever a prediction is sent; nothing is kept without one. |
| DeepfakeBackend.ErrorReplyWithRow | Backend/DeepfakeBackend.py:219-242 | An error reply comes with a saved row exactly when an image with a face labelled "real" was uploaded and the search engine raised; the reply then carries the search's message, the row is ("real", confidence, "image") and the image is not kept. |
| DeepfakeBackend.RealImageHits | Backend/DeepfakeBackend.py:224-226 | A "real" image whose search returns results brings back one hit per result, in order. |
| DeepfakeBackend.NoFaceVideoReportsDeepfake | Backend/DeepfakeBackend.py:296-328 | A video with no face in any frame is labelled "no_face_detected" with confidence 0, yet answered with the "Deepfake detected" message and not kept. |
| PredictionsApi.RecordFollowsSchema | Backend/DatabaseBackend.py:22-30 | A record has exactly the seven column names as keys, column i holds row[i], and reading the record back gives the row. |
| PredictionsApi.ColumnsDistinct | Backend/DeepfakeBackend.py:53-61 | The table's column names are pairwise distinct. |
| PredictionsApi.GetPredictions | Backend/DatabaseBackend.py:18-31 | One record per row, in row order; an empty table gives an empty list. |
| MobileDashboard.FilterRowsCorrect | MobileApplication/src/screens/Dashboard.js:103-107 | A row is kept iff it passes the exact, case-sensitive predicate, and the result is an order-preserving subsequence. |
| MobileDashboard.AllKeepsEverything | MobileApplication/src/screens/Dashboard.js:103-107 | With both filters "all", every row is kept. |
| MobileDashboard.FilterExamples | MobileApplication/src/screens/Dashboard.js:34-107 | The defaults show all five cases; "video" matches nothing while "Video" gives cases 1 and 4; "Instagram" gives cases 2 and 5. |
| MobileDashboard.SetControl | MobileApplication/src/screens/Dashboard.js:90-108 | Setting one control changes only that control and recomputes the table. |
| MobileDashboard.TableDependsOnlyOnFilters | MobileApplication/src/screens/Dashboard.js:101-135 | The table is always the one the current platform and media type select from the constant list; changing the time range never changes it. |
| MobileDashboard.InitialScreenConsistent | MobileApplication/src/screens/Dashboard.js:90-99 | The initial table is what the initial filters select. |
| StreamlitDetector.ExtensionCorrect | StreamlitApplication/Detector.py:230-230 | The extension contains no '.'. It is the whole lower-cased name when there is no '.', else the lower-cased text after the last '.'. |
| StreamlitDetector.ExtensionAfterLastDot | StreamlitApplication/Detector.py:230-230 | The extension of `pre.ext` is `ext` lower-cased, whatever `pre` holds. |
| StreamlitDetector.BranchOf | StreamlitApplication/Detector.py:236-270 | jpg/jpeg/png take the image branch, mp4/avi/mov the video branch, and any other extension neither. |
| StreamlitDetector.BranchExamples | StreamlitApplication/Detector.py:230-270 | "clip.MP4" takes the video branch; "photo.jpg.exe" takes none. |
| StreamlitDetector.PredictRule | StreamlitApplication/Detector.py:48-87 | The label is "real" iff no face or score < 0.8; the confidences add up to 1; the label is never "No face detected". |
| StreamlitDetector.ThresholdsDisagree | StreamlitApplication/Detector.py:78-78 | The page and the detection service label differently exactly for no face, or for scores in [0.5, 0.8). |
| StreamlitDetector.WindowStart | StreamlitApplication/Detector.py:33-34 | The start is 0 unless need < length, in which case 0 ≤ start ≤ length − need. |
| StreamlitDetector.WindowStartsAgree | StreamlitApplication/Detector.py:33-34 | The page and the service choose the same start despite their different guards. |
| StreamlitDetector.Sampled | StreamlitApplication/Detector.py:37-46 | The sampler returns n frames, or raises exactly when n > 0 and either step = 0 or the first frame's read fails. |
| StreamlitDetector.FramesFromVideoFile | StreamlitApplication/Detector.py:29-46 | The nested read loops return exactly the specified sample, with a blank frame for a failed read after the first. |
| StreamlitDetector.RenderCorrect | StreamlitApplication/Detector.py:225-300 | The no-face warning never shows. Grad-CAM and the PDF button come exactly with a "fake" verdict. An unknown extension shows nothing, and a video crashes iff its 15th read fails. |
| Routes.DetectSourceRule | WebApplication2.0/routes.py:105-118 | There is no source iff neither url nor file is truthy; a file wins over the url; an empty filename falls back to the url. |
| Routes.UploadsFolder.DetectDeepfakeRoute | WebApplication2.0/routes.py:103-120 | Without input the route replies 400 "No URL or file provided"; otherwise it replies with the detection of the source, and a saved upload is removed again. |
| Routes.DemoKycRule | WebApplication2.0/routes.py:126-131 | Verified iff len(name) > 3 and len(id_number) > 5; it raises iff name is missing, or name is long enough and id_number is missing. |
| Routes.DemoMediaVerificationRule | WebApplication2.0/routes.py:133-137 | Authentic iff len(url) > 10 and the url contains '.'; it raises iff the url is missing. |
| Routes.ThreatLevelRule | WebApplication2.0/routes.py:139-143 | "High" iff the address has exactly three dots, and then it is four fields joined by '.'. |
| Routes.FourFieldsAreHigh | WebApplication2.0/routes.py:142-142 | Four dot-free fields joined by '.' rate "High". |
| Routes.NewPost | WebApplication2.0/routes.py:162-169 | A post is made iff title and content are both present and non-empty, and it holds them and the author. |
| Routes.Blog.CreateBlogPost | WebApplication2.0/routes.py:158-176 | A missing or empty title or content adds nothing and flashes the error; otherwise exactly the new post is appended. |
| Accounts.FindByEmail | WebApplication2.0/auth.py:15-15 | The lookup returns the first user with that e-mail, and returns none iff no user has it. |
| Accounts.FindByEmailUnique | WebApplication2.0/auth.py:15-17 | With unique e-mails, the lookup finds the user holding the e-mail. |
| Accounts.RegisterKeepsEmailsUnique | WebApplication2.0/auth.py:35-44 | Appending a user whose e-mail is not yet used keeps e-mails unique. |
| Accounts.AccountStore.Login | WebApplication2.0/auth.py:8-26 | An unknown e-mail or a wrong password changes nothing; otherwise the user is logged in, remembered iff the field is truthy, and the last login is set to now. |
| Accounts.AccountStore.Register | WebApplication2.0/auth.py:28-50 | A used e-mail changes nothing. Otherwise exactly one user is appended, with the given username, e-mail and password and no last login, and logged in. E-mails stay unique; usernames are not checked. |
| Accounts.AccountStore.ChangePassword | WebApplication2.0/auth.py:59-77 | A wrong current password is rejected first, whatever the new values; then a mismatch is rejected; only then is the password replaced. |
| Signup.AfterSignup | InstagramPrototype/src/_auth/forms/SignupForm.jsx:33-45 | The list grows by at most one and keeps its prefix; it stays unchanged iff the username is taken; usernames stay distinct. |
| Signup.DuplicateEmailAccepted | InstagramPrototype/src/_auth/forms/SignupForm.jsx:36-36 | A fresh username with an e-mail already used is appended, leaving two users with one e-mail. |
| Signup.SignupForm.OnSubmit | InstagramPrototype/src/_auth/forms/SignupForm.jsx:31-48 | A missing list counts as empty; a taken username stores nothing and alerts; otherwise the old list followed by the new values is stored. |

## Left out

- Machine learning (MTCNN, InceptionResnetV1, Grad-CAM, librosa, Keras) is not modelled: each model is an input, a score or "no face" or an exception.
- HTTP, CORS, SQLite, SQLAlchemy, `localStorage`, file saves and metadata JSON are not modelled. `hash_file` and `save_media_and_metadata` are reduced to whether the media is kept.
- DeepfakeBackend.UploadEffects: a failure of `save_media_and_metadata` or of the metadata write is not modelled. Such a failure comes after `save_to_db`, so it too would leave a row behind an error reply, for audio and video as well as images; the model's error-with-row case is only the search failure.
- Clocks and randomness are parameters: `now`, the month and year cutoffs, the draw for a random id, and the window start pick.
- `new Date` parsing is the parameter `parse`. JavaScript calendar overflow and daylight-saving shifts are not modelled (a week is 7 × 86 400 000 ms).
- Dashboard.ExportColumnsAgree: confidence is a `Fixed5` cell standing for `toFixed(5)`. Number formatting, Papa.unparse quoting and jsPDF layout are library behaviour.
- Dashboard.DownloadReport: the CSV of an empty filtered list is modelled as the header line alone; `Papa.unparse([])` yields an empty text with no header.
- Common.TallyKeys: first-seen key order matches `Object.keys` only for keys that are not integer-like, which JavaScript lists first in ascending order, and the tally ignores keys such as "constructor" that `acc[k] || 0` would read from the object's prototype. The platforms and labels the system produces are never such keys (the service always saves the platform "instagram").
- DeepfakeBackend.UploadEffects: the saved row keeps the confidence unrounded, not `round(confidence, 2)`. The video confidence is an exact average of reals.
- The backend's video branch takes the per-frame results as input. `save_images`, with its three separate sampler calls, and the plotting are not modelled.
- The mobile dashboard's random chart rescaling is not modelled. Its missing `useState`/`useEffect` import is ignored, as the filter is modelled as written.
- React scheduling, toast and alert wording, the chat's 500 ms delay, navigation and flash redirect targets are reduced to tags.
- `secure_filename` is a parameter of the detect route, and `detect_deepfake` is a function parameter.
- `models.py` is not part of this model:
  - `update_last_login` is taken to set the last login to now;
  - password hashing is an injective `Digest`, and salting is ignored;
  - `filter_by(...).first()` is taken as the first match in insertion order.
- Accounts.AccountStore.Login: the form fields are taken to be present strings. A missing e-mail or password field is not modelled.
- `logout` and the other routes of the second web application (profile, blog listing and search, `ai_api.py`) are outside the modelled core.
- Signup.SignupForm.OnSubmit: `JSON.parse` of a corrupt stored value, which would throw, is not modelled.
- StreamlitDetector.Extension: lower-casing is ASCII only, where Python's `str.lower()` folds all of Unicode. The six extensions dispatched on are ASCII, so only which non-ASCII names fall through to no branch is affected.
- The Streamlit PDF report, the `st.button` click and image resizing are not modelled. The video branch is modelled as sampling one frame with step 15.
- Exceptions are modelled as outcomes (`Stuck`, `Crashed`, `None`), not as control flow.

## Findings

| source | as written | input that shows it | evidently intended | confidence | as-written member | corrected member |
|---|---|---|---|---|---|---|
| WebApplication/my-app/components/page.tsx:226-231 | The card shows while `searchResult.length > reportedIds.length` and announces `searchResult.length - reportedIds.length`, but `reportedIds` keeps earlier searches' ids (never reset, :62) and duplicates (:92). | A search gives rows 1–5; rows 3, 4 and 5 are reported; a new search gives rows 1–3. Rows 1 and 2 are unreported, yet the card, with the table inside it, is hidden and would announce 0. | The card shows while an unreported row remains, and counts the unreported rows. | not executed | WebSearch.BannerHidesUnreportedRows | WebSearch.SearchPage.Card |
| MobileApplication/src/screens/ReverseSearch.js:154-164 | The card shows while `searchResult.length > reportedIds.length`, and every search yields one result while reports are never reset. | One result is reported; any later search result is unreported, yet the card, with the list inside it, stays hidden. | The card shows while some result is unreported. | not executed | MobileSearch.OneReportHidesLaterResults | MobileSearch.ReverseSearchScreen.Card |
| WebApplication/my-app/components/page.tsx:59-59 | The row's image URL is read from `result.image`, while the service writes the key `img` (Backend/DeepfakeBackend.py:163). The page class keeps the key as written. | Any hit `{title, site, img}` gives a row whose image URL is undefined. | Read `result.img`. | not executed | WebSearch.ImageUrlAlwaysMissing | WebSearch.ImageSearchShown |
