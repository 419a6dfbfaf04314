# HR portal core in Dafny

A model of the core of a small React HR portal. In it, employees file leave
requests, managers approve them with a drawn signature, and the HR office
exports each request into a spreadsheet form. The model covers these parts:

- **Roles and routing** (`roles.dfy`, `guards.dfy`, `login.dfy`):
  - the tabs each role sees and the page a user lands on;
  - the protected route table and the two route guards;
  - the login form's validation and its handling of the server's reply.
- **Shared helpers** (`hr_shared.dfy`, `text.dfy`):
  - the Korean status labels and the three date formatters of the form;
  - the data-URL decoder;
  - the JavaScript string operations these rely on (`split`, `trim`,
    `toLowerCase`, `includes`, `startsWith`, `String(n)`, `padStart`,
    truthiness).
- **Signatures** (`ink_scan.dfy`, `trim_canvas.dfy`, `signature_trim.dfy`,
  `signature_pad.dfy`):
  - the ink bounding-box scan over RGBA pixel data;
  - the padding, cropping and scaling geometry of the pad's own trimmer and
    of `exportTightSignatureDataURL`;
  - the signature pad as a canvas buffer updated by pointer events.
- **Approval** (`approval.dfy`): the manager's approve-with-signature dialog,
  in both of its variants.
- **Lists** (`leave_filters.dfy`):
  - the HR page's department, status and query filter;
  - the manager page's status filter and its newest-first sort.
- **Spreadsheet export** (`workbook.dfy`, `leave_export.dfy`):
  - the workbook operations the export uses;
  - `makeExcelForRowFromTemplate`: the template or the fallback sheet, the
    twelve form cells, and the signature images with their anchors.
- **Employee leave page** (`employee_leave.dfy`):
  - `todayStr`;
  - the form's validation messages in order;
  - the posted payload, the reset after a save, and the reload of the list.

Several functions exist twice in the repository: once in
`components/hr/Shared.tsx` and the `pages/` files, and again in the
consolidated `ManagerAndHrPages.tsx`. Where the two copies behave the same,
one Dafny member models both, and the table cites both. They differ in
three places:

- The check of the signature before an approval is sent. The pages copy
  only asks for a non-empty value. The consolidated copy also requires a
  PNG or JPEG data URL. `HrShared.Variant` selects between them.
- How the export reports its outcome. The consolidated button goes through
  `handleMakeFile` (ManagerAndHrPages.tsx:814-822, 1009), which shows a
  success or failure alert, and a failed signature insertion writes one
  console warning (`LeaveExport.Warnings`, which `HrShared.Variant` also
  selects). The pages button calls the export directly
  (pages/HRAdminPage.tsx:251): it shows no alert, and it drops a failed
  signature insertion silently (`catch {}`, pages/HRAdminPage.tsx:148).
  `LeaveExport.MakeFileAlert` and `LeaveExport.ExportAlert` therefore
  describe the consolidated copy only. In both copies, a failed insertion
  still saves the file.
- Which approval reply counts as a refusal. See `Approval.ApproveReply`
  under "## Left out".

State that the source changes step by step is modelled as a class:

- the signature pad's canvas is an `array<int>`;
- the approval dialog, the login form, the leave page and the workbook are
  classes whose fields their methods update.

Each of these methods is specified by a pure function of its inputs and of
the old state. The properties are proved as lemmas about those functions.
The pixel scans are methods with loops over the `ImageData` array. They are
proved equal to a recursive specification (`InkScan.Scan`), and the lemmas
about the box are stated on that specification.

Browser and network effects are parameters of the model:

- the server's replies (`LoginReply`, `ApproveReply`, `SaveReply`,
  `LoadReply`, the template fetch as a `Result`);
- `atob`, as a function returning a `Result`;
- the clock, as the year, month index and day that `todayStr` reads;
- the device pixel ratio, as a fraction;
- the pixels a pointer stroke covers, as a set of pixel indices.

## Model

| member | source | states |
|---|---|---|
| HrShared.StatusKoInjective | components/hr/Shared.tsx:46-51 | the four Korean status labels are pairwise distinct, so a label identifies its status (same table at ManagerAndHrPages.tsx:54-59) |
| HrShared.FmtReqDateOf | components/hr/Shared.tsx:81-85 | for any "y-m-d" whose parts contain no dash, `fmtReqDate` gives y년, m월, d일 separated by ten spaces (same code at ManagerAndHrPages.tsx:90-95) |
| HrShared.FmtReqDateMissingParts | components/hr/Shared.tsx:82-84 | a date without dashes prints "undefined" for the missing month and day, as the template literal does |
| HrShared.FmtStartEndOf | components/hr/Shared.tsx:86-95 | the exact layout `fmtStart` and `fmtEnd` give for any "y-m-d" (same code at ManagerAndHrPages.tsx:97-116) |
| HrShared.FmtStartEndDiffer | components/hr/Shared.tsx:86-95 | for every input, start and end text have the same length and agree except for the final 부터 / 까지 |
| HrShared.PayloadOf | components/hr/Shared.tsx:72-74 | a PNG or JPEG data URL passes the prefix test, and its payload is the text after the prefix |
| HrShared.CharCodes | components/hr/Shared.tsx:76-77 | one byte per character of the decoded text, each the character code stored into a `Uint8Array` (modulo 256) |
| HrShared.ImageBytes | components/hr/Shared.tsx:71-79 | fails with "Invalid image data URL" unless the prefix matches; succeeds exactly when the prefix matches and `atob` succeeds; every byte is below 256 |
| HrShared.DataUrlToUint8 | components/hr/Shared.tsx:71-79 | the loop fills a fresh array whose contents are exactly `ImageBytes`, and fails exactly when it does (same code at ManagerAndHrPages.tsx:71-79) |
| HrShared.ImageBytesOf | components/hr/Shared.tsx:71-78 | for a well-formed data URL, the bytes are the character codes of `atob` of the payload |
| Text.Split | components/hr/Shared.tsx:82 | `split` gives at least one part and no part contains the separator |
| Text.SplitThree | components/hr/Shared.tsx:82 | "a-b-c" with dash-free parts splits into exactly [a, b, c] |
| Text.TrimStartSpec | pages/HRAdminPage.tsx:84 | the result is a suffix of the input, does not start with white space, and only white space was removed |
| Text.TrimEndSpec | pages/HRAdminPage.tsx:84 | the result is a prefix of the input, does not end with white space, and only white space was removed |
| Text.TrimEmptyIff | pages/HRAdminPage.tsx:84 | a string trims to "" exactly when all its characters are white space |
| Text.ToLower | pages/HRAdminPage.tsx:85-87 | same length, each character lower-cased |
| Text.IncludesIff | pages/HRAdminPage.tsx:87 | `includes` holds exactly when the key occurs at some position |
| Text.NatToString | pages/EmployeeLeavePage.tsx:23-25 | `String(n)` is a non-empty string of digits with no leading zero |
| Text.NatToStringValue | pages/EmployeeLeavePage.tsx:23-25 | reading the digits back gives n |
| Text.PadStart2 | pages/EmployeeLeavePage.tsx:24-25 | `padStart(2, "0")` keeps the input as a suffix and fills with zeros up to length 2 |
| InkScan.PixelIndexInBounds | signatureTrim.ts:24-27 | the alpha offset of every pixel of a w×h image lies inside its RGBA data |
| InkScan.ScanCovers | signatureTrim.ts:23-39 | every ink pixel visited so far lies inside the box the scan has built |
| InkScan.ScanShape | signatureTrim.ts:23-39 | the box is either the initial sentinel or lies within the image |
| InkScan.ScanReached | signatureTrim.ts:23-39 | each of the four box edges is attained by an ink pixel visited so far |
| InkScan.FullScan | signatureTrim.ts:23-42 | after the whole image: no ink exactly when maxX < 0, exactly when maxY < 0; with ink, the box is the tightest box around all ink pixels |
| InkScan.FindInkBox | signatureTrim.ts:23-39 | the row-by-row pixel loop over the array computes exactly the recursive scan (also components/hr/Shared.tsx:259-263 and ManagerAndHrPages.tsx:308-319) |
| InkScan.RoundDivNearest | components/hr/Shared.tsx:265 | `Math.round(p / q)` is the integer nearest p / q, with halves rounding up |
| InkScan.RoundDivExact | components/hr/Shared.tsx:272 | rounding an exact quotient gives that quotient |
| InkScan.PadBoxInside | signatureTrim.ts:45-48 | padding and clamping keep the box inside the image, contain the ink box, and give a width and height between 1 and the image's |
| InkScan.PadBoxMonotone | signatureTrim.ts:45-48 | more padding gives a box containing the one from less padding |
| InkScan.PadBoxZero | signatureTrim.ts:45-48 | zero padding leaves the ink box unchanged |
| InkScan.CropOf | signatureTrim.ts:45-57 | the crop lies inside the image and contains the ink; its sizes are the box's; without a target height the output keeps the crop's size, with one the output height is `max(1, target)` |
| InkScan.CropAspect | components/hr/Shared.tsx:272 | with a target height, the output width is the rounded width × target / height (or the floor value 1) |
| InkScan.CropMonotone | signatureTrim.ts:45-51 | a crop made with more padding contains the one made with less |
| TrimCanvas.PadFor | components/hr/Shared.tsx:265 | PAD is 3% of the smaller side, rounded to the nearest integer (same at ManagerAndHrPages.tsx:325) |
| TrimCanvas.TrimSignatureCanvas | components/hr/Shared.tsx:248-277 | fails with `IndexSizeError` exactly when the canvas has width or height 0. Otherwise it returns nothing exactly when no pixel is ink, ink meaning alpha not 0 and some colour channel below 245; else the crop contains the tight ink box, lies inside the canvas, is max(1, target) high and has a white background (same at ManagerAndHrPages.tsx:286-359) |
| TrimCanvas.TrimKeepsInk | components/hr/Shared.tsx:254-268 | every ink pixel lies inside the trimmed crop |
| TrimCanvas.TrimHeightAndAspect | components/hr/Shared.tsx:268-272 | with ink and a positive target, the output height is the target and the width keeps the aspect ratio up to rounding |
| TrimCanvas.WhiteHasNoInk | components/hr/Shared.tsx:254-258 | a canvas where every colour channel is at least 245 has no ink |
| SignatureTrim.Effective | signatureTrim.ts:15 | each missing option takes its default (threshold 252, padding 6, target height 64, background "#fff"), each given one is kept |
| SignatureTrim.ScaleTarget | signatureTrim.ts:55-57 | the output is scaled exactly when the target height is not 0 |
| SignatureTrim.Fill | signatureTrim.ts:60-66 | the canvas is filled exactly when the background is a non-empty string, and with that colour |
| SignatureTrim.ExportTightSignature | signatureTrim.ts:2-76 | fails with `IndexSizeError` exactly when the canvas has width or height 0; otherwise returns nothing exactly when no pixel has alpha at least 5 and a mean of r, g and b at most the threshold, and else the crop contains the tight ink box and lies inside the image |
| SignatureTrim.ExportSize | signatureTrim.ts:50-57 | with target height 0 the output keeps the crop's size; otherwise its height is `max(1, target)`, which is 1 for a negative target, and its width is 1 or keeps the aspect ratio up to rounding |
| SignatureTrim.ExportKeepsInk | signatureTrim.ts:23-48 | every ink pixel lies inside the crop, and with zero padding the crop is the tight ink box |
| SignatureTrim.ExportPaddingMonotone | signatureTrim.ts:45-48 | more padding gives a crop that contains the one from less padding |
| SignatureTrim.TransparentHasNoInk | signatureTrim.ts:29 | an image whose alpha is below 5 everywhere has no ink, whatever the threshold |
| SignaturePad.DevicePixels | components/hr/Shared.tsx:177-179 | the canvas size is the CSS size times the device pixel ratio, rounded down; a missing ratio counts as 1 |
| SignaturePad.White | components/hr/Shared.tsx:187-188 | the filled canvas is 255 in every channel |
| SignaturePad.PaintedIsInk | components/hr/Shared.tsx:186 | a pixel a stroke covered (painted with #111827) counts as ink for both trimmers |
| SignaturePad.Pad.constructor | components/hr/Shared.tsx:173-189 | the canvas has the device size and is white, the scale is the device pixel ratio (1 when it is missing), and nothing is drawn or emitted yet |
| SignaturePad.Pad.PointerDown | components/hr/Shared.tsx:196-203 | drawing starts and the pad stays valid; canvas and emitted values are unchanged (also ManagerAndHrPages.tsx:227-234) |
| SignaturePad.Pad.PointerMove | components/hr/Shared.tsx:205-211 | while drawing, the covered pixels are painted; otherwise the canvas is unchanged (also ManagerAndHrPages.tsx:236-242) |
| SignaturePad.Pad.PointerUp | components/hr/Shared.tsx:213-220 | ends drawing. When drawing was on, it emits the trim of the current canvas, or throws `IndexSizeError` (and emits nothing) on a canvas without pixels (also ManagerAndHrPages.tsx:244-252) |
| SignaturePad.Pad.Clear | components/hr/Shared.tsx:222-228 | under the scale set at mount (line 182), the device pixels of the top-left (width·ratio) by (height·ratio) rectangle turn white, the rest keep their bytes, and `null` is emitted (also ManagerAndHrPages.tsx:211,254-262) |
| SignaturePad.WhiteTrimsToNone | components/hr/Shared.tsx:187-188 | an all-white canvas, as on a fresh pad, trims to nothing |
| SignaturePad.FillCoversAll | components/hr/Shared.tsx:226 | a fill rectangle at least as large as the canvas whitens every byte |
| SignaturePad.ClearedTrimsToNone | components/hr/Shared.tsx:222-228 | with a device pixel ratio of at least 1, `clear` whitens the whole canvas and the next trim gives nothing |
| SignaturePad.ZoomedOutClearKeepsInk | components/hr/Shared.tsx:222-228 | with a ratio below 1, ink in the last column survives `clear`, and the next trim gives a crop holding it |
| SignaturePad.StrokeTrimsToSome | components/hr/Shared.tsx:205-220 | after a stroke the pad trims to a crop containing every stroked pixel |
| Workbook.ColumnName | pages/HRAdminPage.tsx:117 | a column number's A1 letters are a non-empty string of capitals |
| Workbook.AddRow | pages/HRAdminPage.tsx:101-113 | adds one row and keeps the sheet's name and images |
| Workbook.AddRows | pages/HRAdminPage.tsx:101-113 | adds one row per given row and keeps the sheet's name and images |
| Workbook.AddRowsCell | pages/HRAdminPage.tsx:101-113 | after `addRows`, cell (column c+1, row count + i + 1) holds `rows[i][c]` |
| Workbook.AddRowsKeeps | pages/HRAdminPage.tsx:101-113 | cells outside the new rows are unchanged |
| Workbook.SetCell | pages/HRAdminPage.tsx:117 | sets exactly that one cell |
| Workbook.PlaceImage | pages/HRAdminPage.tsx:138 | appends one placement and changes nothing else |
| Workbook.Book.constructor | pages/HRAdminPage.tsx:94 | a new workbook has no sheets and no media |
| Workbook.Book.Load | pages/HRAdminPage.tsx:98 | loading the template sets the sheets |
| Workbook.Book.AddWorksheet | pages/HRAdminPage.tsx:100 | appends an empty sheet with that name and returns its index |
| Workbook.Book.AddRowsTo | pages/HRAdminPage.tsx:101 | applies `AddRows` to that sheet |
| Workbook.Book.SetCellOf | pages/HRAdminPage.tsx:117 | applies `SetCell` to that sheet |
| Workbook.Book.AddImage | pages/HRAdminPage.tsx:134-137 | appends the media and returns its index |
| Workbook.Book.PlaceImageOn | pages/HRAdminPage.tsx:138-139 | applies `PlaceImage` to that sheet |
| LeaveExport.CellNames | pages/HRAdminPage.tsx:119-130 | the twelve form addresses print as K21, C11, C13, K5, K4, T23, B4, W4, AE4, B16, B17 and P17 |
| LeaveExport.FormWritesDistinct | pages/HRAdminPage.tsx:119-130 | the form writes twelve pairwise distinct cells |
| LeaveExport.ApplyWritesGet | pages/HRAdminPage.tsx:117-130 | a cell written and not overwritten later holds the written value |
| LeaveExport.ApplyWritesKeeps | pages/HRAdminPage.tsx:117-130 | a cell not written keeps its value |
| LeaveExport.Extension | pages/HRAdminPage.tsx:136 | the extension is "jpeg" exactly when the data URL starts with data:image/jpeg, otherwise "png" |
| LeaveExport.ExtensionOfPrefix | pages/HRAdminPage.tsx:136 | JPEG data URLs get "jpeg", PNG data URLs get "png" |
| LeaveExport.WithFormSheet | pages/HRAdminPage.tsx:116 | there is always a first sheet to fill: the template's first sheet, or a new "인사계출" |
| LeaveExport.ExportedSheets | pages/HRAdminPage.tsx:116-147 | filling and signing keeps the number of sheets |
| LeaveExport.Warnings | ManagerAndHrPages.tsx:879-881 | one console warning exactly when the consolidated copy's signature insertion failed |
| LeaveExport.FallbackRows | pages/HRAdminPage.tsx:100-112 | the fallback sheet lists eleven rows, each a label and a value |
| LeaveExport.OpenBook | pages/HRAdminPage.tsx:94-116 | a new workbook whose sheets are the template's, or else the one fallback sheet, plus a form sheet when there is none; no media |
| LeaveExport.FillForm | pages/HRAdminPage.tsx:117-130 | the first sheet receives the twelve form writes; media unchanged |
| LeaveExport.InsertRequesterSignature | pages/HRAdminPage.tsx:133-140 | the requester's image is added once and placed at its two anchors, or the decoding error is returned and nothing is added |
| LeaveExport.InsertManagerSignature | pages/HRAdminPage.tsx:141-147 | without a manager signature nothing changes; a decoding error changes nothing; otherwise one image is added and placed at the manager anchor |
| LeaveExport.InsertSignatures | pages/HRAdminPage.tsx:132-148 | the media and placements are those of `SignatureImages`: the manager's signature is tried only after the requester's went through, and an error ends the step |
| LeaveExport.MakeExcelForRow | pages/HRAdminPage.tsx:93-153 | a failing template fetch fails the export; otherwise the file is saved as HR_empId_name_date.xlsx with the filled sheets and the signature media; the consolidated copy (ManagerAndHrPages.tsx:824-886) also warns when a signature insertion failed |
| LeaveExport.FormFilled | pages/HRAdminPage.tsx:119-130 | each of the twelve cells holds its formatted field, with missing note, handover person and contact as "" |
| LeaveExport.FallbackKept | pages/HRAdminPage.tsx:99-114 | without a template, the eleven label/value rows stay in columns A and B |
| LeaveExport.OtherSheetsUnchanged | pages/HRAdminPage.tsx:116-130 | every template sheet after the first is exported untouched |
| LeaveExport.RequesterFailureSkipsManager | pages/HRAdminPage.tsx:132-148 | when the requester's signature fails to decode, no image at all is added (the manager's is skipped) |
| LeaveExport.BothSignaturesPlaced | pages/HRAdminPage.tsx:133-147 | with two decodable signatures the two images are placed at (8.8, 26.1), (25.2, 21.8) and (23.8, 26.1) |
| LeaveExport.ManagerSignatureAlone | pages/HRAdminPage.tsx:141-147 | with only a manager signature, one image is placed at the manager anchor |
| LeaveExport.PlacementsReferToMedia | pages/HRAdminPage.tsx:133-147 | every placement refers to an image that was added |
| LeaveExport.MakeFileAlert | ManagerAndHrPages.tsx:814-822 | success and failure alerts, the latter carrying the error |
| LeaveExport.ExportAlert | ManagerAndHrPages.tsx:814-822 | after an export, a failed template fetch alerts "파일 생성에 실패했습니다: " with its error; otherwise the success alert shows even when a signature would not decode, which on the consolidated page leaves only the "이미지 삽입 실패" warning (ManagerAndHrPages.tsx:879-881) |
| LeaveFilters.Filter | pages/HRAdminPage.tsx:80-91 | `filter` keeps only elements of the input that pass the test |
| LeaveFilters.FilterMember | pages/HRAdminPage.tsx:80-91 | an element is kept exactly when it is in the input and passes |
| LeaveFilters.FilterSubsequence | pages/HRAdminPage.tsx:80-91 | the kept elements are in their original order |
| LeaveFilters.FilteredLeavesMember | pages/HRAdminPage.tsx:80-91 | a row is listed exactly when it matches the department ("전체" = any), the status ("전체" = any) and, unless the trimmed query is blank, contains the lower-cased trimmed query in lower-cased "empId name" (same at ManagerAndHrPages.tsx:800-811) |
| LeaveFilters.FilteredLeavesOrder | pages/HRAdminPage.tsx:80-91 | the listed rows keep the order they came in |
| LeaveFilters.BlankQueryListsAll | pages/HRAdminPage.tsx:84-89 | with both drop-downs on "전체" and a blank query every row is listed |
| LeaveFilters.LtIrreflexive | pages/ManagerPage.tsx:39 | string `<` is irreflexive |
| LeaveFilters.LtTransitive | pages/ManagerPage.tsx:39 | string `<` is transitive |
| LeaveFilters.LtTotal | pages/ManagerPage.tsx:39 | two strings are equal or one is less than the other |
| LeaveFilters.NotLtTransitive | pages/ManagerPage.tsx:39 | "not less than" is transitive |
| LeaveFilters.InsertSorted | pages/ManagerPage.tsx:39 | inserting a row into a newest-first list keeps it newest-first and adds exactly that row |
| LeaveFilters.SortByDateDescCorrect | pages/ManagerPage.tsx:39 | the sort orders rows newest request date first and is a permutation |
| LeaveFilters.ManagerFilteredCorrect | pages/ManagerPage.tsx:36-41 | the manager list is sorted newest first and is a permutation of the rows of the chosen status (all rows for "전체") (same at ManagerAndHrPages.tsx:501-506) |
| LeaveFilters.InitialListIsPending | pages/ManagerPage.tsx:17 | the list first shown holds exactly the pending rows (also ManagerAndHrPages.tsx:479) |
| LeaveFilters.RowActions | pages/ManagerPage.tsx:178-195 | approve and reject are offered exactly for pending requests (also ManagerAndHrPages.tsx:635-645) |
| LeaveFilters.ListedRowActions | pages/ManagerPage.tsx:178-195 | a listed row offers approve and reject exactly when it is pending, so a list filtered to another status offers none, and the initial pending list offers both on every row |
| Approval.ConsolidatedStricter | ManagerAndHrPages.tsx:577-580 | every signature the consolidated check accepts is accepted by the pages check; the two agree on image data URLs |
| Approval.ChecksDiffer | pages/ManagerPage.tsx:72 | a non-image value such as "x" passes the pages check but not the consolidated one |
| Approval.FailureMessage | pages/ManagerPage.tsx:86-87 | the error's message when it has one, else "승인 실패"; never empty |
| Approval.SignDialog.constructor | pages/ManagerPage.tsx:61-65 | the dialog starts closed, without target, signature or error |
| Approval.SignDialog.OpenApproveWithSign | pages/ManagerPage.tsx:67-69 | sets the target, clears the signature and error, opens the dialog (also ManagerAndHrPages.tsx:568-573) |
| Approval.SignDialog.SetSignature | pages/ManagerPage.tsx:265 | the pad's value becomes the signature; nothing else changes |
| Approval.SignDialog.SubmitApproval | pages/ManagerPage.tsx:70-91 | no target: nothing changes; signature rejected: the dialog asks for a signature and sends nothing; otherwise the approval is sent once, approval closes the dialog and reloads, refusal shows the message (the consolidated copy at ManagerAndHrPages.tsx:575-597 also requires an image data URL) |
| Approval.OpenThenSubmitUnsigned | pages/ManagerPage.tsx:67-72 | opening the dialog and submitting at once sends nothing and asks for a signature |
| Roles.RoleName | auth/roles.ts:1 | the four role names |
| Roles.RoleNameInjective | auth/roles.ts:1 | distinct roles have distinct names |
| Roles.TabsForRole | auth/roles.ts:6-18 | no role: no tabs; admin: employee, manager and HR tabs in that order; any other role: one tab |
| Roles.OwnTab | auth/roles.ts:15-17 | a non-admin's single tab is the page named after the role |
| Roles.DefaultPathForRole | auth/roles.ts:21-27 | no role lands on /login; admin and employee land on /employee |
| Roles.DefaultIsFirstTab | auth/roles.ts:6-27 | every role lands on its first tab |
| Roles.TabBarOnlyForAdmin | layouts/ProtectedLayout.tsx:9-10 | the tab bar is shown exactly for an admin |
| Roles.AllowedAt | App.tsx:32-46 | a path has no roles exactly when no protected route has it |
| Roles.LookUp | App.tsx:32-46 | the route lookup finds nothing exactly when no route has the path |
| Roles.LookUpFirst | App.tsx:32-46 | the lookup returns the roles of the first route with the path |
| Roles.RouteTable | App.tsx:32-46 | the roles admitted at each of the five protected paths |
| Roles.TabsAreAccessible | auth/roles.ts:6-18 | every tab leads to a page the role may open |
| Roles.PagesWithoutTab | App.tsx:39-46 | /manager admits only manager and admin, /hr only HR and admin |
| Roles.EmployeePagesOpenToAll | App.tsx:32-36 | the three employee pages admit every role |
| Guards.RequireAuth | auth/guards.tsx:6-12 | loading shows the loading view; no user redirects to /login with the current location; otherwise the nested routes render |
| Guards.RequireRole | auth/guards.tsx:14-19 | no user redirects to /login, a role outside `allowed` to /forbidden, otherwise the nested routes render |
| Guards.RequireRoleIgnoresLoading | auth/guards.tsx:14-19 | the role guard does not look at the loading flag |
| Guards.Visit | App.tsx:29-48 | the guards decide a path exactly when it is, character for character, one of the protected table's paths; any other path gets no decision |
| Guards.VisitDecision | App.tsx:29-48 | a protected page renders exactly when loading is over, a user is signed in and their role may open it; the other cases redirect as the guards say |
| Guards.LandingAndTabsRender | auth/roles.ts:6-27 | a signed-in user's landing page and every tab of theirs render |
| Login.FirstPathByRole | pages/LoginPage.tsx:8-15 | manager lands on /manager, HR on /hr, any other or missing role on /employee |
| Login.FirstPathAgreesWithDefault | pages/LoginPage.tsx:8-15 | agrees with `defaultPathForRole` for every role; differs only without a role |
| Login.UnknownRoleLandsOnEmployee | pages/LoginPage.tsx:13-14 | a role name that is not one of the four lands on /employee |
| Login.ReplyError | pages/LoginPage.tsx:55-57 | the server's error if given, else "로그인 실패 (HTTP status)"; never empty |
| Login.Destination | pages/LoginPage.tsx:63-65 | the navigation target is never empty: the page the guard came from, or one of the three landing pages |
| Login.ReplyOutcome | pages/LoginPage.tsx:50-68 | once sent, login happens exactly when the reply is ok, its JSON says ok and carries a token, and it goes to the destination; any other reply ends with a non-empty error |
| Login.SubmitOutcome | pages/LoginPage.tsx:35-71 | nothing is sent exactly when the trimmed username or the password is empty; login happens exactly when the reply is ok, says ok and carries a token, and goes to the destination |
| Login.PasswordNotTrimmed | pages/LoginPage.tsx:38-41 | a password of a space is sent, a username of a space is not |
| Login.HtmlReplyFails | pages/LoginPage.tsx:50-57 | a non-JSON reply never logs in and its error names the HTTP status |
| Login.LoginForm.HandleReply | pages/LoginPage.tsx:50-68 | after the request: a refused reply sets its error and leaves the login untouched; an accepted one hands the token to `login` and navigates to the destination |
| Login.LoginForm.constructor | pages/LoginPage.tsx:21-24 | empty fields, no error, not busy |
| Login.LoginForm.Submit | pages/LoginPage.tsx:35-71 | the form's new state follows `SubmitOutcome`: the error shown, the body posted, the token handed to `login` and the navigation |
| EmployeeLeave.TodayStr | pages/EmployeeLeavePage.tsx:22-27 | the date text is at least seven characters long |
| EmployeeLeave.TwoDigits | pages/EmployeeLeavePage.tsx:24-25 | padding a number below 100 gives its two decimal digits |
| EmployeeLeave.TodayStrDigits | pages/EmployeeLeavePage.tsx:22-27 | `todayStr` is the year, the 1-based month in two digits and the day in two digits, joined by dashes |
| EmployeeLeave.TodayStrOnForm | pages/EmployeeLeavePage.tsx:22-27 | today's date splits back into its three parts and prints on the form as y년 m월 d일 |
| EmployeeLeave.InitialForm | pages/EmployeeLeavePage.tsx:30-39 | empty identity fields, the default department, leave type and note, both dates today |
| EmployeeLeave.CheckSpec | pages/EmployeeLeavePage.tsx:74 | one check pushes at most one message, its own, and one exactly when the field is empty |
| EmployeeLeave.Missing | pages/EmployeeLeavePage.tsx:73-78 | at most one message per check |
| EmployeeLeave.MissingMember | pages/EmployeeLeavePage.tsx:73-78 | a message is collected exactly when some check of an empty field carries it |
| EmployeeLeave.MissingCons | pages/EmployeeLeavePage.tsx:73-78 | the first check's message comes first |
| EmployeeLeave.MissingAppend | pages/EmployeeLeavePage.tsx:73-78 | checks run in sequence append their messages in that order |
| EmployeeLeave.ValidationErrorsInOrder | pages/EmployeeLeavePage.tsx:73-78 | the messages of the five checks, in field order |
| EmployeeLeave.Regroup | pages/EmployeeLeavePage.tsx:73-78 | the messages concatenate the same way whichever way they are grouped |
| EmployeeLeave.ValidationErrorsIff | pages/EmployeeLeavePage.tsx:73-78 | each message appears exactly when its field is empty; no message exactly when all five are filled |
| EmployeeLeave.JoinLines | pages/EmployeeLeavePage.tsx:79 | joining no message gives "", one message gives that message |
| EmployeeLeave.BlankFormErrors | pages/EmployeeLeavePage.tsx:30-39 | a fresh or reset form asks for employee number, name and position, in three lines |
| EmployeeLeave.PayloadOf | pages/EmployeeLeavePage.tsx:81-92 | the posted request carries today's date, the form's fields and status Pending |
| EmployeeLeave.ResetForm | pages/EmployeeLeavePage.tsx:103 | clears the identity fields, sets both dates to today and the note to its default, keeps department and leave type |
| EmployeeLeave.ResetForgets | pages/EmployeeLeavePage.tsx:103 | the reset depends only on department and leave type; resetting a fresh form gives a fresh form |
| EmployeeLeave.SaveErrorMessage | pages/EmployeeLeavePage.tsx:98-106 | an HTTP failure shows the server's error or "저장 실패"; a network failure shows its message |
| EmployeeLeave.CollectErrors | pages/EmployeeLeavePage.tsx:73-78 | the pushes collect exactly the validation messages |
| EmployeeLeave.LeavePage.constructor | pages/EmployeeLeavePage.tsx:30-42 | the initial form, a closed dialog, an empty list, loading |
| EmployeeLeave.LeavePage.Load | pages/EmployeeLeavePage.tsx:58-68 | the list follows `ListAfter` and loading ends; nothing else changes |
| EmployeeLeave.LeavePage.Submit | pages/EmployeeLeavePage.tsx:72-108 | an invalid form shows the joined messages and posts nothing; a valid one posts `PayloadOf` once; success shows the done message, resets the form and reloads; failure shows the error and keeps the form |

## Left out

- Drawing on the canvas: the model does not rasterize strokes, model line width or antialiasing, blit the crop, resample it or encode the PNG. A stroke is the set of pixels it covers. The trimmed signature is its geometry (`Crop`), not a data URL.
- Floating point: two quantities are computed as exact rationals. The first is the padding `Math.round(min(sw, sh) * 0.03)`, with 3/100 exact. The second is the output size `Math.round(cropW * (targetHeight / cropH))` and `Math.round(cropH * (targetHeight / cropH))` (signatureTrim.ts:55-57, components/hr/Shared.tsx:270). Its width is the rounded rational `cropW * targetHeight / cropH`, and its height is `max(1, targetHeight)`. The binary floating-point quotient and product, and any ties that they would round differently, are not modelled.
- SignaturePad.DevicePixels: the device pixel ratio is a non-negative fraction, not a floating-point number. `Math.floor(css * dpr)` is then exact.
- SignaturePad.Pad.Clear: when the ratio is below 1, the scaled white rectangle ends inside a column or row of device pixels, which a browser blends toward white. The model whitens only the pixels wholly inside the rectangle; the partly covered ones keep their bytes.
- SignaturePad.Pad.PointerUp: the trim's exception is returned as `thrown`; how a browser reports an exception escaping an event handler is not modelled.
- SignatureTrim.Effective: an option passed explicitly as `undefined` is treated as missing. Only an integer threshold, a non-negative padding and an integer target height are modelled. A target height that is `NaN` is not modelled.
- LeaveExport: ExcelJS internals are not modelled, including the file format, the template's own images and styles, anchors as fractional cells and `writeBuffer`. `saveAs` is modelled by the `Saved` value it receives.
- LeaveExport.MakeFileAlert: the alert shows `e?.message || e`. An error whose message is empty is not distinguished.
- `atob`, the network, `localStorage`, `parseJwt` and the authentication provider's startup are outside the model. Their results are parameters.
- Guards.Visit: the route lookup compares paths exactly. The router matches route paths without regard to letter case and accepts trailing slashes, so in the app "/HR" and "/hr/" reach the /hr guards. In the model they get `None`. Roles.AllowedAt and Roles.LookUp compare the same way. The guard decisions in Guards.VisitDecision and Guards.LandingAndTabsRender are stated only for the exact paths of the table.
- Guards.User: the token's role has to be one of the four roles. A token whose role is some other name, or that has no role, cannot be represented. In the app such a user lands on /employee and gets the employee tab, but `RequireRole` sends every role-guarded page, that tab included, to /forbidden. Guards.LandingAndTabsRender and Roles.TabsAreAccessible hold only for the four roles. Login.UnknownRoleLandsOnEmployee covers the landing path chosen at login.
- Text.ToLower: lower-cases ASCII letters only. Unicode case mapping is not modelled.
- LeaveFilters.Lt: compares code points one by one. UTF-16 surrogate order is not modelled.
- LeaveFilters.SortByDateDesc: keeps equal dates in input order. The source's comparator never returns 0, so the browser's order for equal dates is unspecified. The sort is proved sorted and a permutation, not that it matches that tie order.
- The work log tabs (`filteredWl`, `loadWorklogs`, `updateWorklogStatus`, WorkLogFormMini.tsx) are not part of this model.
- The reject buttons (`reject` in pages/ManagerPage.tsx:43-59) and the list loaders (`loadRequests`, `loadLeaveRecent`, `loadTemplates`) are not modelled. They only call the server and store its reply.
- Approval.ApproveReply: a refusal carries the message of the error thrown (`data`, `data.error` or `HTTP status`), as one string. How the server's body is turned into that string is not modelled. Nor is which reply counts as a refusal, and there the two copies differ. The pages copy (pages/ManagerPage.tsx:80) refuses only when the HTTP status is not ok or the body says `ok: false`. The consolidated copy (ManagerAndHrPages.tsx:589) also refuses a body without a truthy `ok`. The caller passes `Approved` or `Refused` already decided.
- The login page's effect that redirects a user who is already signed in (pages/LoginPage.tsx:29-33) is not modelled.
- EmployeeLeave.LeavePage.Submit: the `async` handler is one atomic step, so the form is not edited while the POST is in flight. The reset at pages/EmployeeLeavePage.tsx:103 is a functional update `setForm(f => ...)` that keeps the department and leave type the form holds when the POST resolves. The model keeps those of the form at submit time, which is the same value when nothing was edited in between.
- Login.LoginForm.Submit: the `async` handler is one atomic step; the fields are not edited while the login request is in flight.
- Approval.SignDialog.SubmitApproval: the `async` handler is one atomic step; the dialog is not changed while the approval request is in flight.
- EmployeeLeave.LeavePage.Submit: `todayStr()` is read once per submit and used both for the payload and for the reset. A submit that crosses midnight is not modelled.
- HrShared.DataUrlToUint8: when `atob` throws, the error's text is whatever the parameter returns.
- React rendering, styles, the theme injection and the dialogs' markup are not modelled. Only the state they show is.
