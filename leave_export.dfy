/** `makeExcelForRowFromTemplate`: fills the paper leave form for one request.
    The workbook starts from the chosen template, or else from a sheet
    "Leave Request" listing the request row by row; twelve cells of the first
    sheet receive the request's fields, then the requester's signature is
    placed twice and the manager's once. An image that cannot be decoded
    stops the image step and nothing else; the file is then offered as
    `HR_<empId>_<name>_<dateRequested>.xlsx`. */
module LeaveExport {
  import opened Wrappers
  import opened Text
  import opened HrShared
  import opened Workbook

  const K21: Addr := Addr(11, 21)
  const C11: Addr := Addr(3, 11)
  const C13: Addr := Addr(3, 13)
  const K5: Addr := Addr(11, 5)
  const K4: Addr := Addr(11, 4)
  const T23: Addr := Addr(20, 23)
  const B4: Addr := Addr(2, 4)
  const W4: Addr := Addr(23, 4)
  const AE4: Addr := Addr(31, 4)
  const B16: Addr := Addr(2, 16)
  const B17: Addr := Addr(2, 17)
  const P17: Addr := Addr(16, 17)

  /** The addresses above are the cells the form names. */
  lemma CellNames()
    ensures A1(K21) == "K21" && A1(C11) == "C11" && A1(C13) == "C13" && A1(K5) == "K5"
    ensures A1(K4) == "K4" && A1(T23) == "T23" && A1(B4) == "B4" && A1(W4) == "W4"
    ensures A1(AE4) == "AE4" && A1(B16) == "B16" && A1(B17) == "B17" && A1(P17) == "P17"
  {
    DateAndIdCellNames();
    PersonCellNames();
    NoteCellNames();
  }

  lemma DateAndIdCellNames()
    ensures A1(K21) == "K21" && A1(C11) == "C11" && A1(C13) == "C13" && A1(K5) == "K5"
  {
    assert NatToString(21) == "21" && NatToString(11) == "11" && NatToString(13) == "13";
  }

  lemma PersonCellNames()
    ensures A1(K4) == "K4" && A1(T23) == "T23" && A1(B4) == "B4" && A1(W4) == "W4"
  {
    assert NatToString(23) == "23";
  }

  lemma NoteCellNames()
    ensures A1(AE4) == "AE4" && A1(B16) == "B16" && A1(B17) == "B17" && A1(P17) == "P17"
  {
    assert NatToString(16) == "16" && NatToString(17) == "17";
    assert ColumnName(31) == "AE";
  }

  const XlsxMime: string := "application/vnd.openxmlformats-officedocument.spreadsheetml.sheet"

  const RequesterAnchorA: Anchor := Anchor(88, 261, 80, 40)
  const RequesterAnchorB: Anchor := Anchor(252, 218, 60, 35)
  const ManagerAnchor: Anchor := Anchor(238, 261, 80, 40)

  /** The rows of the fallback sheet: a label and a value each. */
  function FallbackRows(r: LeaveRequest): (rows: seq<seq<string>>)
    ensures |rows| == 11 && forall i :: 0 <= i < |rows| ==> |rows[i]| == 2
  {
    [ ["신청일", r.dateRequested],
      ["사번", r.empId],
      ["이름", r.name],
      ["부서", r.dept],
      ["직급", r.position],
      ["연차종류", r.leaveType],
      ["기간", r.startDate + " ~ " + r.endDate],
      ["상태", StatusKo(r.status)],
      ["비고", OrEmpty(r.note)],
      ["업무인수자", OrEmpty(r.handoverPerson)],
      ["연락처", OrEmpty(r.contact)] ]
  }

  /** The twelve `set(addr, v)` calls of the form, in order. */
  function FormWrites(r: LeaveRequest): seq<(Addr, string)>
  {
    [ (K21, FmtReqDate(r.dateRequested)),
      (C11, FmtStart(r.startDate)),
      (C13, FmtEnd(r.endDate)),
      (K5, r.empId),
      (K4, r.name),
      (T23, r.name),
      (B4, r.dept),
      (W4, r.position),
      (AE4, r.leaveType),
      (B16, OrEmpty(r.note)),
      (B17, OrEmpty(r.handoverPerson)),
      (P17, OrEmpty(r.contact)) ]
  }

  /** The cells the form writes, in order. */
  const FormCells: seq<Addr> := [K21, C11, C13, K5, K4, T23, B4, W4, AE4, B16, B17, P17]

  lemma FormWritesCells(r: LeaveRequest)
    ensures |FormWrites(r)| == |FormCells|
    ensures forall j :: 0 <= j < |FormCells| ==> FormWrites(r)[j].0 == FormCells[j]
  {
  }

  /** Of the cells of the fallback list (columns A and B, rows 1 to 11) the
      form writes only B4. */
  lemma FormMissesFallbackList(r: LeaveRequest, a: Addr)
    requires 1 <= a.col <= 2 && 1 <= a.row <= 11 && a != B4
    ensures forall j :: 0 <= j < |FormWrites(r)| ==> FormWrites(r)[j].0 != a
  {
    FormWritesCells(r);
  }

  /** No cell of the form is written twice, so the order of the writes does
      not matter. */
  lemma FormWritesDistinct(r: LeaveRequest)
    ensures |FormWrites(r)| == 12
    ensures forall i, j :: 0 <= i < j < 12 ==> FormWrites(r)[i].0 != FormWrites(r)[j].0
  {
    FormWritesCells(r);
  }

  /** The writes `ws` applied to `s` one after the other. */
  function ApplyWrites(s: Sheet, ws: seq<(Addr, string)>): (t: Sheet)
    ensures t.name == s.name && t.rowCount == s.rowCount && t.images == s.images
    decreases |ws|
  {
    if ws == [] then s
    else SetCell(ApplyWrites(s, ws[..|ws| - 1]), ws[|ws| - 1].0, ws[|ws| - 1].1)
  }

  /** A write that no later write overrides is what the cell holds. */
  lemma {:induction false} ApplyWritesGet(s: Sheet, ws: seq<(Addr, string)>, k: nat)
    requires k < |ws|
    requires forall j :: k < j < |ws| ==> ws[j].0 != ws[k].0
    ensures ws[k].0 in ApplyWrites(s, ws).cells && ApplyWrites(s, ws).cells[ws[k].0] == ws[k].1
    decreases |ws|
  {
    if k < |ws| - 1 {
      var init := ws[..|ws| - 1];
      assert init[k] == ws[k];
      ApplyWritesGet(s, init, k);
    }
  }

  /** A cell that no write names keeps its value. */
  lemma {:induction false} ApplyWritesKeeps(s: Sheet, ws: seq<(Addr, string)>, a: Addr)
    requires forall j :: 0 <= j < |ws| ==> ws[j].0 != a
    ensures a in ApplyWrites(s, ws).cells <==> a in s.cells
    ensures a in s.cells ==> ApplyWrites(s, ws).cells[a] == s.cells[a]
    decreases |ws|
  {
    if ws != [] {
      var init := ws[..|ws| - 1];
      assert forall j :: 0 <= j < |init| ==> init[j] == ws[j];
      ApplyWritesKeeps(s, init, a);
    }
  }

  /** `startsWith("data:image/jpeg") ? "jpeg" : "png"`. */
  function Extension(dataUrl: string): (e: string)
    ensures e == "jpeg" <==> StartsWith(dataUrl, "data:image/jpeg")
    ensures e != "jpeg" ==> e == "png"
  {
    if StartsWith(dataUrl, "data:image/jpeg") then "jpeg" else "png"
  }

  /** A JPEG data URL is stored as "jpeg", a PNG one as "png". */
  lemma ExtensionOfPrefix(b64: string)
    ensures Extension(JpegPrefix + b64) == "jpeg"
    ensures Extension(PngPrefix + b64) == "png"
  {
    assert (JpegPrefix + b64)[..|"data:image/jpeg"|] == "data:image/jpeg";
    assert (PngPrefix + b64)[11] == 'p';
  }

  /** What the image step adds: the media registered, the placements on the
      form sheet, and the error that ended the step early, if any. */
  datatype ImageOutcome = ImageOutcome(media: seq<Media>, placements: seq<Placement>, error: Option<string>)

  /** The requester's signature: one image, placed at two anchors. */
  function RequesterImages(r: LeaveRequest, atob: string -> Result<string>): ImageOutcome
  {
    if !Truthy(r.signature) then ImageOutcome([], [], None)
    else match ImageBytes(r.signature.value, atob)
      case Failure(e) => ImageOutcome([], [], Some(e))
      case Success(bytes) =>
        ImageOutcome([Media(bytes, Extension(r.signature.value))],
                     [Placement(0, RequesterAnchorA), Placement(0, RequesterAnchorB)], None)
  }

  /** The whole image step: the manager's signature is only tried after the
      requester's went through. */
  function SignatureImages(r: LeaveRequest, atob: string -> Result<string>): ImageOutcome
  {
    var first := RequesterImages(r, atob);
    if first.error.Some? || !Truthy(r.managerSignature) then first
    else match ImageBytes(r.managerSignature.value, atob)
      case Failure(e) => first.(error := Some(e))
      case Success(bytes) =>
        ImageOutcome(first.media + [Media(bytes, Extension(r.managerSignature.value))],
                     first.placements + [Placement(|first.media|, ManagerAnchor)], None)
  }

  /** The sheets before the form is filled: the template's, or the single
      fallback sheet. */
  function BaseSheets(r: LeaveRequest, tpl: string, template: Result<seq<Sheet>>): seq<Sheet>
    requires tpl != "" ==> template.Success?
  {
    if tpl != "" then template.value else [AddRows(EmptySheet("Leave Request"), FallbackRows(r))]
  }

  /** `wb.worksheets[0] ?? wb.addWorksheet("인사계출")`. */
  function WithFormSheet(base: seq<Sheet>): (sheets: seq<Sheet>)
    ensures |sheets| >= 1
  {
    if |base| > 0 then base else [EmptySheet("인사계출")]
  }

  /** The sheets of the saved workbook. */
  function ExportedSheets(r: LeaveRequest, base: seq<Sheet>, o: ImageOutcome): (sheets: seq<Sheet>)
    ensures |sheets| == |WithFormSheet(base)|
  {
    var sh := WithFormSheet(base);
    var form := ApplyWrites(sh[0], FormWrites(r));
    sh[0 := form.(images := form.images + o.placements)]
  }

  /** `HR_${empId}_${name}_${dateRequested}.xlsx`. */
  function Filename(r: LeaveRequest): string
  {
    "HR_" + r.empId + "_" + r.name + "_" + r.dateRequested + ".xlsx"
  }

  /** The consolidated copy logs an image error as a warning; the pages
      copy swallows it. */
  function Warnings(v: Variant, error: Option<string>): (w: seq<string>)
    ensures |w| <= 1
    ensures w != [] <==> v == Consolidated && error.Some?
  {
    if v == Consolidated && error.Some? then ["이미지 삽입 실패: " + error.value] else []
  }

  /** What is handed to `saveAs`, with the warnings logged on the way. */
  datatype Saved = Saved(filename: string, mimeType: string, warnings: seq<string>)

  /** The twelve `set` calls on the first sheet. */
  method FillForm(book: Book, r: LeaveRequest)
    requires |book.sheets| >= 1
    modifies book
    ensures book.sheets == old(book.sheets)[0 := ApplyWrites(old(book.sheets)[0], FormWrites(r))]
    ensures book.media == old(book.media)
  {
    ghost var sh := book.sheets;
    var writes := FormWrites(r);
    for i := 0 to |writes|
      invariant book.sheets == sh[0 := ApplyWrites(sh[0], writes[..i])]
      invariant book.media == old(book.media)
    {
      book.SetCellOf(0, writes[i].0, writes[i].1);
      assert writes[..i + 1][..i] == writes[..i];
    }
    assert writes[..|writes|] == writes;
  }

  /** The requester's signature, if any: decoded, registered, and placed at
      its two anchors on the first sheet. */
  method InsertRequesterSignature(book: Book, r: LeaveRequest, atob: string -> Result<string>)
    returns (error: Option<string>)
    requires |book.sheets| >= 1 && book.media == []
    modifies book
    ensures var o := RequesterImages(r, atob);
      && error == o.error && book.media == o.media
      && book.sheets == old(book.sheets)[0 := old(book.sheets)[0].(images := old(book.sheets)[0].images + o.placements)]
  {
    error := None;
    ghost var first := old(book.sheets)[0];
    assert first.images + [] == first.images;
    assert first.(images := first.images + []) == first;
    assert old(book.sheets)[0 := first] == old(book.sheets);
    if Truthy(r.signature) {
      var img := DataUrlToUint8(r.signature.value, atob);
      if img.Failure? {
        error := Some(img.error);
      } else {
        var id := book.AddImage(Media(img.value[..], Extension(r.signature.value)));
        book.PlaceImageOn(0, Placement(id, RequesterAnchorA));
        book.PlaceImageOn(0, Placement(id, RequesterAnchorB));
        ghost var form := old(book.sheets)[0];
        assert form.images + [Placement(id, RequesterAnchorA)] + [Placement(id, RequesterAnchorB)]
          == form.images + [Placement(id, RequesterAnchorA), Placement(id, RequesterAnchorB)];
      }
    }
  }

  /** The manager's signature, if any: decoded, registered after the images
      already in the workbook, and placed at its anchor. */
  method InsertManagerSignature(book: Book, r: LeaveRequest, atob: string -> Result<string>)
    returns (error: Option<string>)
    requires |book.sheets| >= 1
    modifies book
    ensures !Truthy(r.managerSignature) ==>
      error.None? && book.media == old(book.media) && book.sheets == old(book.sheets)
    ensures Truthy(r.managerSignature) && ImageBytes(r.managerSignature.value, atob).Failure? ==>
      error == Some(ImageBytes(r.managerSignature.value, atob).error)
      && book.media == old(book.media) && book.sheets == old(book.sheets)
    ensures Truthy(r.managerSignature) && ImageBytes(r.managerSignature.value, atob).Success? ==>
      && error.None?
      && book.media == old(book.media) + [Media(ImageBytes(r.managerSignature.value, atob).value, Extension(r.managerSignature.value))]
      && book.sheets == old(book.sheets)[0 := PlaceImage(old(book.sheets)[0], Placement(|old(book.media)|, ManagerAnchor))]
  {
    error := None;
    if Truthy(r.managerSignature) {
      var img := DataUrlToUint8(r.managerSignature.value, atob);
      if img.Failure? {
        error := Some(img.error);
      } else {
        var id := book.AddImage(Media(img.value[..], Extension(r.managerSignature.value)));
        book.PlaceImageOn(0, Placement(id, ManagerAnchor));
      }
    }
  }

  /** A new workbook holding the template's sheets, or else the fallback
      sheet, and at least the sheet the form is written into. */
  method OpenBook(r: LeaveRequest, tpl: string, template: Result<seq<Sheet>>) returns (book: Book)
    requires tpl != "" ==> template.Success?
    ensures fresh(book)
    ensures book.sheets == WithFormSheet(BaseSheets(r, tpl, template)) && book.media == []
  {
    book := new Book();
    if tpl != "" {
      book.Load(template.value);
    } else {
      var k0 := book.AddWorksheet("Leave Request");
      book.AddRowsTo(k0, FallbackRows(r));
    }
    if |book.sheets| == 0 {
      var k := book.AddWorksheet("인사계출");
    }
  }

  /** The image step: the requester's signature, then, unless that failed,
      the manager's. */
  method InsertSignatures(book: Book, r: LeaveRequest, atob: string -> Result<string>)
    returns (error: Option<string>)
    requires |book.sheets| >= 1 && book.media == []
    modifies book
    ensures var o := SignatureImages(r, atob);
      && error == o.error && book.media == o.media
      && book.sheets == old(book.sheets)[0 := old(book.sheets)[0].(images := old(book.sheets)[0].images + o.placements)]
  {
    ghost var form := book.sheets[0];
    error := InsertRequesterSignature(book, r, atob);
    if error.None? {
      error := InsertManagerSignature(book, r, atob);
      ghost var first := RequesterImages(r, atob);
      assert form.images + first.placements + [Placement(|first.media|, ManagerAnchor)]
        == form.images + (first.placements + [Placement(|first.media|, ManagerAnchor)]);
    }
  }

  /** The export. `template` is the outcome of downloading and loading the
      chosen template (only consulted when `tpl` is not empty); `atob` is the
      browser's base64 decoder. */
  /** What `makeExcelForRowFromTemplate` settles with: the template fetch's
      error, or the file handed to `saveAs`. */
  function ExportOutcome(r: LeaveRequest, tpl: string, template: Result<seq<Sheet>>,
                         atob: string -> Result<string>, v: Variant): Result<Saved>
  {
    if tpl != "" && template.Failure? then Failure(template.error)
    else Success(Saved(Filename(r), XlsxMime, Warnings(v, SignatureImages(r, atob).error)))
  }

  method MakeExcelForRow(r: LeaveRequest, tpl: string, template: Result<seq<Sheet>>,
                         atob: string -> Result<string>, v: Variant)
    returns (book: Book, res: Result<Saved>)
    ensures fresh(book)
    ensures res == ExportOutcome(r, tpl, template, atob, v)
    ensures tpl != "" && template.Failure? ==> res == Failure(template.error)
    ensures !(tpl != "" && template.Failure?) ==>
      var o := SignatureImages(r, atob);
      && res == Success(Saved(Filename(r), XlsxMime, Warnings(v, o.error)))
      && book.sheets == ExportedSheets(r, BaseSheets(r, tpl, template), o)
      && book.media == o.media
  {
    if tpl != "" && template.Failure? {
      book := new Book();
      return book, Failure(template.error);
    }
    book := OpenBook(r, tpl, template);
    FillForm(book, r);
    var error := InsertSignatures(book, r, atob);
    res := Success(Saved(Filename(r), XlsxMime, Warnings(v, error)));
  }

  /** The first sheet of the saved workbook holds the twelve form fields:
      the formatted request date and period lines, the employee's fields,
      the name twice, and the optional fields or "". */
  lemma FormFilled(r: LeaveRequest, base: seq<Sheet>, o: ImageOutcome)
    ensures var c := ExportedSheets(r, base, o)[0].cells;
      && K21 in c && c[K21] == FmtReqDate(r.dateRequested)
      && C11 in c && c[C11] == FmtStart(r.startDate)
      && C13 in c && c[C13] == FmtEnd(r.endDate)
      && K5 in c && c[K5] == r.empId
      && K4 in c && T23 in c && c[K4] == c[T23] == r.name
      && B4 in c && c[B4] == r.dept
      && W4 in c && c[W4] == r.position
      && AE4 in c && c[AE4] == r.leaveType
      && B16 in c && c[B16] == OrEmpty(r.note)
      && B17 in c && c[B17] == OrEmpty(r.handoverPerson)
      && P17 in c && c[P17] == OrEmpty(r.contact)
  {
    var s := WithFormSheet(base)[0];
    var ws := FormWrites(r);
    FormWritesDistinct(r);
    forall k | 0 <= k < 12
      ensures ws[k].0 in ApplyWrites(s, ws).cells && ApplyWrites(s, ws).cells[ws[k].0] == ws[k].1
    {
      ApplyWritesGet(s, ws, k);
    }
    assert ws[0].0 == K21 && ws[1].0 == C11 && ws[2].0 == C13 && ws[3].0 == K5;
    assert ws[4].0 == K4 && ws[5].0 == T23 && ws[6].0 == B4 && ws[7].0 == W4;
    assert ws[8].0 == AE4 && ws[9].0 == B16 && ws[10].0 == B17 && ws[11].0 == P17;
  }

  /** Without a template, the list of label and value cells (columns A and B
      of rows 1 to 11) survives the form writes: the one overlap, B4, is
      written with the department it already holds. */
  lemma FallbackKept(r: LeaveRequest, o: ImageOutcome, i: nat, c: nat)
    requires i < 11 && c < 2
    ensures var cells := ExportedSheets(r, BaseSheets(r, "", Failure("")), o)[0].cells;
      Addr(c + 1, i + 1) in cells && cells[Addr(c + 1, i + 1)] == FallbackRows(r)[i][c]
  {
    var s := AddRows(EmptySheet("Leave Request"), FallbackRows(r));
    assert WithFormSheet(BaseSheets(r, "", Failure("")))[0] == s;
    FormKeepsFallbackCell(r, s, i, c);
  }

  /** The form writes on the fallback sheet, before any image is placed. */
  lemma FormKeepsFallbackCell(r: LeaveRequest, s: Sheet, i: nat, c: nat)
    requires s == AddRows(EmptySheet("Leave Request"), FallbackRows(r))
    requires i < 11 && c < 2
    ensures var cells := ApplyWrites(s, FormWrites(r)).cells;
      Addr(c + 1, i + 1) in cells && cells[Addr(c + 1, i + 1)] == FallbackRows(r)[i][c]
  {
    var a := Addr(c + 1, i + 1);
    AddRowsCell(EmptySheet("Leave Request"), FallbackRows(r), i, c);
    if a == B4 {
      FormWritesCells(r);
      ApplyWritesGet(s, FormWrites(r), 6);
    } else {
      FormMissesFallbackList(r, a);
      ApplyWritesKeeps(s, FormWrites(r), a);
    }
  }

  /** The form is written into the first sheet only; the template's other
      sheets are saved as loaded. */
  lemma OtherSheetsUnchanged(r: LeaveRequest, base: seq<Sheet>, o: ImageOutcome, j: nat)
    requires 1 <= j < |base|
    ensures ExportedSheets(r, base, o)[j] == base[j]
  {
  }

  /** A requester signature that cannot be decoded ends the image step: no
      image is added at all, not even a valid manager signature. */
  lemma RequesterFailureSkipsManager(r: LeaveRequest, atob: string -> Result<string>)
    requires Truthy(r.signature) && ImageBytes(r.signature.value, atob).Failure?
    ensures SignatureImages(r, atob) == ImageOutcome([], [], Some(ImageBytes(r.signature.value, atob).error))
  {
  }

  /** Both signatures decoded: the requester's image (id 0) at its two
      anchors, then the manager's (id 1) at its anchor. */
  lemma BothSignaturesPlaced(r: LeaveRequest, atob: string -> Result<string>)
    requires Truthy(r.signature) && ImageBytes(r.signature.value, atob).Success?
    requires Truthy(r.managerSignature) && ImageBytes(r.managerSignature.value, atob).Success?
    ensures var o := SignatureImages(r, atob);
      && o.error.None? && |o.media| == 2
      && o.media[0].buffer == ImageBytes(r.signature.value, atob).value
      && o.media[1].buffer == ImageBytes(r.managerSignature.value, atob).value
      && o.placements == [Placement(0, RequesterAnchorA), Placement(0, RequesterAnchorB), Placement(1, ManagerAnchor)]
  {
  }

  /** Without a requester signature a decodable manager signature is image 0
      at the manager's anchor. */
  lemma ManagerSignatureAlone(r: LeaveRequest, atob: string -> Result<string>)
    requires !Truthy(r.signature)
    requires Truthy(r.managerSignature) && ImageBytes(r.managerSignature.value, atob).Success?
    ensures SignatureImages(r, atob).placements == [Placement(0, ManagerAnchor)]
    ensures |SignatureImages(r, atob).media| == 1 && SignatureImages(r, atob).error.None?
  {
  }

  /** Every placement refers to a registered image. */
  lemma PlacementsReferToMedia(r: LeaveRequest, atob: string -> Result<string>)
    ensures var o := SignatureImages(r, atob);
      forall p :: p in o.placements ==> p.image < |o.media|
  {
  }

  /** `handleMakeFile` of the consolidated page: the alert after an export. */
  function MakeFileAlert(res: Result<Saved>): (msg: string)
    ensures res.Success? ==> msg == "엑셀 파일을 생성했습니다."
    ensures res.Failure? ==> msg == "파일 생성에 실패했습니다: " + res.error
  {
    if res.Success? then "엑셀 파일을 생성했습니다." else "파일 생성에 실패했습니다: " + res.error
  }

  /** The alert after an export: a failed template fetch alerts its error;
      otherwise the file was saved and the success alert shows, even when a
      signature could not be decoded. On the consolidated page that failure
      is only the one console warning. */
  lemma ExportAlert(r: LeaveRequest, tpl: string, template: Result<seq<Sheet>>,
                    atob: string -> Result<string>, v: Variant)
    ensures tpl != "" && template.Failure? ==>
      MakeFileAlert(ExportOutcome(r, tpl, template, atob, v)) == "파일 생성에 실패했습니다: " + template.error
    ensures !(tpl != "" && template.Failure?) ==>
      MakeFileAlert(ExportOutcome(r, tpl, template, atob, v)) == "엑셀 파일을 생성했습니다."
    ensures !(tpl != "" && template.Failure?) && SignatureImages(r, atob).error.Some? && v == Consolidated ==>
      ExportOutcome(r, tpl, template, atob, v).value.warnings == ["이미지 삽입 실패: " + SignatureImages(r, atob).error.value]
  {
  }
}
