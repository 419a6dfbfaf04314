/** The shared helpers of the HR pages (components/hr/Shared.tsx, and their
    copies at the top of ManagerAndHrPages.tsx): the leave-request record, the
    Korean status labels, the fixed-width date formatters written into the
    paper form, and the data-URL to byte conversion used for signatures. */
module HrShared {
  import opened Wrappers
  import opened Text

  /** Which copy of a page: the components under pages/, or the
      consolidated ManagerAndHrPages.tsx. */
  datatype Variant = Pages | Consolidated

  datatype Status = Pending | Approved | Rejected | Canceled

  /** A leave request as the server returns it. Optional fields are `None`
      when the server leaves them out. */
  datatype LeaveRequest = LeaveRequest(
    requestId: string,
    dateRequested: string,
    empId: string,
    name: string,
    dept: string,
    position: string,
    leaveType: string,
    startDate: string,
    endDate: string,
    note: Option<string>,
    status: Status,
    signature: Option<string>,
    managerSignature: Option<string>,
    handoverPerson: Option<string>,
    contact: Option<string>)

  /** `STATUS_KO`. */
  function StatusKo(s: Status): string
  {
    match s
    case Pending => "대기"
    case Approved => "승인"
    case Rejected => "거절"
    case Canceled => "취소"
  }

  /** Each status has its own label, so the label identifies the status. */
  lemma StatusKoInjective(a: Status, b: Status)
    ensures StatusKo(a) == StatusKo(b) <==> a == b
  {
  }

  /** `v ?? ""` for an optional text field. */
  function OrEmpty(v: Option<string>): string
  {
    if v.Some? then v.value else ""
  }

  const SP3: string := "   "
  const SP4: string := "    "
  const SP6: string := "      "
  const SP8: string := "        "
  const SP10: string := "          "

  /** `fmtReqDate`: the request date as written on the paper form, with a
      ten-space gap after the year and after the month. */
  function FmtReqDate(dateStr: string): string
  {
    var p := Split(dateStr, '-');
    Part(p, 0) + "년" + SP10 + Part(p, 1) + "월" + SP10 + Part(p, 2) + "일"
  }

  /** `fmtStart`: the first day of the leave, ending in "부터" ("from"). */
  function FmtStart(dateStr: string): string
  {
    var p := Split(dateStr, '-');
    Part(p, 0) + " 년" + SP8 + Part(p, 1) + SP4 + " 월" + SP6 + Part(p, 2) + SP3 + " 일   부터"
  }

  /** `fmtEnd`: the last day of the leave, ending in "까지" ("until"). */
  function FmtEnd(dateStr: string): string
  {
    var p := Split(dateStr, '-');
    Part(p, 0) + " 년" + SP8 + Part(p, 1) + SP4 + " 월" + SP6 + Part(p, 2) + SP3 + " 일   까지"
  }

  /** A date "Y-M-D" whose parts hold no dash prints as Y, "년", ten spaces,
      M, "월", ten spaces, D, "일". */
  lemma FmtReqDateOf(y: string, m: string, d: string)
    requires '-' !in y && '-' !in m && '-' !in d
    ensures FmtReqDate(y + "-" + m + "-" + d) == y + "년" + "          " + m + "월" + "          " + d + "일"
  {
    SplitThree(y, m, d, '-');
  }

  /** The period lines for a date "Y-M-D" with dash-free parts. */
  lemma FmtStartEndOf(y: string, m: string, d: string)
    requires '-' !in y && '-' !in m && '-' !in d
    ensures FmtStart(y + "-" + m + "-" + d) == y + " 년" + "        " + m + "    " + " 월" + "      " + d + "   " + " 일" + "   " + "부터"
    ensures FmtEnd(y + "-" + m + "-" + d) == y + " 년" + "        " + m + "    " + " 월" + "      " + d + "   " + " 일" + "   " + "까지"
  {
    SplitThree(y, m, d, '-');
  }

  /** `fmtStart` and `fmtEnd` print the same text except for their last two
      characters, which are "부터" and "까지". */
  lemma FmtStartEndDiffer(dateStr: string)
    ensures |FmtStart(dateStr)| == |FmtEnd(dateStr)| >= 2
    ensures FmtStart(dateStr)[..|FmtStart(dateStr)| - 2] == FmtEnd(dateStr)[..|FmtEnd(dateStr)| - 2]
    ensures FmtStart(dateStr)[|FmtStart(dateStr)| - 2..] == "부터"
    ensures FmtEnd(dateStr)[|FmtEnd(dateStr)| - 2..] == "까지"
  {
    var p := Split(dateStr, '-');
    var common := Part(p, 0) + " 년" + SP8 + Part(p, 1) + SP4 + " 월" + SP6 + Part(p, 2) + SP3 + " 일   ";
    assert FmtStart(dateStr) == common + "부터";
    assert FmtEnd(dateStr) == common + "까지";
  }

  /** A date without dashes prints its missing month and day as "undefined". */
  lemma FmtReqDateMissingParts(y: string)
    requires '-' !in y
    ensures FmtReqDate(y) == y + "년" + "          " + "undefined" + "월" + "          " + "undefined" + "일"
  {
    SplitNone(y, '-');
  }

  const PngPrefix: string := "data:image/png;base64,"
  const JpegPrefix: string := "data:image/jpeg;base64,"

  /** The test `/^data:image\/(png|jpeg);base64,/`. */
  predicate IsImageDataUrl(s: string)
  {
    StartsWith(s, PngPrefix) || StartsWith(s, JpegPrefix)
  }

  /** `dataUrl.split(",")[1]`: the second comma-separated field. */
  function Payload(dataUrl: string): string
  {
    Part(Split(dataUrl, ','), 1)
  }

  /** For a well-formed data URL whose base64 text holds no comma, the
      payload is exactly that text. */
  lemma PayloadOf(prefix: string, b64: string)
    requires prefix == PngPrefix || prefix == JpegPrefix
    requires ',' !in b64
    ensures IsImageDataUrl(prefix + b64)
    ensures Payload(prefix + b64) == b64
  {
    var head := prefix[..|prefix| - 1];
    assert head + [','] == prefix;
    assert prefix + b64 == head + [','] + b64;
    assert ',' !in head;
    SplitAfter(head, ',', b64);
    SplitNone(b64, ',');
    assert (prefix + b64)[..|prefix|] == prefix;
  }

  /** The byte stored by `Uint8Array` for character code `c` (ToUint8). */
  function ToUint8(c: int): int
  {
    c % 256
  }

  /** The byte view of a binary string: byte i is the code of character i,
      reduced as `Uint8Array` reduces it. */
  function CharCodes(bin: string): (bytes: seq<int>)
    ensures |bytes| == |bin|
    ensures forall i :: 0 <= i < |bin| ==> bytes[i] == ToUint8(bin[i] as int)
  {
    seq(|bin|, i requires 0 <= i < |bin| => ToUint8(bin[i] as int))
  }

  /** The bytes `dataUrlToUint8` yields, or the error it throws. `atob` is the
      browser's base64 decoder, passed in; it fails where `atob` throws. */
  function ImageBytes(dataUrl: string, atob: string -> Result<string>): (r: Result<seq<int>>)
    ensures !IsImageDataUrl(dataUrl) ==> r == Failure("Invalid image data URL")
    ensures r.Success? <==> IsImageDataUrl(dataUrl) && atob(Payload(dataUrl)).Success?
    ensures r.Success? ==> forall i :: 0 <= i < |r.value| ==> 0 <= r.value[i] < 256
  {
    if !IsImageDataUrl(dataUrl) then Failure("Invalid image data URL")
    else
      var decoded := atob(Payload(dataUrl));
      if decoded.Failure? then Failure(decoded.error)
      else Success(CharCodes(decoded.value))
  }

  /** `dataUrlToUint8`: checks the prefix, decodes the payload and copies the
      character codes into a fresh byte array. */
  method DataUrlToUint8(dataUrl: string, atob: string -> Result<string>) returns (r: Result<array<int>>)
    ensures r.Success? <==> ImageBytes(dataUrl, atob).Success?
    ensures r.Failure? ==> r.error == ImageBytes(dataUrl, atob).error
    ensures r.Success? ==> r.value[..] == ImageBytes(dataUrl, atob).value && fresh(r.value)
  {
    if !IsImageDataUrl(dataUrl) {
      return Failure("Invalid image data URL");
    }
    var b64 := Payload(dataUrl);
    var decoded := atob(b64);
    if decoded.Failure? {
      return Failure(decoded.error);
    }
    var bin := decoded.value;
    var buf := new int[|bin|];
    for i := 0 to |bin|
      invariant forall k :: 0 <= k < i ==> buf[k] == ToUint8(bin[k] as int)
    {
      buf[i] := ToUint8(bin[i] as int);
    }
    return Success(buf);
  }

  /** A well-formed PNG or JPEG data URL whose base64 text holds no comma
      decodes to the character codes of what `atob` makes of that text. */
  lemma ImageBytesOf(prefix: string, b64: string, atob: string -> Result<string>)
    requires prefix == PngPrefix || prefix == JpegPrefix
    requires ',' !in b64 && atob(b64).Success?
    ensures ImageBytes(prefix + b64, atob) == Success(CharCodes(atob(b64).value))
  {
    PayloadOf(prefix, b64);
  }
}
