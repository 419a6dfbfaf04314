/** The leave-request form of pages/EmployeeLeavePage.tsx: today's date as
    the form writes it, the check of the required fields, the request body,
    the reset after a successful request, and the list of recent requests. */
module EmployeeLeave {
  import opened Wrappers
  import opened Text
  import HrShared

  /** `todayStr()` for a clock reading of year `year`, month index
      `monthIndex` (January is 0) and day `day`. */
  function TodayStr(year: nat, monthIndex: nat, day: nat): (s: string)
    ensures |s| >= 7
  {
    NatToString(year) + "-" + PadStart2(NatToString(monthIndex + 1)) + "-" + PadStart2(NatToString(day))
  }

  /** A number of one or two digits is printed as exactly two digits. */
  lemma TwoDigits(n: nat)
    requires n < 100
    ensures PadStart2(NatToString(n)) == [DigitChar(n / 10), DigitChar(n % 10)]
  {
    var hi, lo := n / 10, n % 10;
    assert n == 10 * hi + lo && hi < 10 && lo < 10;
    if hi == 0 {
      assert NatToString(n) == [DigitChar(lo)];
    } else {
      assert NatToString(hi) == [DigitChar(hi)];
      assert NatToString(n) == NatToString(hi) + [DigitChar(lo)];
    }
  }

  /** The date is "YYYY-MM-DD": the year, then the month number and the day,
      each as two digits. */
  lemma TodayStrDigits(year: nat, monthIndex: nat, day: nat)
    requires monthIndex < 12 && day < 100
    ensures TodayStr(year, monthIndex, day) == NatToString(year) + "-"
      + [DigitChar((monthIndex + 1) / 10), DigitChar((monthIndex + 1) % 10)] + "-"
      + [DigitChar(day / 10), DigitChar(day % 10)]
  {
    TwoDigits(monthIndex + 1);
    TwoDigits(day);
  }

  /** Today's date is its year, month and day, all digits, joined by dashes. */
  lemma TodayStrJoin(year: nat, monthIndex: nat, day: nat)
    ensures var y, m, d := NatToString(year), PadStart2(NatToString(monthIndex + 1)), PadStart2(NatToString(day));
      && (forall k :: 0 <= k < |y| ==> IsDigit(y[k]))
      && (forall k :: 0 <= k < |m| ==> IsDigit(m[k]))
      && (forall k :: 0 <= k < |d| ==> IsDigit(d[k]))
      && TodayStr(year, monthIndex, day) == y + ['-'] + m + ['-'] + d
  {
    var y, m, d := NatToString(year), PadStart2(NatToString(monthIndex + 1)), PadStart2(NatToString(day));
    assert forall k :: 0 <= k < |y| ==> IsDigit(y[k]);
    assert forall k :: 0 <= k < |m| ==> IsDigit(m[k]);
    assert forall k :: 0 <= k < |d| ==> IsDigit(d[k]);
  }

  /** Split at the dashes, today's date gives back its year, month and day;
      so the paper form prints it as year "년", month "월", day "일". */
  lemma TodayStrOnForm(year: nat, monthIndex: nat, day: nat)
    ensures var y, m, d := NatToString(year), PadStart2(NatToString(monthIndex + 1)), PadStart2(NatToString(day));
      && Split(TodayStr(year, monthIndex, day), '-') == [y, m, d]
      && HrShared.FmtReqDate(TodayStr(year, monthIndex, day)) == y + "년" + "          " + m + "월" + "          " + d + "일"
  {
    var y, m, d := NatToString(year), PadStart2(NatToString(monthIndex + 1)), PadStart2(NatToString(day));
    TodayStrJoin(year, monthIndex, day);
    SplitThree(y, m, d, '-');
    HrShared.FmtReqDateOf(y, m, d);
  }

  datatype Form = Form(
    empId: string,
    name: string,
    position: string,
    dept: string,
    leaveType: string,
    startDate: string,
    endDate: string,
    note: string)

  const DefaultDept: string := "개발팀"
  const DefaultLeaveType: string := "연차"
  const DefaultNote: string := "개인사유"

  /** The form as the page opens it, both dates today. */
  function InitialForm(today: string): (f: Form)
    ensures f.empId == "" && f.name == "" && f.position == ""
    ensures f.dept == DefaultDept && f.leaveType == DefaultLeaveType && f.note == DefaultNote
    ensures f.startDate == today && f.endDate == today
  {
    Form("", "", "", DefaultDept, DefaultLeaveType, today, today, DefaultNote)
  }

  const NeedEmpId: string := "사번을 입력하세요"
  const NeedName: string := "이름을 입력하세요"
  const NeedPosition: string := "직급을 입력하세요"
  const NeedStart: string := "신청일을 선택하세요"
  const NeedEnd: string := "마지막일을 선택하세요"

  /** The required fields, in the order they are checked, with the message
      for each. */
  function RequiredFields(f: Form): seq<(string, string)>
  {
    [(f.empId, NeedEmpId), (f.name, NeedName), (f.position, NeedPosition),
     (f.startDate, NeedStart), (f.endDate, NeedEnd)]
  }

  /** The message of one check, if its field is empty. */
  function Check(c: (string, string)): seq<string>
  {
    if c.0 == "" then [c.1] else []
  }

  /** One check pushes at most one message, its own, and pushes it exactly
      when the field is empty. */
  lemma CheckSpec(c: (string, string))
    ensures |Check(c)| <= 1
    ensures Check(c) == [] <==> c.0 != ""
    ensures forall m :: m in Check(c) ==> m == c.1
  {
  }

  /** The messages of the empty fields among `checks`, in order. */
  function Missing(checks: seq<(string, string)>): (errs: seq<string>)
    ensures |errs| <= |checks|
  {
    if checks == [] then [] else Check(checks[0]) + Missing(checks[1..])
  }

  /** A message is listed exactly when one of the empty fields has it. */
  lemma {:induction false} MissingMember(checks: seq<(string, string)>, m: string)
    ensures m in Missing(checks) <==> exists i :: 0 <= i < |checks| && checks[i] == ("", m)
  {
    if checks != [] {
      MissingMember(checks[1..], m);
      if exists i :: 0 <= i < |checks[1..]| && checks[1..][i] == ("", m) {
        var i :| 0 <= i < |checks[1..]| && checks[1..][i] == ("", m);
        assert checks[i + 1] == ("", m);
      }
      if exists i :: 0 <= i < |checks| && checks[i] == ("", m) {
        var i :| 0 <= i < |checks| && checks[i] == ("", m);
        if i > 0 {
          assert checks[1..][i - 1] == ("", m);
        }
      }
    }
  }

  lemma MissingCons(c: (string, string), rest: seq<(string, string)>)
    ensures Missing([c] + rest) == Check(c) + Missing(rest)
  {
    assert ([c] + rest)[1..] == rest;
  }

  /** The messages of checks done one after the other are those of the
      first, then those of the second: the list keeps the fields' order. */
  lemma {:induction false} MissingAppend(a: seq<(string, string)>, b: seq<(string, string)>)
    ensures Missing(a + b) == Missing(a) + Missing(b)
  {
    if a == [] {
      assert a + b == b;
    } else {
      var t := a[1..];
      calc {
        Missing(a + b);
        == { assert a + b == [a[0]] + (t + b); }
        Missing([a[0]] + (t + b));
        == { MissingCons(a[0], t + b); }
        Check(a[0]) + Missing(t + b);
        == { MissingAppend(t, b); }
        Check(a[0]) + (Missing(t) + Missing(b));
        (Check(a[0]) + Missing(t)) + Missing(b);
        == { MissingCons(a[0], t); assert [a[0]] + t == a; }
        Missing(a) + Missing(b);
      }
    }
  }

  function ValidationErrors(f: Form): seq<string>
  {
    Missing(RequiredFields(f))
  }

  /** The five checks one after the other, as `submit` pushes them. */
  lemma ValidationErrorsInOrder(f: Form)
    ensures ValidationErrors(f) == Check((f.empId, NeedEmpId)) + (Check((f.name, NeedName))
      + (Check((f.position, NeedPosition)) + (Check((f.startDate, NeedStart)) + Check((f.endDate, NeedEnd)))))
  {
    var c0, c1, c2, c3, c4 := (f.empId, NeedEmpId), (f.name, NeedName), (f.position, NeedPosition),
      (f.startDate, NeedStart), (f.endDate, NeedEnd);
    assert RequiredFields(f) == [c0] + ([c1] + ([c2] + ([c3] + ([c4] + []))));
    MissingCons(c4, []);
    assert Missing([c4] + []) == Check(c4);
    MissingCons(c3, [c4] + []);
    MissingCons(c2, [c3] + ([c4] + []));
    MissingCons(c1, [c2] + ([c3] + ([c4] + [])));
    MissingCons(c0, [c1] + ([c2] + ([c3] + ([c4] + []))));
  }

  lemma Regroup(e0: seq<string>, e1: seq<string>, e2: seq<string>, e3: seq<string>, e4: seq<string>)
    ensures e0 + (e1 + (e2 + (e3 + e4))) == e0 + e1 + e2 + e3 + e4
  {
  }

  /** Each message appears exactly when its field is empty; dept, leave type
      and note are not checked. */
  lemma ValidationErrorsIff(f: Form)
    ensures NeedEmpId in ValidationErrors(f) <==> f.empId == ""
    ensures NeedName in ValidationErrors(f) <==> f.name == ""
    ensures NeedPosition in ValidationErrors(f) <==> f.position == ""
    ensures NeedStart in ValidationErrors(f) <==> f.startDate == ""
    ensures NeedEnd in ValidationErrors(f) <==> f.endDate == ""
    ensures ValidationErrors(f) == [] <==>
      f.empId != "" && f.name != "" && f.position != "" && f.startDate != "" && f.endDate != ""
  {
    ValidationErrorsInOrder(f);
    assert NeedEmpId[0] != NeedName[0] && NeedEmpId[0] != NeedPosition[0] && NeedEmpId[0] != NeedStart[0];
    assert NeedEmpId[0] != NeedEnd[0] && NeedName[0] != NeedPosition[0] && NeedName[0] != NeedStart[0];
    assert NeedName[0] != NeedEnd[0] && NeedPosition[0] != NeedStart[0] && NeedPosition[0] != NeedEnd[0];
    assert NeedStart[0] != NeedEnd[0];
  }

  /** `errs.join('\n')`. */
  function JoinLines(lines: seq<string>): (s: string)
    ensures lines == [] ==> s == ""
    ensures |lines| == 1 ==> s == lines[0]
  {
    if lines == [] then ""
    else if |lines| == 1 then lines[0]
    else JoinLines(lines[..|lines| - 1]) + "\n" + lines[|lines| - 1]
  }

  /** A freshly opened form, or one just reset after a request, lacks
      exactly the employee number, the name and the position. */
  lemma BlankFormErrors(today: string, f: Form)
    requires today != ""
    ensures ValidationErrors(InitialForm(today)) == [NeedEmpId, NeedName, NeedPosition]
    ensures ValidationErrors(ResetForm(f, today)) == [NeedEmpId, NeedName, NeedPosition]
    ensures JoinLines(ValidationErrors(InitialForm(today))) == NeedEmpId + "\n" + NeedName + "\n" + NeedPosition
  {
    ValidationErrorsInOrder(InitialForm(today));
    ValidationErrorsInOrder(ResetForm(f, today));
    var e := [NeedEmpId, NeedName, NeedPosition];
    assert e[..|e| - 1] == [NeedEmpId, NeedName];
    assert [NeedEmpId, NeedName][..1] == [NeedEmpId];
  }

  /** The body of `POST /api/requests`. */
  datatype Payload = Payload(
    dateRequested: string,
    empId: string,
    name: string,
    dept: string,
    position: string,
    leaveType: string,
    startDate: string,
    endDate: string,
    note: string,
    status: HrShared.Status)

  /** The payload copies the form, dated today and pending. */
  function PayloadOf(f: Form, today: string): (p: Payload)
    ensures p.dateRequested == today && p.status == HrShared.Pending
    ensures p.empId == f.empId && p.name == f.name && p.dept == f.dept && p.position == f.position
    ensures p.leaveType == f.leaveType && p.startDate == f.startDate && p.endDate == f.endDate
    ensures p.note == f.note
  {
    Payload(today, f.empId, f.name, f.dept, f.position, f.leaveType, f.startDate, f.endDate, f.note, HrShared.Pending)
  }

  /** The form after a successful request: the person is cleared, the dates
      go back to today and the note to its default; dept and leave type are
      kept. */
  function ResetForm(f: Form, today: string): (g: Form)
    ensures g.empId == "" && g.name == "" && g.position == ""
    ensures g.startDate == today && g.endDate == today && g.note == DefaultNote
    ensures g.dept == f.dept && g.leaveType == f.leaveType
  {
    f.(empId := "", name := "", position := "", startDate := today, endDate := today, note := DefaultNote)
  }

  /** Resetting forgets everything but dept and leave type: two forms that
      agree on those reset alike, and the initial form with the default
      dept and leave type is a reset form. */
  lemma ResetForgets(f: Form, g: Form, today: string)
    requires f.dept == g.dept && f.leaveType == g.leaveType
    ensures ResetForm(f, today) == ResetForm(g, today)
    ensures ResetForm(InitialForm(today), today) == InitialForm(today)
  {
  }

  datatype Dialog = Dialog(open: bool, success: bool, message: string)

  const Done: string := "신청이 완료되었습니다."
  const SaveFailed: string := "저장 실패"

  /** The server's answer to the request: saved; refused with the `error` of
      its JSON body (`None` when there is none or the body is not JSON); or
      the request failed with an error of the given message and name. */
  datatype SaveReply = Saved | HttpError(error: Option<string>) | NetworkError(message: string, errorName: string)

  /** The message of the failure dialog: the error's message, or
      `String(e)`, which for an error without a message is its name. */
  function SaveErrorMessage(reply: SaveReply): (m: string)
    requires !reply.Saved?
    ensures reply.HttpError? ==> m == (if reply.error.Some? && reply.error.value != "" then reply.error.value else SaveFailed)
    ensures reply.HttpError? ==> m != ""
    ensures reply.NetworkError? && reply.message != "" ==> m == reply.message
  {
    match reply
    case HttpError(e) => if e.Some? && e.value != "" then e.value else SaveFailed
    case NetworkError(msg, errorName) => if msg != "" then msg else errorName
  }

  /** The answer to `GET /api/requests/recent`: failed, or a JSON body whose
      `data` is the given list (`None` when it is not an array). */
  datatype LoadReply = LoadFailed | Loaded(data: Option<seq<HrShared.LeaveRequest>>)

  /** The list after a load: a failure keeps the old one, a `data` that is
      not an array empties it. */
  function ListAfter(old_list: seq<HrShared.LeaveRequest>, reply: LoadReply): seq<HrShared.LeaveRequest>
  {
    match reply
    case LoadFailed => old_list
    case Loaded(None) => []
    case Loaded(Some(d)) => d
  }

  /** The checks at the top of `submit`, pushing a message for each empty
      required field. */
  method CollectErrors(f: Form) returns (errs: seq<string>)
    ensures errs == ValidationErrors(f)
  {
    ghost var e0, e1, e2, e3, e4 := Check((f.empId, NeedEmpId)), Check((f.name, NeedName)),
      Check((f.position, NeedPosition)), Check((f.startDate, NeedStart)), Check((f.endDate, NeedEnd));
    errs := [];
    if f.empId == "" { errs := errs + [NeedEmpId]; }
    assert errs == e0;
    if f.name == "" { errs := errs + [NeedName]; }
    assert errs == e0 + e1;
    if f.position == "" { errs := errs + [NeedPosition]; }
    assert errs == e0 + e1 + e2;
    if f.startDate == "" { errs := errs + [NeedStart]; }
    assert errs == e0 + e1 + e2 + e3;
    if f.endDate == "" { errs := errs + [NeedEnd]; }
    assert errs == e0 + e1 + e2 + e3 + e4;
    ValidationErrorsInOrder(f);
    Regroup(e0, e1, e2, e3, e4);
  }

  class LeavePage {
    var form: Form
    var dialog: Dialog
    var list: seq<HrShared.LeaveRequest>
    var loading: bool
    /** The payloads posted, oldest first. */
    var posted: seq<Payload>

    constructor(today: string)
      ensures form == InitialForm(today) && !dialog.open && list == [] && loading && posted == []
    {
      form := InitialForm(today);
      dialog := Dialog(false, false, "");
      list := [];
      loading := true;
      posted := [];
    }

    /** `load()`. */
    method Load(reply: LoadReply)
      modifies this
      ensures list == ListAfter(old(list), reply) && !loading
      ensures form == old(form) && dialog == old(dialog) && posted == old(posted)
    {
      loading := true;
      match reply {
        case LoadFailed =>
        case Loaded(data) =>
          list := if data.Some? then data.value else [];
      }
      loading := false;
    }

    /** `submit()`, with `today` the date of the clock reading, `reply` the
        server's answer and `reload` the answer to the reload that follows a
        saved request. */
    method Submit(today: string, reply: SaveReply, reload: LoadReply)
      modifies this
      ensures ValidationErrors(old(form)) != [] ==>
        && dialog == Dialog(true, false, JoinLines(ValidationErrors(old(form))))
        && form == old(form) && posted == old(posted) && list == old(list) && loading == old(loading)
      ensures ValidationErrors(old(form)) == [] ==> posted == old(posted) + [PayloadOf(old(form), today)]
      ensures ValidationErrors(old(form)) == [] && reply.Saved? ==>
        && dialog == Dialog(true, true, Done) && form == ResetForm(old(form), today)
        && list == ListAfter(old(list), reload) && !loading
      ensures ValidationErrors(old(form)) == [] && !reply.Saved? ==>
        && dialog == Dialog(true, false, SaveErrorMessage(reply))
        && form == old(form) && list == old(list) && loading == old(loading)
    {
      var errs := CollectErrors(form);
      if |errs| > 0 {
        dialog := Dialog(true, false, JoinLines(errs));
        return;
      }
      posted := posted + [PayloadOf(form, today)];
      if reply.Saved? {
        dialog := Dialog(true, true, Done);
        form := ResetForm(form, today);
        Load(reload);
      } else {
        dialog := Dialog(true, false, SaveErrorMessage(reply));
      }
    }
  }
}
