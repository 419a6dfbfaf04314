/** The manager's approve-with-signature dialog (pages/ManagerPage.tsx and
    the review page of ManagerAndHrPages.tsx): opening it for a request,
    receiving the pad's signature, and submitting the approval. The two
    copies differ in the signature check before sending: the pages copy only
    asks for a non-empty value, the consolidated copy also requires a PNG or
    JPEG data URL. */
module Approval {
  import opened Wrappers
  import opened HrShared
  import Text

  /** The outcome of `POST /api/requests/<id>/approve`: approved, or refused
      with the message of the error it raised. */
  datatype ApproveReply = Approved | Refused(message: string)

  const NoSignature: string := "서명을 입력하세요."
  const ApproveFailed: string := "승인 실패"

  /** The check before sending: the pages copy tests `!signDataUrl`, the
      consolidated copy also tests `/^data:image\/(png|jpeg);base64,/`. */
  predicate SignatureAccepted(v: Variant, sig: Option<string>)
  {
    Text.Truthy(sig) && (v == Consolidated ==> IsImageDataUrl(sig.value))
  }

  /** The consolidated check is the stricter one. */
  lemma ConsolidatedStricter(sig: Option<string>)
    ensures SignatureAccepted(Consolidated, sig) ==> SignatureAccepted(Pages, sig)
    ensures SignatureAccepted(Pages, sig) && IsImageDataUrl(sig.value) ==> SignatureAccepted(Consolidated, sig)
  {
  }

  /** A value the pad never produces, such as "x", is sent by the pages copy
      but stopped by the consolidated one. */
  lemma ChecksDiffer()
    ensures SignatureAccepted(Pages, Some("x")) && !SignatureAccepted(Consolidated, Some("x"))
  {
    assert !Text.StartsWith("x", PngPrefix) && !Text.StartsWith("x", JpegPrefix);
  }

  /** The message shown after a failed approval. */
  function FailureMessage(message: string): (m: string)
    ensures m != ""
    ensures message != "" ==> m == message
  {
    if message != "" then message else ApproveFailed
  }

  class SignDialog {
    const variant: Variant
    var open: bool
    var targetId: Option<string>
    var dataUrl: Option<string>
    var busy: bool
    var error: Option<string>
    /** The approvals sent: request id and signature. */
    var sent: seq<(string, string)>
    /** How often the list was reloaded after an approval. */
    var reloads: nat

    constructor(v: Variant)
      ensures variant == v && !open && targetId.None? && dataUrl.None? && !busy && error.None?
      ensures sent == [] && reloads == 0
    {
      variant := v;
      open := false;
      targetId := None;
      dataUrl := None;
      busy := false;
      error := None;
      sent := [];
      reloads := 0;
    }

    /** `openApproveWithSign(id)`. */
    method OpenApproveWithSign(id: string)
      modifies this
      ensures targetId == Some(id) && dataUrl.None? && error.None? && open
      ensures busy == old(busy) && sent == old(sent) && reloads == old(reloads)
    {
      targetId := Some(id);
      dataUrl := None;
      error := None;
      open := true;
    }

    /** The pad's `onChange` (`setSignDataUrl`). */
    method SetSignature(v: Option<string>)
      modifies this
      ensures dataUrl == v
      ensures open == old(open) && targetId == old(targetId) && error == old(error)
      ensures busy == old(busy) && sent == old(sent) && reloads == old(reloads)
    {
      dataUrl := v;
    }

    /** `submitApproval`, with `reply` the server's answer should the
        approval be sent. */
    method SubmitApproval(reply: ApproveReply)
      modifies this
      ensures !Text.Truthy(old(targetId)) ==>
        open == old(open) && dataUrl == old(dataUrl) && error == old(error) && busy == old(busy)
        && sent == old(sent) && reloads == old(reloads)
      ensures Text.Truthy(old(targetId)) && !SignatureAccepted(variant, old(dataUrl)) ==>
        error == Some(NoSignature) && open == old(open) && busy == old(busy)
        && sent == old(sent) && reloads == old(reloads)
      ensures Text.Truthy(old(targetId)) && SignatureAccepted(variant, old(dataUrl)) ==>
        && sent == old(sent) + [(old(targetId).value, old(dataUrl).value)]
        && !busy
        && (reply.Approved? ==> !open && error.None? && reloads == old(reloads) + 1)
        && (reply.Refused? ==> open == old(open) && error == Some(FailureMessage(reply.message))
                                && reloads == old(reloads))
      ensures targetId == old(targetId) && dataUrl == old(dataUrl)
    {
      if !Text.Truthy(targetId) {
        return;
      }
      if !SignatureAccepted(variant, dataUrl) {
        error := Some(NoSignature);
        return;
      }
      busy := true;
      error := None;
      sent := sent + [(targetId.value, dataUrl.value)];
      match reply {
        case Approved =>
          open := false;
          reloads := reloads + 1;
        case Refused(message) =>
          error := Some(FailureMessage(message));
      }
      busy := false;
    }
  }

  /** Whatever the variant, opening the dialog and submitting without drawing
      sends nothing and asks for a signature. */
  method OpenThenSubmitUnsigned(d: SignDialog, id: string, reply: ApproveReply)
    requires id != ""
    modifies d
    ensures d.error == Some(NoSignature) && d.open && d.sent == old(d.sent)
  {
    d.OpenApproveWithSign(id);
    d.SubmitApproval(reply);
  }
}
