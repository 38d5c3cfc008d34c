/**
 * The first-article inspection page (src/pages/QCRecord.jsx): an order id is
 * sent as a QC record, and the record the backend returns is shown until the
 * next submit. The page state is a class whose fields are the component's
 * state hooks; the backend is the function `backend` from a request to its reply.
 */
module QCRecordPage {
  import opened Wrappers
  import opened Text
  import opened Backend
  import QueryOrder

  /** The record a successful QC call returns. */
  datatype QcData = QcData(orderId: string, issueTime: string, qcTime: string, imageUrl: string)

  /** The error shown for a blank order id. */
  const MissingOrderIdMessage := "請輸入製令編號"

  /** `formatDate` on this page: `"-"` for an absent timestamp, else its locale display. */
  function FormatDate(display: string -> string, s: string): (r: string)
    ensures s == "" ==> r == "-"
    ensures s != "" ==> r == display(s)
  {
    if s == "" then "-" else display(s)
  }

  /** This page and the query page show a timestamp alike, except an absent one. */
  lemma FormatDateAgreesWithQuery(display: string -> string, s: string)
    ensures FormatDate(display, s) == QueryOrder.FormatDate(display, s) <==> s != ""
  {
  }

  /** The page's state hooks. */
  class QCRecordForm {
    var orderId: string
    var showScanner: bool
    var loading: bool
    var status: Status
    var successData: Option<QcData>

    /** The page as it opens: an empty box, no banner, no record shown. */
    constructor ()
      ensures orderId == "" && !showScanner && !loading && status == Cleared && successData == None
    {
      orderId := "";
      showScanner := false;
      loading := false;
      status := Cleared;
      successData := None;
    }

    /**
     * `handleSubmit`. A blank order id only shows an error banner. Otherwise
     * the banner and the shown record are cleared and the order id is sent as
     * typed; a successful reply shows its record and clears the order id, any
     * other reply shows an error and keeps the order id, with no record shown.
     * `sent` is the request made, if any; the loading flag ends false after a call.
     */
    method HandleSubmit(backend: Request -> Reply<QcData>) returns (sent: Option<Request>)
      modifies this
      ensures showScanner == old(showScanner)
      ensures sent.Some? <==> !IsBlank(old(orderId))
      ensures IsBlank(old(orderId)) ==>
                status == Status(ErrorStatus, MissingOrderIdMessage)
                && orderId == old(orderId) && loading == old(loading) && successData == old(successData)
      ensures sent.Some? ==>
                sent.value == QcRecord(old(orderId)) && !loading
                && status == StatusAfter(backend(sent.value))
      ensures sent.Some? && backend(sent.value).Succeeded() ==>
                orderId == "" && successData == Some(backend(sent.value).data)
      ensures sent.Some? && !backend(sent.value).Succeeded() ==>
                orderId == old(orderId) && successData == None
    {
      TrimEmptyIff(orderId);
      if Trim(orderId) == "" {
        status := Status(ErrorStatus, MissingOrderIdMessage);
        return None;
      }
      loading := true;
      status := Cleared;
      successData := None;
      var request := QcRecord(orderId);
      var reply := backend(request);
      sent := Some(request);
      if reply.Succeeded() {
        status := Status(SuccessStatus, reply.message);
        successData := Some(reply.data);
        orderId := "";
      } else if reply.Envelope? {
        status := Status(ErrorStatus, reply.message);
      } else {
        status := Status(ErrorStatus, reply.error);
      }
      loading := false;
    }

    /** `handleScan`: the decoded text becomes the order id and the scanner closes. */
    method HandleScan(decodedText: string)
      modifies this
      ensures orderId == decodedText && !showScanner
      ensures loading == old(loading) && status == old(status) && successData == old(successData)
    {
      orderId := decodedText;
      showScanner := false;
    }
  }
}
