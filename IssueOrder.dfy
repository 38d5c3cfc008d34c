/**
 * The order-issue page (src/pages/IssueOrder.jsx): an order id is sent to be
 * issued. The page state is a class whose fields are the component's state
 * hooks; the backend is the function `backend` from a request to its reply.
 */
module IssueOrderPage {
  import opened Wrappers
  import opened Text
  import opened Backend

  /** The page's state hooks. */
  class IssueOrderForm {
    var orderId: string
    var showScanner: bool
    var loading: bool
    var status: Status

    /** The page as it opens: an empty box, no banner. */
    constructor ()
      ensures orderId == "" && !showScanner && !loading && status == Cleared
    {
      orderId := "";
      showScanner := false;
      loading := false;
      status := Cleared;
    }

    /**
     * `handleIssue`. A blank order id does nothing. Otherwise the order id is
     * sent as typed, untrimmed; a successful reply clears it, any other reply
     * keeps it, and the banner shows the reply's message or the thrown error's.
     * `sent` is the request made, if any; the loading flag ends false after a call.
     */
    method HandleIssue<D>(backend: Request -> Reply<D>) returns (sent: Option<Request>)
      modifies this
      ensures showScanner == old(showScanner)
      ensures sent.Some? <==> !IsBlank(old(orderId))
      ensures sent.None? ==>
                orderId == old(orderId) && loading == old(loading) && status == old(status)
      ensures sent.Some? ==>
                sent.value == IssueOrder(old(orderId)) && !loading
                && status == StatusAfter(backend(sent.value))
                && orderId == (if backend(sent.value).Succeeded() then "" else old(orderId))
    {
      TrimEmptyIff(orderId);
      if Trim(orderId) == "" {
        return None;
      }
      loading := true;
      status := Cleared;
      var request := IssueOrder(orderId);
      var reply := backend(request);
      sent := Some(request);
      if reply.Succeeded() {
        status := Status(SuccessStatus, reply.message);
        orderId := "";
      } else if reply.Envelope? {
        status := Status(ErrorStatus, reply.message);
      } else {
        status := Status(ErrorStatus, reply.error);
      }
      loading := false;
    }

    /** `handleScan`: the decoded text becomes the order id and the scanner closes; nothing is sent. */
    method HandleScan(decodedText: string)
      modifies this
      ensures orderId == decodedText && !showScanner
      ensures loading == old(loading) && status == old(status)
    {
      orderId := decodedText;
      showScanner := false;
    }
  }
}
