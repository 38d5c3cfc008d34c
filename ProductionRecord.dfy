/**
 * The production-record page (src/pages/ProductionRecord.jsx): an order id and,
 * on the finish tab, a quantity are sent as a start or finish event. The page
 * state is a class whose fields are the component's state hooks; the backend
 * is the function `backend` from a request to its reply.
 */
module ProductionRecordPage {
  import opened Wrappers
  import opened Text
  import opened Numbers
  import opened Backend

  /** The two tabs of the page. */
  datatype Tab = StartTab | FinishTab

  /** The error shown for a missing or negative quantity. */
  const InvalidQuantityMessage := "請輸入有效的數量"

  /**
   * `quantity === '' || parseInt(quantity) < 0`. A quantity without digits
   * parses to NaN, and `NaN < 0` is false, so such a quantity is not invalid.
   */
  predicate QuantityInvalid(quantity: string) {
    quantity == "" || (ParseInt(quantity).Some? && ParseInt(quantity).value < 0)
  }

  /** The written form of a negative number is refused. */
  lemma NegativeQuantityInvalid(n: int, rest: string)
    requires n < 0 && (rest == [] || !IsDigit(rest[0]))
    ensures QuantityInvalid(IntToString(n) + rest)
  {
    ParseIntReadsWritten(n, rest);
  }

  /** Text holding no digit passes the check, and is then sent as NaN (JSON `null`). */
  lemma NonNumericQuantityAccepted(quantity: string)
    requires quantity != "" && forall i :: 0 <= i < |quantity| ==> !IsDigit(quantity[i])
    ensures !QuantityInvalid(quantity) && ParseInt(quantity) == None
  {
    ParseIntNoDigits(quantity);
  }

  /** The page's state hooks. */
  class ProductionRecordForm {
    var activeTab: Tab
    var orderId: string
    var quantity: string
    var showScanner: bool
    var loading: bool
    var status: Status

    /** The page as it opens: the start tab, empty boxes, no banner. */
    constructor ()
      ensures activeTab == StartTab && orderId == "" && quantity == ""
      ensures !showScanner && !loading && status == Cleared
    {
      activeTab := StartTab;
      orderId := "";
      quantity := "";
      showScanner := false;
      loading := false;
      status := Cleared;
    }

    /**
     * `handleSubmit`. A blank order id does nothing. Otherwise the start tab
     * sends the order id as typed; the finish tab first refuses a missing or
     * negative quantity with an error banner, and sends `parseInt(quantity)`
     * otherwise. A successful reply clears the order id, and the quantity on
     * the finish tab; any other reply keeps both. `sent` is the request made,
     * if any, and the loading flag ends false on every path past the blank check.
     */
    method HandleSubmit<D>(backend: Request -> Reply<D>) returns (sent: Option<Request>)
      modifies this
      ensures activeTab == old(activeTab) && showScanner == old(showScanner)
      ensures IsBlank(old(orderId)) ==>
                sent == None && orderId == old(orderId) && quantity == old(quantity)
                && loading == old(loading) && status == old(status)
      ensures !IsBlank(old(orderId)) ==> !loading
      ensures !IsBlank(old(orderId)) && activeTab == FinishTab && QuantityInvalid(old(quantity)) ==>
                sent == None && status == Status(ErrorStatus, InvalidQuantityMessage)
                && orderId == old(orderId) && quantity == old(quantity)
      ensures sent.Some? <==>
                !IsBlank(old(orderId)) && !(activeTab == FinishTab && QuantityInvalid(old(quantity)))
      ensures sent.Some? ==>
                sent.value == (if activeTab == StartTab then StartWork(old(orderId))
                               else FinishWork(old(orderId), ParseInt(old(quantity))))
                && status == StatusAfter(backend(sent.value))
      ensures sent.Some? && backend(sent.value).Succeeded() ==>
                orderId == "" && quantity == (if activeTab == FinishTab then "" else old(quantity))
      ensures sent.Some? && !backend(sent.value).Succeeded() ==>
                orderId == old(orderId) && quantity == old(quantity)
    {
      TrimEmptyIff(orderId);
      if Trim(orderId) == "" {
        return None;
      }
      loading := true;
      status := Cleared;
      if activeTab == FinishTab && QuantityInvalid(quantity) {
        // the validation error is thrown inside the `try` and caught below
        status := Status(ErrorStatus, InvalidQuantityMessage);
        sent := None;
      } else {
        var request := if activeTab == StartTab then StartWork(orderId)
                       else FinishWork(orderId, ParseInt(quantity));
        var reply := backend(request);
        sent := Some(request);
        if reply.Succeeded() {
          status := Status(SuccessStatus, reply.message);
          orderId := "";
          if activeTab == FinishTab {
            quantity := "";
          }
        } else if reply.Envelope? {
          status := Status(ErrorStatus, reply.message);
        } else {
          status := Status(ErrorStatus, reply.error);
        }
      }
      loading := false;
    }

    /** `handleScan`: the decoded text becomes the order id and the scanner closes. */
    method HandleScan(decodedText: string)
      modifies this
      ensures orderId == decodedText && !showScanner
      ensures activeTab == old(activeTab) && quantity == old(quantity)
      ensures loading == old(loading) && status == old(status)
    {
      orderId := decodedText;
      showScanner := false;
    }
  }
}
