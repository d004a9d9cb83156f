/** The details page of one local history entry: the entry is looked up by the route's id,
    and shows its action, how many requests it covered, who performed it, an explorer link
    when it has a signature, and the requests of the current store it involved. */
module TransactionDetails {
  import opened Wrappers
  import opened Withdrawals
  import JsArrays
  import TransactionHistory

  /** `transactions.find(t => t.id === id)`; a missing route parameter matches nothing. */
  function FindTransaction(transactions: seq<Transaction>, routeId: Option<string>): Option<Transaction> {
    if routeId.None? then None
    else JsArrays.Find(transactions, (t: Transaction) => t.id == routeId.value)
  }

  /** The not-found view is shown exactly when no entry carries the route's id; otherwise
      the entry shown carries it and no earlier entry does. */
  lemma FindTransactionFirst(transactions: seq<Transaction>, routeId: Option<string>)
    ensures FindTransaction(transactions, routeId).None? <==>
      routeId.None? || forall i :: 0 <= i < |transactions| ==> transactions[i].id != routeId.value
    ensures FindTransaction(transactions, routeId).Some? ==>
      var t := FindTransaction(transactions, routeId).value;
      routeId.Some? && t.id == routeId.value &&
      exists i :: 0 <= i < |transactions| && transactions[i] == t &&
        forall j :: 0 <= j < i ==> transactions[j].id != routeId.value
  {
    if routeId.Some? {
      JsArrays.FindFirst(transactions, (t: Transaction) => t.id == routeId.value);
    }
  }

  /** `withdrawals.filter(w => transaction.requestIds.includes(w.id))` */
  function InvolvedWithdrawals(transaction: Transaction, withdrawals: seq<WithdrawalRequest>): seq<WithdrawalRequest> {
    WithIds(withdrawals, transaction.requestIds)
  }

  /** Exactly the store's requests whose id the entry lists, in store order; requests that
      have left the store since are not shown, so the table can be shorter than the count
      in the heading. */
  lemma InvolvedWithdrawalsExactly(transaction: Transaction, withdrawals: seq<WithdrawalRequest>)
    ensures forall w :: w in InvolvedWithdrawals(transaction, withdrawals) <==>
      w in withdrawals && w.id in transaction.requestIds
    ensures JsArrays.IsSubsequence(InvolvedWithdrawals(transaction, withdrawals), withdrawals)
    ensures (forall w :: w in withdrawals ==> w.id !in transaction.requestIds) ==>
      InvolvedWithdrawals(transaction, withdrawals) == []
  {
    WithIdsExactly(withdrawals, transaction.requestIds);
  }

  /** `getActionText` */
  function ActionText(action: BulkAction): string {
    match action
    case Approve => "Approved"
    case Reject => "Rejected"
    case Review => "Reviewed"
  }

  /** `getActionIcon` */
  function ActionIcon(action: BulkAction): TransactionHistory.Icon {
    match action
    case Approve => TransactionHistory.CheckCircle
    case Reject => TransactionHistory.XCircle
    case Review => TransactionHistory.Eye
  }

  /** Every action has its own text and its own icon, so the heading tells them apart. */
  lemma ActionLabelsDistinct(a: BulkAction, b: BulkAction)
    ensures ActionText(a) == ActionText(b) <==> a == b
    ensures ActionIcon(a) == ActionIcon(b) <==> a == b
  {
  }

  /** The details page draws an approve as the history page draws a `successful` record and
      a reject as a `failed` one: the statuses a settled batch is posted with. */
  lemma ActionIconMatchesPostedStatus()
    ensures ActionIcon(Approve) == TransactionHistory.StatusIcon(Successful)
    ensures ActionIcon(Reject) == TransactionHistory.StatusIcon(Failed)
  {
  }

  /** `requestIds.length === 1 ? 'request' : 'requests'` */
  function RequestNoun(count: nat): string {
    if count == 1 then "request" else "requests"
  }

  /** The heading ends in the singular noun exactly when the entry covers one request. */
  lemma HeadingNoun(transaction: Transaction)
    ensures RequestNoun(|transaction.requestIds|) == "request" <==> |transaction.requestIds| == 1
    ensures RequestNoun(|transaction.requestIds|) == "requests" <==> |transaction.requestIds| != 1
  {
  }
}
