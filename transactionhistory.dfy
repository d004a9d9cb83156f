/** The transaction history page: the completed withdrawals the backend reports, narrowed
    by a case-insensitive wallet-address search, with a message for an empty listing and one
    icon per status. */
module TransactionHistory {
  import opened Wrappers
  import opened Withdrawals
  import JsArrays
  import JsStrings
  import RequestFilter

  /** One completed withdrawal as the backend lists it (`wallet_address`, `transaction_type`,
      `status`, `amount`, `signature`). */
  datatype CompletedWithdrawal = CompletedWithdrawal(
    id: string,
    walletAddress: string,
    transactionType: string,
    status: string,
    amount: real,
    signature: Option<string>)

  /** The icons a status or an action is drawn with. */
  datatype Icon = CheckCircle | XCircle | Eye

  const NothingRecordedMessage: string := "No transactions recorded yet"
  const NoMatchMessage: string := "No transactions found matching the search criteria"

  /** `filteredWithdrawals`: the search test is the console's address search. */
  function FilterHistory(withdrawals: seq<CompletedWithdrawal>, searchQuery: string): seq<CompletedWithdrawal> {
    JsArrays.Filter(withdrawals, (w: CompletedWithdrawal) => RequestFilter.MatchesSearch(w.walletAddress, searchQuery))
  }

  /** An empty query lists everything; a non-empty one keeps exactly the entries whose
      lower-cased address contains the lower-cased query, as often as they occur and in the
      fetched order. */
  lemma FilterHistoryExactly(withdrawals: seq<CompletedWithdrawal>, searchQuery: string)
    ensures searchQuery == "" ==> FilterHistory(withdrawals, searchQuery) == withdrawals
    ensures forall w :: w in FilterHistory(withdrawals, searchQuery) <==>
      w in withdrawals &&
      (searchQuery == "" || JsStrings.Includes(JsStrings.ToLowerCase(w.walletAddress), JsStrings.ToLowerCase(searchQuery)))
    ensures forall w ::
      (multiset(FilterHistory(withdrawals, searchQuery))[w] ==
       if RequestFilter.MatchesSearch(w.walletAddress, searchQuery) then multiset(withdrawals)[w] else 0)
    ensures JsArrays.IsSubsequence(FilterHistory(withdrawals, searchQuery), withdrawals)
  {
    var p := (w: CompletedWithdrawal) => RequestFilter.MatchesSearch(w.walletAddress, searchQuery);
    if searchQuery == "" {
      JsArrays.FilterCongruent(withdrawals, p, (w: CompletedWithdrawal) => true);
      FilterAll(withdrawals);
    }
    forall w ensures multiset(FilterHistory(withdrawals, searchQuery))[w] ==
      if RequestFilter.MatchesSearch(w.walletAddress, searchQuery) then multiset(withdrawals)[w] else 0
    {
      JsArrays.FilterCounts(withdrawals, p, w);
    }
    forall w ensures w in FilterHistory(withdrawals, searchQuery) <==> w in withdrawals && p(w) {
      JsArrays.FilterMembership(withdrawals, p, w);
    }
    JsArrays.FilterIsSubsequence(withdrawals, p);
  }

  lemma {:induction false} FilterAll(s: seq<CompletedWithdrawal>)
    ensures JsArrays.Filter(s, (w: CompletedWithdrawal) => true) == s
  {
    if s != [] {
      FilterAll(s[1..]);
      assert s == [s[0]] + s[1..];
    }
  }

  /** The placeholder row when the listing is empty, or `None` when it has rows. */
  function EmptyStateMessage(withdrawals: seq<CompletedWithdrawal>, searchQuery: string): Option<string> {
    if |FilterHistory(withdrawals, searchQuery)| != 0 then None
    else if |withdrawals| == 0 then Some(NothingRecordedMessage)
    else Some(NoMatchMessage)
  }

  /** The placeholder appears exactly when nothing is listed; it says nothing was recorded
      exactly when nothing was fetched, and the no-match message needs a non-empty query. */
  lemma EmptyStateMessageCases(withdrawals: seq<CompletedWithdrawal>, searchQuery: string)
    ensures EmptyStateMessage(withdrawals, searchQuery).Some? <==> FilterHistory(withdrawals, searchQuery) == []
    ensures EmptyStateMessage(withdrawals, searchQuery) == Some(NothingRecordedMessage) <==> withdrawals == []
    ensures EmptyStateMessage(withdrawals, searchQuery) == Some(NoMatchMessage) ==>
      withdrawals != [] && searchQuery != "" &&
      forall w :: w in withdrawals ==> !RequestFilter.MatchesSearch(w.walletAddress, searchQuery)
  {
    FilterHistoryExactly(withdrawals, searchQuery);
    assert NothingRecordedMessage != NoMatchMessage by {
      assert |NothingRecordedMessage| != |NoMatchMessage|;
    }
    if withdrawals != [] && FilterHistory(withdrawals, searchQuery) == [] {
      forall w | w in withdrawals ensures !RequestFilter.MatchesSearch(w.walletAddress, searchQuery) {
        JsArrays.FilterMembership(withdrawals, (w: CompletedWithdrawal) => RequestFilter.MatchesSearch(w.walletAddress, searchQuery), w);
      }
    }
  }

  /** `getStatusIcon`: the status is compared after lower-casing. */
  function StatusIcon(status: string): Icon {
    var s := JsStrings.ToLowerCase(status);
    if s == "successful" then CheckCircle
    else if s == "failed" then XCircle
    else Eye
  }

  /** The classification ignores case, and an icon other than the default is drawn exactly
      for the two known statuses, in any capitalisation. */
  lemma StatusIconIgnoresCase(status: string)
    ensures StatusIcon(status) == StatusIcon(JsStrings.ToLowerCase(status))
    ensures StatusIcon(status) == CheckCircle <==> JsStrings.ToLowerCase(status) == "successful"
    ensures StatusIcon(status) == XCircle <==> JsStrings.ToLowerCase(status) == "failed"
  {
  }

  /** `Successful` and `SUCCESSFUL` get the success icon, `FAILED` the failure icon, and
      `pending` the default. */
  lemma StatusIconExamples()
    ensures StatusIcon("Successful") == CheckCircle
    ensures StatusIcon("SUCCESSFUL") == CheckCircle
    ensures StatusIcon("FAILED") == XCircle
    ensures StatusIcon("pending") == Eye
  {
  }

  /** The amount is shown for `status === 'successful'`, compared without lower-casing. */
  predicate ShowsAmount(w: CompletedWithdrawal) {
    w.status == "successful"
  }

  /** The two tests on the status differ: a `Successful` entry gets the success icon but
      no amount. */
  lemma AmountTestIsCaseSensitive(w: CompletedWithdrawal)
    requires w.status == JsStrings.Capitalize(Successful)
    ensures StatusIcon(w.status) == CheckCircle && !ShowsAmount(w)
  {
  }

  /** The row's heading: the transaction type with its first letter upper-cased, which
      keeps its length and reads the same to a case-insensitive comparison. */
  function TypeLabel(w: CompletedWithdrawal): (r: string)
    ensures |r| == |w.transactionType|
    ensures JsStrings.ToLowerCase(r) == JsStrings.ToLowerCase(w.transactionType)
    ensures w.transactionType != [] ==> r[1..] == w.transactionType[1..]
  {
    JsStrings.CapitalizeShape(w.transactionType);
    JsStrings.Capitalize(w.transactionType)
  }
}
