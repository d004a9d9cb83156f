/** The main console's state and its bulk-settlement workflow (`handleBulkAction`):
    approving pays the selected requests in one chain transfer and reports them to the
    backend as settled; rejecting reports them as failed; any other action only adds a
    history entry. The chain transfer, the backend's answers, the clock and the random
    history id are supplied as an `Oracle`. Everything the workflow does to the outside
    world (alerts, the processing flag, calls, the success toast) is appended to an event
    log, so that what did NOT happen can be stated too. */
module Settlement {
  import opened Wrappers
  import opened Withdrawals
  import JsArrays
  import JsStrings
  import RequestFilter

  /** A row of `GET /api/admin/pending-withdrawals`, with `created_at` already a time value. */
  datatype BackendWithdrawal = BackendWithdrawal(
    id: string,
    walletAddress: string,
    amount: real,
    createdAt: int,
    transactionType: string,
    status: string)

  /** One `(toWallet, amount)` pair handed to the chain transfer. */
  datatype TransferItem = TransferItem(toWallet: string, amount: real)

  /** One element of the body of `POST /api/admin/completed-transactions`. */
  datatype CompletedRecord = CompletedRecord(id: string, signature: Option<string>, status: string, updatedAt: int)

  datatype Event =
    | Alert(message: string)
    | Busy(on: bool)                                   // isProcessing was set to `on`
    | TransferCall(payer: string, transfers: seq<TransferItem>)
    | PostCompleted(records: seq<CompletedRecord>)
    | FetchPending
    | SuccessToast

  /** What the chain transfer does: one signature for the whole batch, or a thrown error. */
  datatype TransferOutcome = Signed(signature: string) | TransferFailed

  /** What fetching the pending list yields: a thrown error (network or JSON), or a body. */
  datatype PendingResponse = FetchThrew | Responded(success: bool, withdrawals: seq<BackendWithdrawal>)

  /** The outcomes of everything the workflow cannot decide by itself. */
  datatype Oracle = Oracle(
    transfer: TransferOutcome,
    postOk: bool,
    refresh: PendingResponse,
    historyId: string,
    now: int)

  /** The part of the console's state the workflow reads and writes. */
  datatype ConsoleState = ConsoleState(
    requests: seq<WithdrawalRequest>,
    history: seq<Transaction>,
    processing: bool,
    log: seq<Event>)

  const LoseMessage: string := "Cannot approve requests with \"lose\" action. Please deselect these items."
  const ApproveFailedMessage: string := "Failed to process transfers. Please try again."
  const RejectFailedMessage: string := "Failed to reject transactions. Please try again."
  const LoadFailedMessage: string := "Failed to load withdrawal requests"
  const Unknown: string := "Unknown"

  // ---------------------------------------------------------------- mapping backend rows

  /** The mapping of the initial load: the status text is kept as the backend sends it. */
  function FromBackend(w: BackendWithdrawal): WithdrawalRequest {
    WithdrawalRequest(w.id, w.walletAddress, w.amount, w.createdAt, w.transactionType, w.status)
  }

  /** The mapping of a refresh after a bulk action: the status gets a capital first letter. */
  function FromBackendCapitalized(w: BackendWithdrawal): WithdrawalRequest {
    FromBackend(w).(status := JsStrings.Capitalize(w.status))
  }

  function MapFromBackend(ws: seq<BackendWithdrawal>): seq<WithdrawalRequest> {
    seq(|ws|, i requires 0 <= i < |ws| => FromBackend(ws[i]))
  }

  function MapFromBackendCapitalized(ws: seq<BackendWithdrawal>): seq<WithdrawalRequest> {
    seq(|ws|, i requires 0 <= i < |ws| => FromBackendCapitalized(ws[i]))
  }

  datatype RefreshResult = RefreshResult(requests: seq<WithdrawalRequest>, threw: bool)

  /** The refresh at the end of a successful bulk action: the store is replaced only when
      the body says `success`; a throw leaves it and is reported to the caller. */
  function Refresh(store: seq<WithdrawalRequest>, response: PendingResponse): RefreshResult {
    match response
    case FetchThrew => RefreshResult(store, true)
    case Responded(success, ws) =>
      RefreshResult(if success then MapFromBackendCapitalized(ws) else store, false)
  }

  // ---------------------------------------------------------------- building the batch

  /** `selectedRequests.some(request => request.action === 'lose')` */
  predicate HasLoseAction(selected: seq<WithdrawalRequest>) {
    exists i | 0 <= i < |selected| :: selected[i].action == "lose"
  }

  /** `selectedRequests.some(request => request.status !== 'Pending' && request.status !== 'Rejected')`;
      the workflow computes it and never looks at it. */
  predicate HasInvalidStatus(selected: seq<WithdrawalRequest>) {
    exists i | 0 <= i < |selected| :: selected[i].status != "Pending" && selected[i].status != "Rejected"
  }

  function Transfers(selected: seq<WithdrawalRequest>): seq<TransferItem> {
    seq(|selected|, i requires 0 <= i < |selected| => TransferItem(selected[i].walletAddress, selected[i].amount))
  }

  function CompletedRecords(selected: seq<WithdrawalRequest>, signature: Option<string>, status: string, now: int)
    : seq<CompletedRecord>
  {
    seq(|selected|, i requires 0 <= i < |selected| => CompletedRecord(selected[i].id, signature, status, now))
  }

  /** `publicKey ? publicKey.toString() : 'Unknown'` */
  function PerformedBy(publicKey: Option<string>): string {
    if publicKey.Some? then publicKey.value else Unknown
  }

  /** The records posted for a batch: one per resolved request, in the same order, all
      with the same signature and status. */
  ghost predicate RecordsFor(records: seq<CompletedRecord>, selected: seq<WithdrawalRequest>,
                             signature: Option<string>, status: string) {
    && |records| == |selected|
    && forall i :: 0 <= i < |records| ==>
         records[i].id == selected[i].id && records[i].signature == signature && records[i].status == status
  }

  // ---------------------------------------------------------------- the workflow

  /** `handleBulkAction(action, ids)` run to completion with the wallet key `publicKey`. */
  function BulkActionStep(s: ConsoleState, action: BulkAction, ids: seq<string>,
                          publicKey: Option<string>, o: Oracle): ConsoleState
  {
    var selected := WithIds(s.requests, ids);
    if action == Approve && publicKey.Some? then
      if HasLoseAction(selected) then s.(log := s.log + [Alert(LoseMessage)])
      else ApproveStep(s, selected, ids, publicKey.value, o)
    else if action == Reject then
      RejectStep(s, selected, ids, publicKey, o)
    else
      s.(history := [Transaction(o.historyId, action, ids, o.now, PerformedBy(publicKey), None)] + s.history)
  }

  /** The approve branch once the batch passed validation. */
  function ApproveStep(s: ConsoleState, selected: seq<WithdrawalRequest>, ids: seq<string>,
                       key: string, o: Oracle): ConsoleState
  {
    var started := s.log + [Busy(true), TransferCall(key, Transfers(selected))];
    match o.transfer
    case TransferFailed =>
      s.(processing := false, log := started + [Alert(ApproveFailedMessage), Busy(false)])
    case Signed(signature) =>
      var posted := started + [PostCompleted(CompletedRecords(selected, Some(signature), Successful, o.now))];
      if !o.postOk then
        s.(processing := false, log := posted + [Alert(ApproveFailedMessage), Busy(false)])
      else
        var entry := Transaction(o.historyId, Approve, ids, o.now, key, Some(signature));
        var r := Refresh(s.requests, o.refresh);
        s.(requests := r.requests, history := [entry] + s.history, processing := false,
           log := posted + [SuccessToast, FetchPending]
                  + (if r.threw then [Alert(ApproveFailedMessage)] else []) + [Busy(false)])
  }

  /** The reject branch: no chain interaction. */
  function RejectStep(s: ConsoleState, selected: seq<WithdrawalRequest>, ids: seq<string>,
                      publicKey: Option<string>, o: Oracle): ConsoleState
  {
    var posted := s.log + [Busy(true), PostCompleted(CompletedRecords(selected, None, Failed, o.now))];
    if !o.postOk then
      s.(processing := false, log := posted + [Alert(RejectFailedMessage), Busy(false)])
    else
      var entry := Transaction(o.historyId, Reject, ids, o.now, PerformedBy(publicKey), None);
      var r := Refresh(s.requests, o.refresh);
      s.(requests := r.requests, history := [entry] + s.history, processing := false,
         log := posted + [FetchPending]
                + (if r.threw then [Alert(RejectFailedMessage)] else [SuccessToast]) + [Busy(false)])
  }

  /** The events a step appended. */
  function Appended(s: ConsoleState, t: ConsoleState): seq<Event>
    requires |s.log| <= |t.log|
  {
    t.log[|s.log|..]
  }

  /** A step that went into processing left it again: the new events open with setting the
      flag, close with clearing it, and touch it nowhere in between. */
  ghost predicate Bracketed(events: seq<Event>) {
    && |events| >= 2
    && events[0] == Busy(true)
    && events[|events| - 1] == Busy(false)
    && forall i :: 0 < i < |events| - 1 ==> !events[i].Busy?
  }

  // ---------------------------------------------------------------- properties

  /** An approve with a connected wallet and a `lose` request among the resolved ones is
      refused as a whole: one alert, and nothing else happens. */
  lemma ApproveWithLoseIsRefused(s: ConsoleState, ids: seq<string>, key: string, o: Oracle, lose: WithdrawalRequest)
    requires lose in s.requests && lose.id in ids && lose.action == "lose"
    ensures var t := BulkActionStep(s, Approve, ids, Some(key), o);
      && t.requests == s.requests && t.history == s.history && t.processing == s.processing
      && t.log == s.log + [Alert(LoseMessage)]
  {
    WithIdsExactly(s.requests, ids);
    var selected := WithIds(s.requests, ids);
    var i :| 0 <= i < |selected| && selected[i] == lose;
    assert HasLoseAction(selected);
  }

  /** Approve and reject, whatever the oracle says, set the processing flag before their
      first call and clear it after their last, and leave it cleared. */
  lemma ProcessingFlagIsReset(s: ConsoleState, action: BulkAction, ids: seq<string>,
                              publicKey: Option<string>, o: Oracle)
    requires action == Reject || (action == Approve && publicKey.Some? && !HasLoseAction(WithIds(s.requests, ids)))
    ensures var t := BulkActionStep(s, action, ids, publicKey, o);
      |s.log| <= |t.log| && Bracketed(Appended(s, t)) && !t.processing
  {
  }

  /** A fully successful approve: the batch resolved in store order is paid in one transfer
      from the operator's key, posted as settled with that one signature, and recorded as
      one history entry listing the ids as dispatched. */
  lemma ApproveSettlesBatch(s: ConsoleState, ids: seq<string>, key: string, o: Oracle)
    requires !HasLoseAction(WithIds(s.requests, ids))
    requires o.transfer.Signed? && o.postOk
    ensures var t := BulkActionStep(s, Approve, ids, Some(key), o);
      var selected := WithIds(s.requests, ids);
      var events := Appended(s, t);
      && |events| >= 5
      && events[1].TransferCall? && events[1].payer == key && |events[1].transfers| == |selected|
      && (forall i :: 0 <= i < |selected| ==>
            events[1].transfers[i] == TransferItem(selected[i].walletAddress, selected[i].amount))
      && (forall i :: 0 <= i < |events| && i != 1 ==> !events[i].TransferCall?)
      && events[2].PostCompleted?
      && RecordsFor(events[2].records, selected, Some(o.transfer.signature), Successful)
      && (forall i :: 0 <= i < |events| && i != 2 ==> !events[i].PostCompleted?)
      && t.history == [Transaction(o.historyId, Approve, ids, o.now, key, Some(o.transfer.signature))] + s.history
      && t.requests == Refresh(s.requests, o.refresh).requests
      && !t.processing
  {
  }

  /** A reject pays nothing: it posts one `failed` record without signature per resolved
      request and, once the backend accepts, records one entry by the key or `Unknown`. */
  lemma RejectMarksFailed(s: ConsoleState, ids: seq<string>, publicKey: Option<string>, o: Oracle)
    ensures var t := BulkActionStep(s, Reject, ids, publicKey, o);
      var events := Appended(s, t);
      && |events| >= 3
      && (forall i :: 0 <= i < |events| ==> !events[i].TransferCall?)
      && events[1].PostCompleted?
      && RecordsFor(events[1].records, WithIds(s.requests, ids), None, Failed)
      && (forall i :: 0 <= i < |events| && i != 1 ==> !events[i].PostCompleted?)
      && (o.postOk ==>
            t.history == [Transaction(o.historyId, Reject, ids, o.now,
                                      if publicKey.Some? then publicKey.value else "Unknown", None)] + s.history
            && t.requests == Refresh(s.requests, o.refresh).requests)
      && !t.processing
  {
  }

  /** A backend that refuses the post (or a transfer that fails) leaves the store and the
      history as they were, raises an alert and clears the flag. The chain transfer of an
      approve has then already been attempted: nothing reconciles it. */
  lemma FailureLeavesStore(s: ConsoleState, action: BulkAction, ids: seq<string>,
                           publicKey: Option<string>, o: Oracle)
    requires action == Reject || (action == Approve && publicKey.Some? && !HasLoseAction(WithIds(s.requests, ids)))
    requires !o.postOk || (action == Approve && o.transfer.TransferFailed?)
    ensures var t := BulkActionStep(s, action, ids, publicKey, o);
      && t.requests == s.requests && t.history == s.history && !t.processing
      && |t.log| >= |s.log| + 2 && t.log[|t.log| - 2].Alert?
      && (action == Approve ==> t.log[|s.log| + 1] == TransferCall(publicKey.value, Transfers(WithIds(s.requests, ids))))
  {
  }

  /** `review`, or `approve` without a connected wallet: a history entry and nothing else. */
  lemma OtherActionsOnlyRecord(s: ConsoleState, action: BulkAction, ids: seq<string>,
                               publicKey: Option<string>, o: Oracle)
    requires action == Review || (action == Approve && publicKey.None?)
    ensures var t := BulkActionStep(s, action, ids, publicKey, o);
      && t.requests == s.requests && t.processing == s.processing && t.log == s.log
      && t.history == [Transaction(o.historyId, action, ids, o.now,
                                   if publicKey.Some? then publicKey.value else "Unknown", None)] + s.history
  {
  }

  /** Only an approve made with a connected wallet records a signature, so only its
      history entry gets an explorer link, and then exactly when the transfer's signature
      is not empty. Every step adds at most one entry, in front. */
  lemma ExplorerLinkOnlyForApprovals(s: ConsoleState, action: BulkAction, ids: seq<string>,
                                     publicKey: Option<string>, o: Oracle)
    ensures var t := BulkActionStep(s, action, ids, publicKey, o);
      && (t.history == s.history || (|t.history| == |s.history| + 1 && t.history[1..] == s.history))
      && (t.history != s.history ==>
            && (t.history[0].signature.Some? <==> action == Approve && publicKey.Some?)
            && (ShowsExplorerLink(t.history[0].signature) <==>
                  action == Approve && publicKey.Some? && o.transfer.Signed? && o.transfer.signature != ""))
  {
  }

  /** Two stores that differ only in the status of their requests. */
  ghost predicate SameButStatus(a: seq<WithdrawalRequest>, b: seq<WithdrawalRequest>) {
    |a| == |b| && forall i :: 0 <= i < |a| ==> a[i].(status := b[i].status) == b[i]
  }

  lemma {:induction false} WithIdsSameButStatus(a: seq<WithdrawalRequest>, b: seq<WithdrawalRequest>, ids: seq<string>)
    requires SameButStatus(a, b)
    ensures SameButStatus(WithIds(a, ids), WithIds(b, ids))
  {
    if a != [] {
      assert a[0].id == b[0].id;
      assert SameButStatus(a[1..], b[1..]) by {
        forall i | 0 <= i < |a[1..]| ensures a[1..][i].(status := b[1..][i].status) == b[1..][i] {
          assert a[1..][i] == a[i + 1] && b[1..][i] == b[i + 1];
        }
      }
      WithIdsSameButStatus(a[1..], b[1..], ids);
    }
  }

  /** The status-eligibility check on approve is inert: the statuses of the requests never
      change what the workflow calls, posts, records or alerts. */
  lemma StatusNeverConsulted(s1: ConsoleState, s2: ConsoleState, action: BulkAction, ids: seq<string>,
                             publicKey: Option<string>, o: Oracle)
    requires SameButStatus(s1.requests, s2.requests)
    requires s1.history == s2.history && s1.processing == s2.processing && s1.log == s2.log
    ensures var t1, t2 := BulkActionStep(s1, action, ids, publicKey, o), BulkActionStep(s2, action, ids, publicKey, o);
      t1.log == t2.log && t1.history == t2.history && t1.processing == t2.processing
  {
    var sel1, sel2 := WithIds(s1.requests, ids), WithIds(s2.requests, ids);
    WithIdsSameButStatus(s1.requests, s2.requests, ids);
    assert Transfers(sel1) == Transfers(sel2);
    forall sig: Option<string>, st: string ensures CompletedRecords(sel1, sig, st, o.now) == CompletedRecords(sel2, sig, st, o.now) {
    }
    assert HasLoseAction(sel1) == HasLoseAction(sel2) by {
      forall i | 0 <= i < |sel1| ensures sel1[i].action == sel2[i].action {
        assert sel1[i].(status := sel2[i].status) == sel2[i];
      }
    }
  }

  /** A refresh replaces the store only on a `success` body; the replacement lists the
      backend rows in order with the status capitalized and every other field copied. */
  lemma RefreshReplacesOnSuccess(store: seq<WithdrawalRequest>, response: PendingResponse)
    ensures Refresh(store, response).threw <==> response.FetchThrew?
    ensures Refresh(store, response).requests != store ==> response.Responded? && response.success
    ensures response.Responded? && response.success ==>
      var ws, r := response.withdrawals, Refresh(store, response).requests;
      && |r| == |ws|
      && forall i :: 0 <= i < |ws| ==>
           && r[i].id == ws[i].id && r[i].walletAddress == ws[i].walletAddress && r[i].amount == ws[i].amount
           && r[i].timestamp == ws[i].createdAt && r[i].action == ws[i].transactionType
           && |r[i].status| == |ws[i].status|
           && (ws[i].status != "" ==> r[i].status[0] == JsStrings.ToUpperChar(ws[i].status[0])
                                      && r[i].status[1..] == ws[i].status[1..])
  {
  }

  /** The default status filter is `pending`. A row the backend reports as `pending` passes
      it after the initial load, but fails it once a refresh has capitalized it to `Pending`. */
  lemma DefaultFilterAfterRefresh(w: BackendWithdrawal)
    requires w.status == "pending"
    ensures RequestFilter.MatchesExactly(Some("pending"), FromBackend(w).status)
    ensures !RequestFilter.MatchesExactly(Some("pending"), FromBackendCapitalized(w).status)
  {
  }

  // ---------------------------------------------------------------- the console object

  class AdminConsole {
    var withdrawalRequests: seq<WithdrawalRequest>
    var transactions: seq<Transaction>
    var isProcessing: bool
    var log: seq<Event>
    var isLoading: bool
    var error: Option<string>
    var timeRange: RequestFilter.TimeRange
    var selectedAction: Option<string>
    var selectedStatus: Option<string>
    var searchQuery: string
    var currentPage: int
    var itemsPerPage: int

    function State(): ConsoleState
      reads this
    {
      ConsoleState(withdrawalRequests, transactions, isProcessing, log)
    }

    /** The state at mount, before the first fetch. */
    constructor ()
      ensures State() == ConsoleState([], [], false, [])
      ensures isLoading && error.None?
      ensures timeRange == RequestFilter.YearToDate && selectedAction.None?
      ensures selectedStatus == Some("pending") && searchQuery == ""
      ensures currentPage == 1 && itemsPerPage == 10
    {
      withdrawalRequests, transactions, isProcessing, log := [], [], false, [];
      isLoading, error := true, None;
      timeRange, selectedAction, selectedStatus, searchQuery := RequestFilter.YearToDate, None, Some("pending"), "";
      currentPage, itemsPerPage := 1, 10;
    }

    /** The list handed to the table at time `now`: the stored requests the four filter
        fields let through, in store order. */
    function FilteredWithdrawals(now: int): (r: seq<WithdrawalRequest>)
      reads this
      ensures forall w :: w in r <==>
        w in withdrawalRequests && RequestFilter.Matches(w, timeRange, selectedAction, selectedStatus, searchQuery, now)
      ensures JsArrays.IsSubsequence(r, withdrawalRequests)
    {
      RequestFilter.FilterWithdrawalsExactly(withdrawalRequests, timeRange, selectedAction, selectedStatus, searchQuery, now);
      RequestFilter.FilterWithdrawals(withdrawalRequests, timeRange, selectedAction, selectedStatus, searchQuery, now)
    }

    /** The fetch on mount: on a `success` body the store takes the rows with their status
      as sent; otherwise an error banner is set and the store keeps what it had. */
    method LoadWithdrawals(response: PendingResponse)
      modifies this`withdrawalRequests, this`error, this`isLoading
      ensures !isLoading
      ensures response.Responded? && response.success ==>
        withdrawalRequests == MapFromBackend(response.withdrawals) && error.None?
      ensures !(response.Responded? && response.success) ==>
        withdrawalRequests == old(withdrawalRequests) && error == Some(LoadFailedMessage)
    {
      isLoading := true;
      if response.Responded? && response.success {
        withdrawalRequests := MapFromBackend(response.withdrawals);
        error := None;
      } else {
        error := Some(LoadFailedMessage);
      }
      isLoading := false;
    }

    method SetProcessing(on: bool)
      modifies this`isProcessing, this`log
      ensures isProcessing == on && log == old(log) + [Busy(on)]
    {
      isProcessing := on;
      log := log + [Busy(on)];
    }

    /** Re-fetches the pending list; returns whether the fetch threw. */
    method RefreshRequests(response: PendingResponse) returns (threw: bool)
      modifies this`withdrawalRequests, this`log
      ensures log == old(log) + [FetchPending]
      ensures RefreshResult(withdrawalRequests, threw) == Refresh(old(withdrawalRequests), response)
    {
      log := log + [FetchPending];
      threw := response.FetchThrew?;
      if response.Responded? && response.success {
        withdrawalRequests := MapFromBackendCapitalized(response.withdrawals);
      }
    }

    /** `handleBulkAction(action, ids)`, run as one sequential call. */
    method HandleBulkAction(action: BulkAction, ids: seq<string>, publicKey: Option<string>, o: Oracle)
      modifies this`withdrawalRequests, this`transactions, this`isProcessing, this`log
      ensures State() == BulkActionStep(old(State()), action, ids, publicKey, o)
    {
      if action == Approve && publicKey.Some? {
        var selectedRequests := WithIds(withdrawalRequests, ids);
        if HasLoseAction(selectedRequests) {
          log := log + [Alert(LoseMessage)];
          return;
        }
        var hasInvalidStatus := HasInvalidStatus(selectedRequests);
        ApproveBatch(selectedRequests, ids, publicKey.value, o);
      } else if action == Reject {
        RejectBatch(ids, publicKey, o);
      } else {
        transactions := [Transaction(o.historyId, action, ids, o.now, PerformedBy(publicKey), None)] + transactions;
      }
    }

    /** The approve branch after validation: transfer, post, record, refresh; any throw
        ends in an alert, and the flag is cleared in every case. */
    method ApproveBatch(selectedRequests: seq<WithdrawalRequest>, ids: seq<string>, key: string, o: Oracle)
      modifies this`withdrawalRequests, this`transactions, this`isProcessing, this`log
      ensures State() == ApproveStep(old(State()), selectedRequests, ids, key, o)
    {
      SetProcessing(true);
      var threw := false;
      log := log + [TransferCall(key, Transfers(selectedRequests))];
      match o.transfer {
        case TransferFailed =>
          threw := true;
        case Signed(signature) =>
          log := log + [PostCompleted(CompletedRecords(selectedRequests, Some(signature), Successful, o.now))];
          if !o.postOk {
            threw := true;
          } else {
            log := log + [SuccessToast];
            transactions := [Transaction(o.historyId, Approve, ids, o.now, key, Some(signature))] + transactions;
            threw := RefreshRequests(o.refresh);
          }
      }
      if threw {
        log := log + [Alert(ApproveFailedMessage)];
      }
      SetProcessing(false);
    }

    /** The reject branch: post, record, refresh, toast; any throw ends in an alert, and the
        flag is cleared in every case. */
    method RejectBatch(ids: seq<string>, publicKey: Option<string>, o: Oracle)
      modifies this`withdrawalRequests, this`transactions, this`isProcessing, this`log
      ensures State() == RejectStep(old(State()), WithIds(old(withdrawalRequests), ids), ids, publicKey, o)
    {
      SetProcessing(true);
      var threw := false;
      var selectedRequests := WithIds(withdrawalRequests, ids);
      log := log + [PostCompleted(CompletedRecords(selectedRequests, None, Failed, o.now))];
      if !o.postOk {
        threw := true;
      } else {
        transactions := [Transaction(o.historyId, Reject, ids, o.now, PerformedBy(publicKey), None)] + transactions;
        threw := RefreshRequests(o.refresh);
        if !threw {
          log := log + [SuccessToast];
        }
      }
      if threw {
        log := log + [Alert(RejectFailedMessage)];
      }
      SetProcessing(false);
    }
  }
}
