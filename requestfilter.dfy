/** `filterWithdrawals` of the main console: the list the operator sees is the request
    store narrowed by a time window, an origin-tag filter, a status filter and a
    case-insensitive wallet-address search, all four combined with AND. */
module RequestFilter {
  import opened Wrappers
  import opened Withdrawals
  import JsArrays
  import JsStrings
  import Calendar

  datatype TimeRange = Last24h | Last3d | Last7d | Last30d | YearToDate

  /** The length in days of a sliding window. */
  function WindowDays(range: TimeRange): int
    requires !range.YearToDate?
  {
    match range
    case Last24h => 1
    case Last3d => 3
    case Last7d => 7
    case Last30d => 30
  }

  /** The time test: the age in (fractional) days is at most the window, or for the
      year-to-date range, the request's calendar year is the current one. */
  predicate MatchesTime(r: WithdrawalRequest, range: TimeRange, now: int) {
    var daysDiff := (now - r.timestamp) as real / Calendar.MsPerDay as real;
    match range
    case Last24h => daysDiff <= 1.0
    case Last3d => daysDiff <= 3.0
    case Last7d => daysDiff <= 7.0
    case Last30d => daysDiff <= 30.0
    case YearToDate => Calendar.YearOf(r.timestamp) == Calendar.YearOf(now)
  }

  /** `!filter || value === filter`: no filter, or the empty one, lets everything through;
      otherwise the comparison is exact and case-sensitive. */
  predicate MatchesExactly(filter: Option<string>, value: string) {
    filter.None? || filter.value == "" || value == filter.value
  }

  /** `!search || address.toLowerCase().includes(search.toLowerCase())` */
  predicate MatchesSearch(address: string, search: string) {
    search == "" || JsStrings.Includes(JsStrings.ToLowerCase(address), JsStrings.ToLowerCase(search))
  }

  predicate Matches(r: WithdrawalRequest, range: TimeRange, action: Option<string>,
                    status: Option<string>, search: string, now: int) {
    && MatchesTime(r, range, now)
    && MatchesExactly(action, r.action)
    && MatchesExactly(status, r.status)
    && MatchesSearch(r.walletAddress, search)
  }

  /** `filterWithdrawals(requests, range, action, status, search)` evaluated at time `now`. */
  function FilterWithdrawals(requests: seq<WithdrawalRequest>, range: TimeRange, action: Option<string>,
                             status: Option<string>, search: string, now: int): seq<WithdrawalRequest> {
    JsArrays.Filter(requests, (r: WithdrawalRequest) => Matches(r, range, action, status, search, now))
  }

  /** The sliding windows are inclusive thresholds on the age in milliseconds, so a request
      stamped in the future always passes; the year-to-date range keeps exactly the requests
      stamped from 1 January of the current year (UTC) to the end of that year, so one stamped
      later this year passes as well. */
  lemma TimeWindow(r: WithdrawalRequest, range: TimeRange, now: int)
    ensures !range.YearToDate? ==>
      (MatchesTime(r, range, now) <==> now - r.timestamp <= WindowDays(range) * Calendar.MsPerDay)
    ensures !range.YearToDate? && r.timestamp >= now ==> MatchesTime(r, range, now)
    ensures range.YearToDate? ==>
      (MatchesTime(r, range, now) <==>
        var year := Calendar.YearOf(now);
        Calendar.DaysBeforeYear(year) * Calendar.MsPerDay <= r.timestamp < Calendar.DaysBeforeYear(year + 1) * Calendar.MsPerDay)
  {
    Calendar.YearOfCharacterised(r.timestamp, Calendar.YearOf(now));
  }

  /** A request is listed exactly when all four tests pass, as often as it is in the store,
      and the listing keeps the store's order. */
  lemma FilterWithdrawalsExactly(requests: seq<WithdrawalRequest>, range: TimeRange, action: Option<string>,
                                 status: Option<string>, search: string, now: int)
    ensures forall r :: r in FilterWithdrawals(requests, range, action, status, search, now) <==>
      && r in requests
      && MatchesTime(r, range, now)
      && MatchesExactly(action, r.action)
      && MatchesExactly(status, r.status)
      && MatchesSearch(r.walletAddress, search)
    ensures forall r ::
      (multiset(FilterWithdrawals(requests, range, action, status, search, now))[r] ==
       if Matches(r, range, action, status, search, now) then multiset(requests)[r] else 0)
    ensures JsArrays.IsSubsequence(FilterWithdrawals(requests, range, action, status, search, now), requests)
  {
    var p := (r: WithdrawalRequest) => Matches(r, range, action, status, search, now);
    forall r ensures multiset(FilterWithdrawals(requests, range, action, status, search, now))[r] ==
      if Matches(r, range, action, status, search, now) then multiset(requests)[r] else 0
    {
      JsArrays.FilterCounts(requests, p, r);
    }
    forall r ensures r in FilterWithdrawals(requests, range, action, status, search, now) <==>
      r in requests && Matches(r, range, action, status, search, now)
    {
      JsArrays.FilterMembership(requests, p, r);
    }
    JsArrays.FilterIsSubsequence(requests, p);
  }

  /** AND semantics: applying the four tests as four filters, one after another, gives
      the same list as the combined filter. */
  lemma FilterWithdrawalsStaged(requests: seq<WithdrawalRequest>, range: TimeRange, action: Option<string>,
                                status: Option<string>, search: string, now: int)
    ensures FilterWithdrawals(requests, range, action, status, search, now) ==
      var byTime := JsArrays.Filter(requests, (r: WithdrawalRequest) => MatchesTime(r, range, now));
      var byAction := JsArrays.Filter(byTime, (r: WithdrawalRequest) => MatchesExactly(action, r.action));
      var byStatus := JsArrays.Filter(byAction, (r: WithdrawalRequest) => MatchesExactly(status, r.status));
      JsArrays.Filter(byStatus, (r: WithdrawalRequest) => MatchesSearch(r.walletAddress, search))
  {
    var t := (r: WithdrawalRequest) => MatchesTime(r, range, now);
    var a := (r: WithdrawalRequest) => MatchesExactly(action, r.action);
    var s := (r: WithdrawalRequest) => MatchesExactly(status, r.status);
    var q := (r: WithdrawalRequest) => MatchesSearch(r.walletAddress, search);
    var ta := (r: WithdrawalRequest) => t(r) && a(r);
    var tas := (r: WithdrawalRequest) => ta(r) && s(r);
    var all := (r: WithdrawalRequest) => Matches(r, range, action, status, search, now);
    JsArrays.FilterFilter(requests, t, a, ta);
    JsArrays.FilterFilter(requests, ta, s, tas);
    JsArrays.FilterFilter(requests, tas, q, all);
  }

  /** The search is a substring test on lower-cased text: a non-empty query passes exactly
      when it occurs, ignoring case, somewhere in the address. */
  lemma SearchIsCaseInsensitiveSubstring(address: string, search: string)
    requires search != ""
    ensures MatchesSearch(address, search) <==>
      exists i :: JsStrings.OccursAt(JsStrings.ToLowerCase(address), JsStrings.ToLowerCase(search), i)
    ensures MatchesSearch(address, search) <==>
      MatchesSearch(JsStrings.ToLowerCase(address), JsStrings.ToLowerCase(search))
  {
    JsStrings.IncludesIffOccurs(JsStrings.ToLowerCase(address), JsStrings.ToLowerCase(search));
    JsStrings.ToLowerCaseIdempotent(address);
    JsStrings.ToLowerCaseIdempotent(search);
  }

  /** The status test does not fold case: the filter value `pending` rejects the status `Pending`. */
  lemma StatusFilterIsCaseSensitive(r: WithdrawalRequest)
    requires r.status == "Pending"
    ensures !MatchesExactly(Some("pending"), r.status)
    ensures MatchesExactly(Some("Pending"), r.status)
  {
  }
}
