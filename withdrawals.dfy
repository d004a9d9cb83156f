/** The entities shared by the console's pages: pending withdrawal requests, the bulk
    actions an operator can take, and local history entries. */
module Withdrawals {
  import opened Wrappers
  import JsArrays
  import JsStrings

  /** A pending withdrawal as the console holds it. `action` (the origin tag, `win`, `lose`
      or `withdraw`) and `status` are the backend's text, never checked against those
      lists; `timestamp` is milliseconds since the epoch; `amount` is carried, never computed on. */
  datatype WithdrawalRequest = WithdrawalRequest(
    id: string,
    walletAddress: string,
    amount: real,
    timestamp: int,
    action: string,
    status: string)

  datatype BulkAction = Approve | Reject | Review

  /** A local history entry: one per bulk action the operator performed. */
  datatype Transaction = Transaction(
    id: string,
    action: BulkAction,
    requestIds: seq<string>,
    timestamp: int,
    performedBy: string,
    signature: Option<string>)

  /** The identifiers of a list of requests, in list order. */
  function Ids(requests: seq<WithdrawalRequest>): (r: seq<string>)
    ensures |r| == |requests|
    ensures forall i :: 0 <= i < |requests| ==> r[i] == requests[i].id
  {
    if requests == [] then [] else [requests[0].id] + Ids(requests[1..])
  }

  /** `requests.filter(w => ids.includes(w.id))`, used both to resolve a selection and to
      list the requests a history entry involved. */
  function WithIds(requests: seq<WithdrawalRequest>, ids: seq<string>): seq<WithdrawalRequest> {
    JsArrays.Filter(requests, (w: WithdrawalRequest) => w.id in ids)
  }

  /** Exactly the requests whose id is listed, each as often as in `requests`, in the
      order of `requests` (not of `ids`); ids that match nothing are dropped. */
  lemma WithIdsExactly(requests: seq<WithdrawalRequest>, ids: seq<string>)
    ensures forall w :: w in WithIds(requests, ids) <==> w in requests && w.id in ids
    ensures forall w :: multiset(WithIds(requests, ids))[w] == if w.id in ids then multiset(requests)[w] else 0
    ensures JsArrays.IsSubsequence(WithIds(requests, ids), requests)
  {
    var p := (w: WithdrawalRequest) => w.id in ids;
    forall w ensures multiset(WithIds(requests, ids))[w] == if w.id in ids then multiset(requests)[w] else 0 {
      JsArrays.FilterCounts(requests, p, w);
    }
    JsArrays.FilterIsSubsequence(requests, p);
  }

  /** The statuses a settled and a rejected batch are posted with. */
  const Successful: string := "successful"
  const Failed: string := "failed"

  /** Both posted statuses are already lower case. */
  lemma PostedStatusesAreLower()
    ensures JsStrings.ToLowerCase(Successful) == Successful
    ensures JsStrings.ToLowerCase(Failed) == Failed
  {
  }

  const ExplorerPrefix: string := "https://explorer.solana.com/tx/"
  const ExplorerSuffix: string := "?cluster=devnet"

  /** `signature && <a …>`: the explorer link is rendered for a present, non-empty signature. */
  predicate ShowsExplorerLink(signature: Option<string>) {
    signature.Some? && signature.value != ""
  }

  /** The devnet explorer page of a transaction signature. */
  function ExplorerUrl(signature: string): string {
    ExplorerPrefix + signature + ExplorerSuffix
  }

  /** The link names its signature: the signature is what lies between the fixed prefix and
      suffix, so different signatures give different links. */
  lemma ExplorerUrlNamesSignature(signature: string, other: string)
    ensures var url := ExplorerUrl(signature);
      && |url| == |ExplorerPrefix| + |signature| + |ExplorerSuffix|
      && url[..|ExplorerPrefix|] == ExplorerPrefix
      && url[|ExplorerPrefix|..|url| - |ExplorerSuffix|] == signature
      && url[|url| - |ExplorerSuffix|..] == ExplorerSuffix
    ensures ExplorerUrl(signature) == ExplorerUrl(other) ==> signature == other
  {
  }
}
