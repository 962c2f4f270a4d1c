/** Exactly-once posting of cash sales and stock adjustments: what the transaction
    protocol guarantees about hashes, said of the fields of the requests. */
module ExactlyOnce {
  import opened Text
  import opened Calendar
  import opened CanonicalJson
  import opened Posting
  import CashSale
  import StockAdjustment

  type byte = CanonicalJson.byte

  ghost predicate SaleAccepted(r: CashSale.Request)
  {
    ValidDate(r.documentDate) && forall i :: 0 <= i < |r.lines| ==> CashSale.Validate(r.lines[i]).None?
  }

  ghost function SaleHash<D>(sha: seq<byte> -> D, r: CashSale.Request): Option<D>
  {
    if ValidDate(r.documentDate) then Some(PayloadHash(sha, CashSale.SaleJson(r))) else None
  }

  /** How `confirm_cash_sale` reaches the database. */
  ghost function SaleEnvironment<D>(sha: seq<byte> -> D, uuid: string -> Option<int>): Environment<CashSale.Request, Option<D>>
  {
    Environment(r => SaleAccepted(r), (r: CashSale.Request) => uuid(r.requestId), r => SaleHash(sha, r))
  }

  /** Over any run of cash-sale calls: a second call under an answered request id never
      posts again. It is given the id that was answered before exactly when its fields
      are the same, and a conflict otherwise. */
  lemma SaleRetry<D(!new)>(sha: seq<byte> -> D, uuid: string -> Option<int>, s: State<CashSale.Request, Option<D>>,
                           steps: seq<Step<CashSale.Request>>, i: nat, retry: CashSale.Request)
    requires CollisionFree(sha) && Reached(SaleEnvironment(sha, uuid), s, steps)
    requires i < |s.answers| && s.answers[i].outcome.Done?
    requires ValidDate(retry.documentDate) && forall i :: 0 <= i < |retry.lines| ==> CashSale.Validate(retry.lines[i]).None?
    requires uuid(retry.requestId) == uuid(s.answers[i].request.requestId)
    ensures !Enabled(SaleEnvironment(sha, uuid), s, Reserve(retry))
    ensures Enabled(SaleEnvironment(sha, uuid), s, Replay(retry))
    ensures Apply(SaleEnvironment(sha, uuid), s, Replay(retry)) == Answered(s, retry,
              if CashSale.SameSale(retry, s.answers[i].request) then s.answers[i].outcome else Conflict)
  {
    RetryAnswer(SaleEnvironment(sha, uuid), s, steps, i, retry);
    CashSale.SamePayloadIffSameSale(retry, s.answers[i].request);
  }

  /** Over any run, all answers with a document under one request id name the same
      document and describe the same sale. */
  lemma SaleAnswersAgree<D(!new)>(sha: seq<byte> -> D, uuid: string -> Option<int>, s: State<CashSale.Request, Option<D>>,
                                  steps: seq<Step<CashSale.Request>>, i: nat, k: nat)
    requires CollisionFree(sha) && Reached(SaleEnvironment(sha, uuid), s, steps)
    requires i < |s.answers| && s.answers[i].outcome.Done?
    requires k < |s.answers| && s.answers[k].outcome.Done?
    requires uuid(s.answers[i].request.requestId) == uuid(s.answers[k].request.requestId)
    ensures s.answers[i].outcome == s.answers[k].outcome
    ensures CashSale.SameSale(s.answers[i].request, s.answers[k].request)
  {
    AnswersAgree(SaleEnvironment(sha, uuid), s, steps, i, k);
    CashSale.SamePayloadIffSameSale(s.answers[i].request, s.answers[k].request);
  }

  /** A conflict is answered only when another sale was posted under the id. */
  lemma SaleConflictIsReal<D(!new)>(sha: seq<byte> -> D, uuid: string -> Option<int>, s: State<CashSale.Request, Option<D>>,
                                    steps: seq<Step<CashSale.Request>>, i: nat) returns (d: int)
    requires Reached(SaleEnvironment(sha, uuid), s, steps)
    requires i < |s.answers| && s.answers[i].outcome.Conflict?
    ensures d in s.documents && uuid(s.documents[d].requestId) == uuid(s.answers[i].request.requestId)
    ensures !CashSale.SameSale(s.documents[d], s.answers[i].request)
  {
    d := ConflictIsReal(SaleEnvironment(sha, uuid), s, steps, i);
    if ValidDate(s.documents[d].documentDate) && ValidDate(s.answers[i].request.documentDate) {
      CashSale.SamePayloadIffSameSale(s.documents[d], s.answers[i].request);
    }
  }

  /** Nothing is posted for a sale with a line that its own check refuses. */
  lemma OnlyValidSales<D(!new)>(sha: seq<byte> -> D, uuid: string -> Option<int>, s: State<CashSale.Request, Option<D>>,
                                steps: seq<Step<CashSale.Request>>, i: nat)
    requires Reached(SaleEnvironment(sha, uuid), s, steps)
    requires i < |s.answers| && s.answers[i].outcome.Done?
    ensures forall k :: 0 <= k < |s.answers[i].request.lines| ==> CashSale.Validate(s.answers[i].request.lines[k]).None?
  {
    AnswersAgree(SaleEnvironment(sha, uuid), s, steps, i, i);
  }

  ghost predicate AdjustmentAccepted(r: StockAdjustment.Request)
  {
    ValidDate(r.documentDate) && r.quantityDelta.coefficient != 0
    && !(r.reason.Other? && StockAdjustment.NormalizeNote(r.note).None?)
  }

  ghost function AdjustmentHash<D>(sha: seq<byte> -> D, r: StockAdjustment.Request): Option<D>
  {
    if ValidDate(r.documentDate) then Some(PayloadHash(sha, StockAdjustment.AdjustmentJson(r))) else None
  }

  /** How `confirm_stock_adjustment` reaches the database. */
  ghost function AdjustmentEnvironment<D>(sha: seq<byte> -> D, uuid: string -> Option<int>)
    : Environment<StockAdjustment.Request, Option<D>>
  {
    Environment(r => AdjustmentAccepted(r), (r: StockAdjustment.Request) => uuid(r.requestId), r => AdjustmentHash(sha, r))
  }

  /** The same for stock adjustments, whose notes count without surrounding space. */
  lemma AdjustmentRetry<D(!new)>(sha: seq<byte> -> D, uuid: string -> Option<int>, s: State<StockAdjustment.Request, Option<D>>,
                                 steps: seq<Step<StockAdjustment.Request>>, i: nat, retry: StockAdjustment.Request)
    requires CollisionFree(sha) && Reached(AdjustmentEnvironment(sha, uuid), s, steps)
    requires i < |s.answers| && s.answers[i].outcome.Done?
    requires ValidDate(retry.documentDate) && retry.quantityDelta.coefficient != 0
    requires !retry.reason.Other? || (retry.note.Some? && !AllWhiteSpace(retry.note.value))
    requires uuid(retry.requestId) == uuid(s.answers[i].request.requestId)
    ensures !Enabled(AdjustmentEnvironment(sha, uuid), s, Reserve(retry))
    ensures Enabled(AdjustmentEnvironment(sha, uuid), s, Replay(retry))
    ensures Apply(AdjustmentEnvironment(sha, uuid), s, Replay(retry)) == Answered(s, retry,
              if StockAdjustment.SameAdjustment(retry, s.answers[i].request) then s.answers[i].outcome else Conflict)
  {
    var _, _ := StockAdjustment.NormalizedNote(retry.note);
    RetryAnswer(AdjustmentEnvironment(sha, uuid), s, steps, i, retry);
    StockAdjustment.SamePayloadIffSameAdjustment(retry, s.answers[i].request);
  }

  /** No adjustment is posted by nothing, and none for another reason without a note that
      says something. */
  lemma OnlyValidAdjustments<D(!new)>(sha: seq<byte> -> D, uuid: string -> Option<int>,
                                      s: State<StockAdjustment.Request, Option<D>>,
                                      steps: seq<Step<StockAdjustment.Request>>, i: nat)
    requires Reached(AdjustmentEnvironment(sha, uuid), s, steps)
    requires i < |s.answers| && s.answers[i].outcome.Done?
    ensures s.answers[i].request.quantityDelta.coefficient != 0
    ensures s.answers[i].request.reason.Other? ==>
              s.answers[i].request.note.Some? && !AllWhiteSpace(s.answers[i].request.note.value)
  {
    AnswersAgree(AdjustmentEnvironment(sha, uuid), s, steps, i, i);
    var _, _ := StockAdjustment.NormalizedNote(s.answers[i].request.note);
  }
}
