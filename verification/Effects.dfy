// What each request makes of the rows, field by field: told from the stored rows and PhonePe's answer alone.
module Effects {
  import opened Basics
  import opened StatusMaps
  import opened Ledger
  import opened LedgerInvariants
  import LedgerResults
  import Reconciliation

  // The tenant has no order of this merchant order id.
  ghost predicate NewKey(s: Store, t: TenantId, m: string) {
    forall id :: id in s.orders ==> !HasKey(s.orders[id], t, m)
  }

  // The request schema of a creation.
  predicate WellFormed(d: OrderCreate) {
    d.merchantOrderId != "" && |d.merchantOrderId| < 256 && d.amount >= 1 && |d.currency| < 11
  }

  // ---------- Order creation ----------

  // A creation opens an order exactly when it is well formed, its key and id are new, its tenant exists and
  // PhonePe accepts it. The order carries the request's terms, and PhonePe's id and checkout address in
  // their own fields; its first entry carries its amount.
  lemma CreateOpens(s: Store, t: TenantId, d: OrderCreate, id: OrderId, now: int, pp: InitAnswer)
    requires Inv(s)
    ensures var ev := Create(t, d, id, now, pp);
            var outcome := Serve(s, ev).outcome;
            if WellFormed(d) && NewKey(s, t, d.merchantOrderId) && id !in s.orders && t in s.tenants && pp.InitOk? then
              var o := Order(t, d.merchantOrderId, pp.phonepeId, d.amount, d.currency, Pending, d.redirectUrl,
                             pp.checkoutUrl, None, None, now);
              && outcome == Returned(OrderAnswer(id, o, true))
              && Step(s, ev) == s.(orders := s.orders[id := o],
                                   txns := s.txns + [Txn(id, Payment, d.amount, Pending, pp.state, pp.phonepeId)])
            else Step(s, ev) == s && (outcome.Returned? ==> !outcome.answer.created)
  {
    hide Inv, Find;
    InvKeys(s);
    FindSpec(s.orders, t, d.merchantOrderId);
  }

  // A repeated creation returns the order that has the key, as it stands.
  lemma CreateRepeats(s: Store, d: OrderCreate, id: OrderId, newId: OrderId, now: int, pp: InitAnswer)
    requires Inv(s) && id in s.orders && WellFormed(d) && s.orders[id].merchantOrderId == d.merchantOrderId
    ensures Serve(s, Create(s.orders[id].tenant, d, newId, now, pp)).outcome
         == Returned(OrderAnswer(id, s.orders[id], false))
  {
    hide Inv, Find;
    InvKeys(s);
    FindUnique(s.orders, id);
  }

  // Why a creation fails. What PhonePe refused was flushed as a FAILED row with the reason; the session still
  // holds it when the exception leaves the handler.
  lemma CreateFails(s: Store, t: TenantId, d: OrderCreate, id: OrderId, now: int, pp: InitAnswer)
    requires Inv(s) && (WellFormed(d) ==> NewKey(s, t, d.merchantOrderId))
    ensures var r := Serve(s, Create(t, d, id, now, pp));
            var taken := id in s.orders || t !in s.tenants;
            && (r.outcome == Raised(Invalid) <==> !WellFormed(d))
            && (r.outcome == Raised(IntegrityError) <==> WellFormed(d) && taken)
            && (r.outcome == Raised(DecryptError) <==> WellFormed(d) && !taken && pp.InitUnreadable?)
            && (r.outcome == Raised(PhonePeError) <==> WellFormed(d) && !taken && pp.InitRaised?)
            && (r.outcome == Raised(PhonePeError) ==>
                  r.work == s.(orders := s.orders[id :=
                    Order(t, d.merchantOrderId, None, d.amount, d.currency, Failed, d.redirectUrl, None,
                          Some("PHONEPE_INIT_FAILED"), Some(pp.message), now)]))
            && (r.outcome == Raised(DecryptError) ==>
                  r.work == s.(orders := s.orders[id :=
                    Order(t, d.merchantOrderId, None, d.amount, d.currency, Created, d.redirectUrl, None,
                          None, None, now)]))
  {
    hide Inv, Find;
    InvKeys(s);
    FindSpec(s.orders, t, d.merchantOrderId);
  }

  // Polls and refunds of an order that the tenant does not have.
  lemma UnknownOrder(s: Store, t: TenantId, m: string, force: bool, pp: PollAnswer, d: RefundCreate, rp: RefundAnswer)
    requires Inv(s) && NewKey(s, t, m)
    ensures Serve(s, Poll(t, m, force, pp)).outcome == Raised(OrderNotFound)
    ensures ValidRefund(d) ==> Serve(s, RefundRequest(t, m, d, rp)).outcome == Raised(OrderNotFound)
  {
    hide Inv, Find;
    InvKeys(s);
    FindSpec(s.orders, t, m);
  }

  // ---------- Polls ----------

  // A poll asks PhonePe when it is forced or the order is CREATED or PENDING. The order then takes the status
  // PhonePe's state reads as, and nothing else; an entry is added exactly when that is a change.
  lemma PollEffect(s: Store, id: OrderId, force: bool, pp: PollAnswer)
    requires Inv(s) && id in s.orders
    ensures var o := s.orders[id];
            var ev := Poll(o.tenant, o.merchantOrderId, force, pp);
            var s' := Step(s, ev);
            var asks := pp.PollOk? && (force || o.status == Created || o.status == Pending);
            var status := if asks then PollStatus(if pp.state.Some? then pp.state.value else "None") else o.status;
            && s'.orders == s.orders[id := o.(status := status)]
            && s'.tenants == s.tenants && s'.logs == s.logs
            && s'.txns == (if status == o.status then s.txns else
                 s.txns + [Txn(id, Payment, o.amount, if status == Completed then Success else status, pp.state,
                               if pp.txnId.Some? && pp.txnId.value != "" then pp.txnId else o.phonepeId)])
            && Serve(s, ev).outcome == Returned(OrderAnswer(id, s'.orders[id], false))
  {
    hide Inv, Find;
    InvKeys(s);
    FindUnique(s.orders, id);
  }

  // ---------- Inbound webhooks ----------

  // A webhook for an order that is the only one of its merchant order id.
  ghost predicate Names(s: Store, h: Hook, id: OrderId) {
    id in s.orders && h.orderRef == Some(s.orders[id].merchantOrderId) && !LedgerResults.Shared(s, id)
  }

  // Unsigned or genuine: the order takes the status that the code reads as and the transaction id if one is
  // reported, the entry the reported amount or else the order's; the log row is PROCESSED, and the tenant is
  // notified exactly when it has an address.
  lemma HookEffect(s: Store, h: Hook, id: OrderId)
    requires Inv(s) && Names(s, h, id) && (h.signed ==> h.verdict == Genuine)
    ensures s.orders[id].tenant in s.tenants
    ensures var o := s.orders[id];
            var url := s.tenants[o.tenant].webhookUrl;
            var status := HookStatus(h.code);
            var txnId := if h.txnId.Some? && h.txnId.value != "" then h.txnId else o.phonepeId;
            var amount := match h.amount case None => o.amount case Some(x) => if x == 0 then o.amount else x;
            && Serve(s, Webhook(h)).outcome == Returned(HookAnswer(true,
                 if url.Some? && url.value != "" then [Dispatch(o.tenant, id, status)] else []))
            && Step(s, Webhook(h)) == s.(
                 orders := s.orders[id := o.(status := status, phonepeId := txnId)],
                 txns := s.txns + [Txn(id, Payment, amount, if status == Completed then Success else status,
                                       Some(h.code), txnId)],
                 logs := s.logs + [InboundLog(h.code, Some(o.tenant), Some(id), Processed, None)])
  {
    hide UniqueKeys, TxnsOk, Agrees, LogsOk, FindByRef, LedgerResults.Shared;
    assert RowOk(s.tenants, s.orders[id]);
    LedgerResults.RefFindsExactlyUnshared(s, id);
  }

  // Signed but forged: a REJECTED log row that names order and tenant, and nothing else. With credentials that
  // cannot be read the signature cannot be checked, and the request raises.
  lemma HookRefused(s: Store, h: Hook, id: OrderId)
    requires Inv(s) && Names(s, h, id) && h.signed && h.verdict != Genuine
    ensures h.verdict == Forged ==>
      && Serve(s, Webhook(h)).outcome == Returned(HookAnswer(false, []))
      && Step(s, Webhook(h)) == s.(logs := s.logs + [
           InboundLog(h.code, Some(s.orders[id].tenant), Some(id), Rejected, Some("Invalid webhook signature"))])
    ensures h.verdict == CredentialsUnreadable ==>
      Serve(s, Webhook(h)).outcome == Raised(DecryptError) && Step(s, Webhook(h)) == s
  {
    hide UniqueKeys, TxnsOk, Agrees, LogsOk, FindByRef, LedgerResults.Shared;
    assert RowOk(s.tenants, s.orders[id]);
    LedgerResults.RefFindsExactlyUnshared(s, id);
  }

  // The tenants registered with PhonePe under a merchant id; an empty id is none.
  function Registered(s: Store, merchantId: Option<string>): set<TenantId> {
    set t | t in s.tenants && merchantId == Some(s.tenants[t].merchantId) && s.tenants[t].merchantId != ""
  }

  // A webhook that names no order never touches orders or entries. Its tenant is then the one registered under
  // its merchant id: with two the request raises, with none no signature is checked.
  lemma StrayHook(s: Store, h: Hook)
    requires Inv(s) && forall id :: id in s.orders ==> h.orderRef != Some(s.orders[id].merchantOrderId)
    ensures var outcome := Serve(s, Webhook(h)).outcome;
            var s' := Step(s, Webhook(h));
            var ts := Registered(s, h.merchantId);
            && s'.orders == s.orders && s'.txns == s.txns && s'.tenants == s.tenants
            && (outcome == Raised(MultipleResults) <==> exists t, u :: t in ts && u in ts && t != u)
            && (ts == {} ==> outcome == Returned(HookAnswer(true, []))
                             && s'.logs == s.logs + [InboundLog(h.code, None, None, Processed, None)])
            && forall t | ts == {t} ::
                 if !h.signed || h.verdict == Genuine then
                   outcome == Returned(HookAnswer(true, []))
                   && s'.logs == s.logs + [InboundLog(h.code, Some(t), None, Processed, None)]
                 else if h.verdict == Forged then
                   outcome == Returned(HookAnswer(false, []))
                   && s'.logs == s.logs + [
                        InboundLog(h.code, Some(t), None, Rejected, Some("Invalid webhook signature"))]
                 else outcome == Raised(DecryptError)
  {
    hide Inv, HookOrder, FindTenant, Registered;
    NoOrderFound(s, h);
    TenantFound(s, h.merchantId);
  }

  lemma TenantFound(s: Store, merchantId: Option<string>)
    ensures var ts := Registered(s, merchantId);
            && (!Truthy(merchantId) ==> ts == {})
            && (Truthy(merchantId) ==>
                  && (FindTenant(s.tenants, merchantId.value).NoRow? <==> ts == {})
                  && (FindTenant(s.tenants, merchantId.value).ManyRows? <==>
                        exists t, u :: t in ts && u in ts && t != u)
                  && forall t :: ts == {t} <==> FindTenant(s.tenants, merchantId.value) == OneRow(t))
  {
    var ts := Registered(s, merchantId);
    if Truthy(merchantId) {
      assert ts == set t | t in s.tenants && s.tenants[t].merchantId == merchantId.value;
      if t :| t in ts {
        assert ts == {t} || exists u :: u in ts && u != t;
      }
    }
  }

  lemma NoOrderFound(s: Store, h: Hook)
    requires forall id :: id in s.orders ==> h.orderRef != Some(s.orders[id].merchantOrderId)
    ensures HookOrder(s, h) == NoRow
  {
    if Truthy(h.orderRef) {
      assert (set id | id in s.orders && s.orders[id].merchantOrderId == h.orderRef.value) == {};
    }
  }

  // ---------- Refunds ----------

  // A refund is of the amount asked for, or of the order's amount when none is named. It adds exactly one
  // entry when it is served, and changes nothing otherwise.
  lemma RefundEffect(s: Store, id: OrderId, d: RefundCreate, pp: RefundAnswer)
    requires Inv(s) && id in s.orders
    ensures var o := s.orders[id];
            var ev := RefundRequest(o.tenant, o.merchantOrderId, d, pp);
            var outcome := Serve(s, ev).outcome;
            var amount := match d.amount case None => o.amount case Some(x) => x;
            if amount <= 0 then outcome == Raised(Invalid) && Step(s, ev) == s
            else if o.status != Completed || amount > o.amount || pp.RefundRaised? then
              outcome == Raised(RefundError) && Step(s, ev) == s
            else if pp.RefundUnreadable? then outcome == Raised(DecryptError) && Step(s, ev) == s
            else
              var txn := Txn(id, Refund, amount, RefundStatus(if pp.state.Some? then pp.state.value else "None"),
                             pp.state, if pp.txnId.Some? && pp.txnId.value != "" then pp.txnId else Some(d.refundRef));
              outcome == Returned(RefundAnswered(txn)) && Step(s, ev) == s.(txns := s.txns + [txn])
  {
    hide UniqueKeys, TxnsOk, Agrees, LogsOk, Find;
    assert RowOk(s.tenants, s.orders[id]);
    FindUnique(s.orders, id) by { InvKeys(s); }
  }

  // ---------- Reconciliation ----------

  // What a pass leaves of one of its picks: of an active tenant, it takes the status that PhonePe's state reads
  // as; of an inactive tenant, or when the call fails, it stays.
  lemma PickEffect(s: Store, threshold: int, picks: seq<OrderId>, answers: seq<PollAnswer>, i: nat)
    requires Inv(s) && QueryAnswer(s, threshold, picks) && |picks| == |answers| && i < |picks|
    ensures picks[i] in s.orders && s.orders[picks[i]].tenant in s.tenants
    ensures var s' := Step(s, Reconcile(threshold, picks, answers));
            var o := s.orders[picks[i]];
            && picks[i] in s'.orders
            && s'.orders[picks[i]] ==
               if s.tenants[o.tenant].active && answers[i].PollOk?
               then o.(status := PollStatus(if answers[i].state.Some? then answers[i].state.value else "None"))
               else o
  {
    hide Inv, Pass, QueryAnswer, Reconciliation.Counted, Reconciliation.DispatchesExactly;
    Reconciliation.BatchOf(s, threshold, picks);
    Reconciliation.PassMoves(s, picks, answers);
    OwnerKnown(s, picks[i]);
  }

  lemma OwnerKnown(s: Store, id: OrderId)
    requires Inv(s) && id in s.orders
    ensures s.orders[id].tenant in s.tenants
  {
    assert RowOk(s.tenants, s.orders[id]);
  }

  // Whatever the batch, a pass leaves alone every order that is younger than the threshold, settled already, or
  // of an inactive tenant, and changes at most a hundred orders.
  lemma PassSkips(s: Store, threshold: int, picks: seq<OrderId>, answers: seq<PollAnswer>, id: OrderId)
    requires Inv(s) && id in s.orders && s.orders[id].tenant in s.tenants
    requires s.orders[id].createdAt > threshold || s.orders[id].status !in {Created, Pending}
             || !s.tenants[s.orders[id].tenant].active
    ensures var s' := Step(s, Reconcile(threshold, picks, answers));
            && id in s'.orders && s'.orders[id] == s.orders[id]
            && |Reconciliation.Changed(s, s')| <= 100
  {
    hide Inv, Pass, QueryAnswer, Reconciliation.Counted, Reconciliation.DispatchesExactly;
    var s' := Step(s, Reconcile(threshold, picks, answers));
    if QueryAnswer(s, threshold, picks) && |picks| == |answers| {
      Reconciliation.BatchOf(s, threshold, picks);
      Reconciliation.PassMoves(s, picks, answers);
      OnlyPicksChange(s, picks, answers, Pass(s, picks, answers));
      NotPicked(s, threshold, picks, id);
    } else {
      assert Reconciliation.Changed(s, s') == {};
    }
  }

  lemma NotPicked(s: Store, threshold: int, picks: seq<OrderId>, id: OrderId)
    requires QueryAnswer(s, threshold, picks)
    ensures |picks| <= 100
    ensures id in picks ==> id in s.orders && s.orders[id].createdAt <= threshold && Open(s.orders[id])
  {
  }

  lemma OnlyPicksChange(s: Store, picks: seq<OrderId>, answers: seq<PollAnswer>, p: PassState)
    requires |picks| == |answers| && Reconciliation.Untouched(s, picks, answers, p)
    ensures |Reconciliation.Changed(s, p.store)| <= |picks|
  {
    forall id | id in Reconciliation.Changed(s, p.store) ensures id in picks {
    }
    AtMostPicks(Reconciliation.Changed(s, p.store), picks);
  }

  lemma {:induction false} AtMostPicks(ids: set<OrderId>, picks: seq<OrderId>)
    requires forall id :: id in ids ==> id in picks
    ensures |ids| <= |picks|
    decreases |picks|
  {
    if picks == [] {
      assert ids == {};
    } else {
      var n := |picks| - 1;
      var rest := ids - {picks[n]};
      AtMostPicks(rest, picks[..n]);
      assert ids <= rest + {picks[n]};
      assert |rest + {picks[n]}| <= |rest| + 1;
    }
  }
}
