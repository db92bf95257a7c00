// Reachable stores on which the gaps between the design and the code show, for every tenant and order.
module Witnesses {
  import opened Basics
  import opened StatusMaps
  import opened Ledger
  import opened LedgerInvariants
  import opened LedgerResults
  import Reconciliation

  // A tenant, and one order of it that PhonePe has accepted.
  datatype Sample = Sample(t: TenantId, tenant: Tenant, d: OrderCreate, id: OrderId, now: int, pp: InitAnswer) {
    predicate Ok() { ValidOrder(d) && pp.InitOk? }

    ghost function Opening(): seq<Event> {
      [PutTenant(t, tenant), Create(t, d, id, now, pp)]
    }

    // A webhook for the order, without a signature header.
    ghost function Unsigned(code: string): Event {
      Webhook(Hook(None, Some(d.merchantOrderId), None, code, None, false, Forged))
    }

    // A signed and genuine webhook for the order, with an amount.
    ghost function Signed(code: string, amount: int): Event {
      Webhook(Hook(None, Some(d.merchantOrderId), None, code, Some(amount), true, Genuine))
    }

    ghost function Refund(ref: string): Event {
      RefundRequest(t, d.merchantOrderId, RefundCreate(ref, None), RefundOk(None, None))
    }
  }

  // The store holds the sample's order alone, in this status.
  ghost predicate Holds(s: Store, x: Sample, status: Status) {
    && Reachable(s) && s.tenants == map[x.t := x.tenant]
    && s.orders.Keys == {x.id}
    && HasKey(s.orders[x.id], x.t, x.d.merchantOrderId)
    && s.orders[x.id].amount == x.d.amount && s.orders[x.id].createdAt == x.now
    && s.orders[x.id].status == status
    && forall k :: 0 <= k < |s.txns| ==> s.txns[k].kind == Payment
  }

  lemma ReachableStep(s: Store, ev: Event)
    requires Reachable(s)
    ensures Reachable(Step(s, ev))
  {
    hide Step, EmptyStore;
    var evs :| s == Run(EmptyStore(), evs);
    RunConcat(EmptyStore(), evs, [ev]);
    assert [ev][1..] == [];
    assert Run(s, [ev]) == Step(s, ev);
  }

  // Every sample can be reached: its order stands PENDING after its tenant and its creation.
  lemma Opened(x: Sample) returns (s: Store)
    requires x.Ok()
    ensures Holds(s, x, Pending) && s == Run(EmptyStore(), x.Opening())
  {
    var s0 := EmptyStore();
    var s1 := Step(s0, x.Opening()[0]);
    assert Run(s0, []) == s0;
    ReachableStep(s0, x.Opening()[0]);
    assert Find(s1.orders, x.t, x.d.merchantOrderId).NoRow?;
    s := Step(s1, x.Opening()[1]);
    ReachableStep(s1, x.Opening()[1]);
    assert x.Opening()[1..] == [x.Opening()[1]] && x.Opening()[1..][1..] == [];
    assert Run(s1, x.Opening()[1..]) == Run(s, []);
  }

  lemma OnlyOrder(s: Store, x: Sample, status: Status, code: string)
    requires x.Ok() && Holds(s, x, status)
    ensures HookOrder(s, x.Unsigned(code).hook) == OneRow(x.id)
    ensures Find(s.orders, x.t, x.d.merchantOrderId) == OneRow(x.id)
  {
    var ids := set i | i in s.orders && s.orders[i].merchantOrderId == x.d.merchantOrderId;
    OnlyElement(ids, x.id);
    var own := set i | i in s.orders && s.orders[i].tenant == x.t && s.orders[i].merchantOrderId == x.d.merchantOrderId;
    OnlyElement(own, x.id);
  }

  // Whatever status the order is in, an unsigned webhook moves it to any status a report can name.
  lemma Moved(s: Store, x: Sample, status: Status, code: string)
    requires x.Ok() && Holds(s, x, status)
    ensures Holds(Step(s, x.Unsigned(code)), x, HookStatus(code))
  {
    hide HookOrder, Reachable;
    OnlyOrder(s, x, status, code);
    ReachableStep(s, x.Unsigned(code));
  }

  // No status absorbs: an order goes to COMPLETED and back to PENDING.
  lemma CompletedReopens(x: Sample) returns (s: Store, s': Store)
    requires x.Ok()
    ensures Holds(s, x, Completed) && Holds(s', x, Pending) && s' == Step(s, x.Unsigned("PENDING"))
  {
    hide Holds, Step;
    PaidCodes();
    OtherCodes();
    s := Opened(x);
    Moved(s, x, Pending, "COMPLETED");
    s := Step(s, x.Unsigned("COMPLETED"));
    Moved(s, x, Completed, "PENDING");
    s' := Step(s, x.Unsigned("PENDING"));
  }

  // One unsigned webhook turns a PENDING order, whose refund is refused, into one whose refund is served.
  lemma UnsignedHookOpensRefund(x: Sample, ref: string) returns (s: Store)
    requires x.Ok()
    ensures Holds(s, x, Pending) && Serve(s, x.Refund(ref)).outcome.Raised?
    ensures var s' := Step(s, x.Unsigned("COMPLETED"));
            Holds(s', x, Completed) && Serve(s', x.Refund(ref)).outcome.Returned?
  {
    hide Step;
    PaidCodes();
    OtherCodes();
    s := Opened(x);
    Moved(s, x, Pending, "COMPLETED");
    Refundable(s, x, Pending, ref);
    Refundable(Step(s, x.Unsigned("COMPLETED")), x, Completed, ref);
  }

  lemma Refundable(s: Store, x: Sample, status: Status, ref: string)
    requires x.Ok() && Holds(s, x, status)
    ensures Serve(s, x.Refund(ref)).outcome.Returned? <==> status == Completed
  {
    hide Serve, Reachable;
    RefundServedExactlyWhen(s, x.id, RefundCreate(ref, None), RefundOk(None, None));
  }

  lemma {:induction false} NoRefunds(txns: seq<Txn>, id: OrderId)
    requires forall k :: 0 <= k < |txns| ==> txns[k].kind == Payment
    ensures RefundTotal(txns, id) == 0
  {
    if txns == [] {
    } else {
      NoRefunds(txns[..|txns| - 1], id);
    }
  }

  // On a COMPLETED order two full refunds are both served: twice the amount goes back.
  lemma TwoFullRefunds(x: Sample, ref: string) returns (s: Store)
    requires x.Ok()
    ensures Holds(s, x, Completed) && Serve(s, x.Refund(ref)).outcome.Returned?
    ensures var once := Step(s, x.Refund(ref));
            && Serve(once, x.Refund(ref)).outcome.Returned?
            && RefundTotal(Step(once, x.Refund(ref)).txns, x.id) == 2 * x.d.amount > x.d.amount
  {
    hide Step, Serve, Reachable, Inv;
    var pending := UnsignedHookOpensRefund(x, ref);
    s := Step(pending, x.Unsigned("COMPLETED"));
    NoRefunds(s.txns, x.id);
    ReachableInv(s);
    var d, pp := RefundCreate(ref, None), RefundOk(None, None);
    GrantedTwice(s, x.id, d, pp);
    var once := Step(s, x.Refund(ref));
    ReachableStep(s, x.Refund(ref));
    StepKeeps(s, x.Refund(ref));
    RefundServedExactlyWhen(once, x.id, d, pp);
    StepRefunds(s, x.Refund(ref), x.id);
    StepRefunds(once, x.Refund(ref), x.id);
  }

  lemma {:induction false} NoHookFits(s: Store, evs: seq<Event>)
    requires forall i :: 0 <= i < |evs| ==> !evs[i].Webhook?
    ensures AllFit(s, evs)
    decreases |evs|
  {
    hide Step;
    if evs == [] {
    } else {
      NoHookFits(Step(s, evs[0]), evs[1..]);
    }
  }

  // A genuine webhook with another amount leaves a PAYMENT entry that differs from its order.
  lemma AmountDiffers(x: Sample, code: string, amount: int) returns (s: Store)
    requires x.Ok() && amount != 0 && amount != x.d.amount
    ensures Holds(s, x, Pending) && AmountsOk(s.orders, s.txns)
    ensures var s' := Step(s, x.Signed(code, amount));
            && |s'.txns| == |s.txns| + 1 && s'.txns[|s.txns|].amount == amount
            && s'.orders[x.id].amount == x.d.amount && !AmountsOk(s'.orders, s'.txns)
  {
    hide Reachable, Inv;
    s := Opened(x);
    EmptyInv();
    NoHookFits(EmptyStore(), x.Opening());
    PaymentAmounts(EmptyStore(), x.Opening());
    OnlyOrder(s, x, Pending, code);
    ReachableInv(s);
    StepAmounts(s, x.Signed(code, amount));
  }

  // Two tenants may use one merchant order id. From then on every webhook that names it raises.
  lemma SharedReference(x: Sample, y: Sample) returns (s: Store)
    requires x.Ok() && y.Ok() && x.t != y.t && x.id != y.id && x.d.merchantOrderId == y.d.merchantOrderId
    ensures Reachable(s) && x.id in s.orders && HasKey(s.orders[x.id], x.t, x.d.merchantOrderId)
    ensures y.id in s.orders && HasKey(s.orders[y.id], y.t, x.d.merchantOrderId)
    ensures forall h: Hook | h.orderRef == Some(x.d.merchantOrderId) ::
      Serve(s, Webhook(h)).outcome == Raised(MultipleResults)
  {
    hide Reachable;
    var one := Opened(x);
    var two := Step(one, y.Opening()[0]);
    ReachableStep(one, y.Opening()[0]);
    s := Step(two, y.Opening()[1]);
    ReachableStep(two, y.Opening()[1]);
    assert Find(two.orders, y.t, y.d.merchantOrderId).NoRow?;
    assert s.orders == one.orders[y.id := PendingOrder(y.t, y.d, y.now, y.pp)];
    ReachableInv(s);
    assert Shared(s, x.id) by { assert y.id in s.orders; }
    RefFindsExactlyUnshared(s, x.id);
  }

  lemma BatchOfOne(s: Store, x: Sample, pp: PollAnswer)
    requires Holds(s, x, Pending) && x.tenant.active && x.tenant.HasWebhook()
    requires Reconciliation.NewStatus(pp) != Pending
    ensures QueryAnswer(s, x.now, [x.id]) && Reconciliation.Settles(s, x.id, pp) && Reconciliation.Announced(s, x.id)
  {
    hide Reachable, Reconciliation.NewStatus;
    assert Stuck(s, x.now) == {x.id};
  }

  // A scheduled pass over such a store counts and announces a change that it does not store.
  lemma BackgroundPassAnnounces(x: Sample) returns (s: Store)
    requires x.Ok() && x.tenant.active && x.tenant.HasWebhook()
    ensures Holds(s, x, Pending)
    ensures var picks, answers := [x.id], [PollOk(Some("COMPLETED"), None)];
            && QueryAnswer(s, x.now, picks)
            && Pass(s, picks, answers).count == |Pass(s, picks, answers).dispatches| == 1
  {
    hide Pass, PassOne, Serve, Step, Reachable, QueryAnswer;
    PaidCodes();
    OtherCodes();
    s := Opened(x);
    var picks, answers := [x.id], [PollOk(Some("COMPLETED"), None)];
    BatchOfOne(s, x, answers[0]);
    Reconciliation.PassAccounts(s, x.now, picks, answers);
    OneDispatch(s, x, answers[0], Pass(s, picks, answers));
  }

  lemma OneDispatch(s: Store, x: Sample, pp: PollAnswer, p: PassState)
    requires s.orders.Keys == {x.id} && s.orders[x.id].status == Pending
    requires Reconciliation.Accounts(s, [x.id], [pp], p)
    requires Reconciliation.Settles(s, x.id, pp) && Reconciliation.Announced(s, x.id)
    ensures p.count == |p.dispatches| == 1
  {
    hide Reconciliation.NewStatus, Eligible;
    assert [x.id][0] == x.id && [pp][0] == pp;
    assert x.id in s.orders;
    assert Reconciliation.Changed(s, p.store) == {x.id};
    assert Reconciliation.Dispatched(p, x.id);
    assert forall k :: 0 <= k < |p.dispatches| ==>
      Reconciliation.DispatchOk(s, p, p.dispatches[k]) && p.dispatches[k].order == x.id;
    AtMostOne(p.dispatches, x.id);
  }

  lemma AtMostOne(ds: seq<Dispatch>, id: OrderId)
    requires forall k :: 0 <= k < |ds| ==> ds[k].order == id
    requires forall k, l :: 0 <= k < l < |ds| ==> ds[k].order != ds[l].order
    ensures |ds| <= 1
  {
    var first := if |ds| > 0 then ds[0].order else id;
    var second := if |ds| > 1 then ds[1].order else id;
    assert first == id == second;
  }
}
