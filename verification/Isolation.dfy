// Tenants do not interfere: what a tenant sees and gets depends on its own share of the traffic alone.
module Isolation {
  import opened Basics
  import opened StatusMaps
  import opened Ledger
  import opened LedgerInvariants
  import LedgerResults
  import ReportHistory

  ghost function IdsOf(orders: map<OrderId, Order>, a: TenantId): set<OrderId> {
    set id | id in orders && orders[id].tenant == a
  }

  ghost function OrdersOf(orders: map<OrderId, Order>, a: TenantId): map<OrderId, Order> {
    map id | id in orders && orders[id].tenant == a :: orders[id]
  }

  ghost function Filter(txns: seq<Txn>, ids: set<OrderId>): seq<Txn> {
    if txns == [] then []
    else
      var n := |txns| - 1;
      Filter(txns[..n], ids) + if txns[n].order in ids then [txns[n]] else []
  }

  // All rows of one tenant: its own, its orders, and their ledger entries.
  datatype Rows = Rows(tenant: Option<Tenant>, orders: map<OrderId, Order>, txns: seq<Txn>)

  ghost function RowsOf(s: Store, a: TenantId): Rows {
    Rows(if a in s.tenants then Some(s.tenants[a]) else None, OrdersOf(s.orders, a), Filter(s.txns, IdsOf(s.orders, a)))
  }

  // The requests an API key gives access to.
  predicate TenantRequest(ev: Event) {
    ev.Create? || ev.Poll? || ev.RefundRequest?
  }

  // The uuid drawn for a new order is not in use.
  ghost predicate FreshId(s: Store, ev: Event) {
    ev.Create? ==> ev.newId !in s.orders
  }

  // ---------- Filtering ----------

  lemma FilterAppend(txns: seq<Txn>, t: Txn, ids: set<OrderId>)
    ensures Filter(txns + [t], ids) == Filter(txns, ids) + if t.order in ids then [t] else []
  {
    assert (txns + [t])[..|txns|] == txns;
  }

  lemma {:induction false} FilterAlike(txns: seq<Txn>, ids: set<OrderId>, ids': set<OrderId>)
    requires forall k :: 0 <= k < |txns| ==> (txns[k].order in ids <==> txns[k].order in ids')
    ensures Filter(txns, ids) == Filter(txns, ids')
  {
    if txns == [] {
    } else {
      FilterAlike(txns[..|txns| - 1], ids, ids');
    }
  }

  lemma FindLocal(orders: map<OrderId, Order>, orders': map<OrderId, Order>, a: TenantId, m: string)
    requires OrdersOf(orders, a) == OrdersOf(orders', a)
    ensures Find(orders, a, m) == Find(orders', a, m)
  {
    var mine := OrdersOf(orders, a);
    assert (set id | id in orders && orders[id].tenant == a && orders[id].merchantOrderId == m)
        == (set id | id in mine && mine[id].merchantOrderId == m)
        == (set id | id in orders' && orders'[id].tenant == a && orders'[id].merchantOrderId == m);
  }

  // ---------- Writes to one order of tenant a ----------

  // The rows of tenant b after order id, of tenant a, has been set to o and entry t of that order added.
  lemma WriteRows(s: Store, id: OrderId, o: Order, t: Txn, b: TenantId)
    requires TxnsOk(s.orders, s.txns) && t.order == id
    requires id in s.orders ==> o.tenant == s.orders[id].tenant
    ensures var r := RowsOf(s, b);
            var r' := RowsOf(s.(orders := s.orders[id := o], txns := s.txns + [t]), b);
            r' == if o.tenant == b then Rows(r.tenant, r.orders[id := o], r.txns + [t]) else r
  {
    hide TxnsOk, Filter, OrdersOf, IdsOf;
    var orders' := s.orders[id := o];
    WriteOrders(s.orders, id, o, b);
    FilterAppend(s.txns, t, IdsOf(orders', b));
    WriteIds(s.orders, id, o, b);
    OldTxnsAlike(s, IdsOf(s.orders, b), IdsOf(orders', b), id);
  }

  lemma WriteOrders(orders: map<OrderId, Order>, id: OrderId, o: Order, b: TenantId)
    requires id in orders ==> o.tenant == orders[id].tenant
    ensures OrdersOf(orders[id := o], b) ==
            if o.tenant == b then OrdersOf(orders, b)[id := o] else OrdersOf(orders, b)
  {
  }

  lemma WriteIds(orders: map<OrderId, Order>, id: OrderId, o: Order, b: TenantId)
    requires id in orders ==> o.tenant == orders[id].tenant
    ensures IdsOf(orders[id := o], b) == if o.tenant == b then IdsOf(orders, b) + {id} else IdsOf(orders, b)
    ensures id in IdsOf(orders[id := o], b) <==> o.tenant == b
    ensures id in orders ==> IdsOf(orders[id := o], b) == IdsOf(orders, b)
  {
  }

  // Entries written so far are of orders that exist: those of a new order are none.
  lemma OldTxnsAlike(s: Store, ids: set<OrderId>, ids': set<OrderId>, id: OrderId)
    requires TxnsOk(s.orders, s.txns)
    requires (ids' == ids || ids' == ids + {id}) && (id in s.orders ==> ids' == ids)
    ensures Filter(s.txns, ids) == Filter(s.txns, ids')
  {
    hide Justified, Filter;
    FilterAlike(s.txns, ids, ids');
  }

  // What a request of tenant a does to the store, told from a's rows alone.
  datatype Write = NoWrite | Write(id: OrderId, order: Order, txn: Txn)

  ghost predicate Wrote(s: Store, s': Store, w: Write) {
    match w
    case NoWrite => s' == s
    case Write(id, o, t) => s' == s.(orders := s.orders[id := o], txns := s.txns + [t]) && t.order == id
  }

  ghost function WriteOf(r: Rows, ev: Event): Write
    requires TenantRequest(ev)
  {
    match ev
    case Create(caller, d, newId, now, pp) =>
      if ValidOrder(d) && Find(r.orders, caller, d.merchantOrderId).NoRow? && r.tenant.Some? && pp.InitOk? then
        Write(newId, PendingOrder(caller, d, now, pp), Txn(newId, Payment, d.amount, Pending, pp.state, pp.phonepeId))
      else NoWrite
    case Poll(caller, ref, force, pp) =>
      var found := Find(r.orders, caller, ref);
      if found.OneRow? && Polls(r.orders[found.row], force, pp)
         && PollStatus(StateText(pp.state)) != r.orders[found.row].status then
        var o := r.orders[found.row];
        var status := PollStatus(StateText(pp.state));
        Write(found.row, o.(status := status),
              Txn(found.row, Payment, o.amount, TxStatus(status), pp.state, Or(pp.txnId, o.phonepeId)))
      else NoWrite
    case RefundRequest(caller, ref, d, pp) =>
      var found := Find(r.orders, caller, ref);
      if ValidRefund(d) && found.OneRow? && pp.RefundOk? then
        var o := r.orders[found.row];
        if (o.status == Completed || o.status == Success) && RefundAmount(d, o) <= o.amount then
          Write(found.row, o, Txn(found.row, Refund, RefundAmount(d, o), RefundStatus(StateText(pp.state)), pp.state,
                                  Or(pp.txnId, Some(d.refundRef))))
        else NoWrite
      else NoWrite
  }

  ghost function OutcomeOf(r: Rows, ev: Event): Outcome
    requires TenantRequest(ev)
  {
    Serve(Store(if r.tenant.Some? then map[ev.caller := r.tenant.value] else map[], r.orders, r.txns, []), ev).outcome
  }

  lemma CreateFromRows(s: Store, ev: Event)
    requires Inv(s) && ev.Create? && FreshId(s, ev)
    ensures Serve(s, ev).outcome == OutcomeOf(RowsOf(s, ev.caller), ev)
    ensures Wrote(s, Step(s, ev), WriteOf(RowsOf(s, ev.caller), ev))
  {
    hide Inv, Filter;
    var r := RowsOf(s, ev.caller);
    assert OrdersOf(r.orders, ev.caller) == r.orders;
    FindLocal(s.orders, r.orders, ev.caller, ev.order.merchantOrderId);
  }

  lemma PollFromRows(s: Store, ev: Event)
    requires Inv(s) && ev.Poll?
    ensures Serve(s, ev).outcome == OutcomeOf(RowsOf(s, ev.caller), ev)
    ensures Wrote(s, Step(s, ev), WriteOf(RowsOf(s, ev.caller), ev))
  {
    hide Inv, Filter;
    var r := RowsOf(s, ev.caller);
    assert OrdersOf(r.orders, ev.caller) == r.orders;
    FindLocal(s.orders, r.orders, ev.caller, ev.ref);
    var w := WriteOf(r, ev);
    if w.Write? {
      assert s.orders[w.id].(status := w.order.status, phonepeId := s.orders[w.id].phonepeId) == w.order;
    }
  }

  lemma RefundFromRows(s: Store, ev: Event)
    requires Inv(s) && ev.RefundRequest?
    ensures Serve(s, ev).outcome == OutcomeOf(RowsOf(s, ev.caller), ev)
    ensures Wrote(s, Step(s, ev), WriteOf(RowsOf(s, ev.caller), ev))
  {
    hide Inv, Filter;
    var r := RowsOf(s, ev.caller);
    assert OrdersOf(r.orders, ev.caller) == r.orders;
    FindLocal(s.orders, r.orders, ev.caller, ev.ref);
    var w := WriteOf(r, ev);
    if w.Write? {
      assert s.orders[w.id := w.order] == s.orders;
    }
  }

  lemma RequestFromRows(s: Store, ev: Event)
    requires Inv(s) && TenantRequest(ev) && FreshId(s, ev)
    ensures Serve(s, ev).outcome == OutcomeOf(RowsOf(s, ev.caller), ev)
    ensures Wrote(s, Step(s, ev), WriteOf(RowsOf(s, ev.caller), ev))
  {
    hide Inv, RowsOf, Serve, Step, OutcomeOf, WriteOf, Wrote;
    match ev
    case Create(_, _, _, _, _) => CreateFromRows(s, ev);
    case Poll(_, _, _, _) => PollFromRows(s, ev);
    case RefundRequest(_, _, _, _) => RefundFromRows(s, ev);
  }

  lemma WriteOfCaller(s: Store, ev: Event)
    requires Inv(s) && TenantRequest(ev) && FreshId(s, ev)
    ensures var w := WriteOf(RowsOf(s, ev.caller), ev);
            w.Write? ==> w.order.tenant == ev.caller && w.txn.order == w.id &&
                         (w.id in s.orders ==> s.orders[w.id].tenant == ev.caller)
  {
    hide Inv, Filter;
  }

  // ---------- Single requests ----------

  // A request changes no row of another tenant.
  lemma OthersUntouched(s: Store, ev: Event, b: TenantId)
    requires Inv(s) && TenantRequest(ev) && FreshId(s, ev) && b != ev.caller
    ensures RowsOf(Step(s, ev), b) == RowsOf(s, b)
  {
    hide WriteOf, RowsOf, OutcomeOf, Step, RowsOk, Agrees, UniqueKeys;
    RequestFromRows(s, ev);
    WriteOfCaller(s, ev);
    var w := WriteOf(RowsOf(s, ev.caller), ev);
    if w.Write? {
      WriteRows(s, w.id, w.order, w.txn, b);
    }
  }

  // Two stores that agree on the caller's rows answer alike and agree on them afterwards.
  lemma SameAnswerSameRows(s: Store, u: Store, ev: Event)
    requires Inv(s) && Inv(u) && TenantRequest(ev) && FreshId(s, ev) && FreshId(u, ev)
    requires RowsOf(s, ev.caller) == RowsOf(u, ev.caller)
    ensures Serve(s, ev).outcome == Serve(u, ev).outcome
    ensures RowsOf(Step(s, ev), ev.caller) == RowsOf(Step(u, ev), ev.caller)
  {
    hide WriteOf, RowsOf, OutcomeOf, Step, Serve, RowsOk, Agrees, UniqueKeys;
    RequestFromRows(s, ev);
    RequestFromRows(u, ev);
    WriteOfCaller(s, ev);
    WriteOfCaller(u, ev);
    var w := WriteOf(RowsOf(s, ev.caller), ev);
    if w.Write? {
      WriteRows(s, w.id, w.order, w.txn, ev.caller);
      WriteRows(u, w.id, w.order, w.txn, ev.caller);
    }
  }

  // ---------- Traffic of others ----------

  // Requests of tenant a, changes of its row, and webhooks that reach an order of it. Reconciliation batches
  // serve several tenants at once; they are divided up further below.
  ghost predicate Own(s: Store, ev: Event, a: TenantId) {
    match ev
    case PutTenant(id, _) => id == a
    case Webhook(hook) => HookOrder(s, hook).OneRow? && s.orders[HookOrder(s, hook).row].tenant == a
    case Reconcile(_, _, _) => false
    case _ => ev.caller == a
  }

  // Anything else, and batches without an order of a.
  ghost predicate Foreign(s: Store, ev: Event, a: TenantId) {
    && !Own(s, ev, a)
    && (ev.Reconcile? ==>
          forall i :: 0 <= i < |ev.picks| && ev.picks[i] in s.orders ==> s.orders[ev.picks[i]].tenant != a)
  }

  lemma RecordForeign(s: Store, id: OrderId, status: Status, ppId: Option<string>,
                      amount: int, state: Option<string>, txnId: Option<string>, a: TenantId)
    requires Inv(s) && id in s.orders && s.orders[id].tenant != a
    ensures RowsOf(Record(s, id, status, ppId, amount, state, txnId), a) == RowsOf(s, a)
  {
    hide RowsOf, RowsOk, Agrees, UniqueKeys;
    WriteRows(s, id, s.orders[id].(status := status, phonepeId := ppId),
              Txn(id, Payment, amount, TxStatus(status), state, txnId), a);
  }

  lemma SyncRowForeign(s: Store, id: OrderId, force: bool, pp: PollAnswer, a: TenantId)
    requires Inv(s) && id in s.orders && s.orders[id].tenant != a
    ensures RowsOf(SyncRow(s, id, force, pp), a) == RowsOf(s, a)
  {
    hide Inv, RowsOf, Record;
    if pp.PollOk? {
      var o := s.orders[id];
      RecordForeign(s, id, PollStatus(StateText(pp.state)), o.phonepeId, o.amount, pp.state,
                    Or(pp.txnId, o.phonepeId), a);
    }
  }

  lemma {:induction false} PassForeign(s: Store, picks: seq<OrderId>, answers: seq<PollAnswer>, a: TenantId)
    requires Inv(s) && |picks| == |answers|
    requires forall i :: 0 <= i < |picks| && picks[i] in s.orders ==> s.orders[picks[i]].tenant != a
    ensures RowsOf(Pass(s, picks, answers).store, a) == RowsOf(s, a)
    decreases |picks|
  {
    hide Inv, RowsOf, PassOne, SyncRow;
    if picks == [] {
    } else {
      var n := |picks| - 1;
      PassKeeps(s, picks[..n], answers[..n]);
      PassForeign(s, picks[..n], answers[..n], a);
      var p := Pass(s, picks[..n], answers[..n]);
      PassOneKeeps(p, picks[n], answers[n]);
      if Eligible(p.store, picks[n]) {
        SyncRowForeign(p.store, picks[n], true, answers[n], a);
      } else {
        PassOneSkips(p, picks[n], answers[n]);
      }
    }
  }

  lemma PassOneSkips(p: PassState, id: OrderId, pp: PollAnswer)
    requires !Eligible(p.store, id)
    ensures PassOne(p, id, pp) == p
  {
  }

  lemma HookForeign(s: Store, h: Hook, a: TenantId)
    requires Inv(s) && Foreign(s, Webhook(h), a)
    ensures RowsOf(Step(s, Webhook(h)), a) == RowsOf(s, a)
  {
    hide Inv, Record, HookOrder, HookLog, Filter;
    var r := Resolve(s, h);
    if r.Resolved? && r.order.Some? {
      var o := s.orders[r.order.value];
      var ppId := Or(h.txnId, o.phonepeId);
      RecordForeign(s, r.order.value, HookStatus(h.code), ppId, HookAmount(h, o), Some(h.code), ppId, a);
      ReportHistory.RecordFrame(s, r.order.value, HookStatus(h.code), ppId, HookAmount(h, o), Some(h.code), ppId);
    }
  }

  // Foreign traffic leaves a tenant's rows alone.
  lemma ForeignUntouched(s: Store, ev: Event, a: TenantId)
    requires Inv(s) && FreshId(s, ev) && Foreign(s, ev, a)
    ensures RowsOf(Step(s, ev), a) == RowsOf(s, a)
  {
    hide Inv, Pass, CreateOrGet, Sync, ProcessRefund, ReceiveHook, Filter, OrdersOf, IdsOf, QueryAnswer;
    match ev
    case PutTenant(_, _) =>
    case Webhook(hook) => HookForeign(s, hook, a);
    case Reconcile(_, picks, answers) =>
      if |picks| == |answers| {
        PassForeign(s, picks, answers, a);
      }
    case _ => OthersUntouched(s, ev, a);
  }

  // ---------- A tenant's own traffic ----------

  // The order ids of u are among those of s, with the same keys.
  ghost predicate Within(s: Store, u: Store) {
    forall id :: id in u.orders ==> id in s.orders && SameKey(s.orders[id], u.orders[id])
  }

  // Two stores that agree on tenant a, the second of which may lack orders of others.
  ghost predicate Alike(s: Store, u: Store, a: TenantId) {
    Inv(s) && Inv(u) && Within(s, u) && RowsOf(s, a) == RowsOf(u, a)
  }

  lemma WithinAfter(s: Store, u: Store, s': Store, u': Store, a: TenantId)
    requires Within(s, u) && Extends(s, s') && Extends(u, u') && RowsOf(s', a) == RowsOf(u', a)
    requires forall id :: id in u'.orders && id !in u.orders ==> u'.orders[id].tenant == a
    ensures Within(s', u')
  {
    hide Filter;
    forall id | id in u'.orders
      ensures id in s'.orders && SameKey(s'.orders[id], u'.orders[id])
    {
      if id in u.orders {
        assert id in s.orders && SameKey(s.orders[id], u.orders[id]);
      } else {
        assert id in OrdersOf(u'.orders, a) && OrdersOf(u'.orders, a) == OrdersOf(s'.orders, a);
      }
    }
  }

  lemma FreshWithin(s: Store, u: Store, ev: Event)
    requires Within(s, u) && FreshId(s, ev)
    ensures FreshId(u, ev)
  {
  }

  ghost function HookWrite(id: OrderId, o: Order, h: Hook): Write {
    if h.signed && h.verdict != Genuine then NoWrite
    else
      var ppId := Or(h.txnId, o.phonepeId);
      Write(id, o.(status := HookStatus(h.code), phonepeId := ppId),
            Txn(id, Payment, HookAmount(h, o), TxStatus(HookStatus(h.code)), Some(h.code), ppId))
  }

  ghost function HookOutcome(tenant: Tenant, id: OrderId, o: Order, h: Hook): Outcome {
    if h.signed && h.verdict == CredentialsUnreadable then Raised(DecryptError)
    else if h.signed && h.verdict == Forged then Returned(HookAnswer(false, []))
    else Returned(HookAnswer(true,
      if tenant.HasWebhook() then [Dispatch(o.tenant, id, HookStatus(h.code))] else []))
  }

  lemma HookFromRow(s: Store, h: Hook, id: OrderId)
    requires Inv(s) && HookOrder(s, h) == OneRow(id)
    ensures s.orders[id].tenant in s.tenants
    ensures Serve(s, Webhook(h)).outcome == HookOutcome(s.tenants[s.orders[id].tenant], id, s.orders[id], h)
    ensures Wrote(s, Step(s, Webhook(h)).(logs := s.logs), HookWrite(id, s.orders[id], h))
  {
    hide HookOrder, UniqueKeys, TxnsOk, Agrees, LogsOk;
    assert RowOk(s.tenants, s.orders[id]);
  }

  // A webhook for an order of a finds it in both stores.
  lemma OwnHookFound(s: Store, u: Store, h: Hook, a: TenantId)
    requires Alike(s, u, a) && Own(s, Webhook(h), a)
    ensures HookOrder(u, h) == HookOrder(s, h)
    ensures u.orders[HookOrder(u, h).row] == s.orders[HookOrder(s, h).row]
  {
    hide Inv, Filter;
    var id, ref := HookOrder(s, h).row, h.orderRef.value;
    assert id in OrdersOf(s.orders, a) && OrdersOf(s.orders, a) == OrdersOf(u.orders, a);
    var all := set i | i in s.orders && s.orders[i].merchantOrderId == ref;
    var ids := set i | i in u.orders && u.orders[i].merchantOrderId == ref;
    forall i | i in ids ensures i == id {
      assert i in all;
    }
    OnlyElement(ids, id);
  }

  lemma LogsApart(s: Store, logs: seq<InboundLog>, a: TenantId)
    ensures RowsOf(s.(logs := logs), a) == RowsOf(s, a)
  {
  }

  lemma OwnHookAlike(s: Store, u: Store, h: Hook, a: TenantId)
    requires Alike(s, u, a) && Own(s, Webhook(h), a)
    ensures Own(u, Webhook(h), a)
    ensures Serve(s, Webhook(h)).outcome == Serve(u, Webhook(h)).outcome
    ensures RowsOf(Step(s, Webhook(h)), a) == RowsOf(Step(u, Webhook(h)), a)
  {
    hide Serve, Step, Within, HookOrder, HookWrite, HookOutcome, OrdersOf, IdsOf, Filter, RowsOk, Agrees, UniqueKeys;
    var id := HookOrder(s, h).row;
    OwnHookFound(s, u, h, a);
    HookFromRow(s, h, id);
    HookFromRow(u, h, id);
    var s', u' := Step(s, Webhook(h)), Step(u, Webhook(h));
    HookWriteRows(s, s'.(logs := s.logs), id, h);
    HookWriteRows(u, u'.(logs := u.logs), id, h);
    LogsApart(s', s.logs, a);
    LogsApart(u', u.logs, a);
  }

  lemma HookWriteRows(s: Store, s': Store, id: OrderId, h: Hook)
    requires TxnsOk(s.orders, s.txns) && id in s.orders && Wrote(s, s', HookWrite(id, s.orders[id], h))
    ensures var r := RowsOf(s, s.orders[id].tenant);
            var w := HookWrite(id, s.orders[id], h);
            RowsOf(s', s.orders[id].tenant) ==
            if w.NoWrite? then r else Rows(r.tenant, r.orders[id := w.order], r.txns + [w.txn])
  {
    hide RowsOf, TxnsOk;
    var w := HookWrite(id, s.orders[id], h);
    if w.Write? {
      WriteRows(s, id, w.order, w.txn, s.orders[id].tenant);
    }
  }

  // A tenant's own events do the same on stores that agree on its rows.
  lemma OwnAlike(s: Store, u: Store, ev: Event, a: TenantId)
    requires Alike(s, u, a) && Own(s, ev, a) && FreshId(s, ev)
    ensures Own(u, ev, a) && Serve(s, ev).outcome == Serve(u, ev).outcome
    ensures Alike(Step(s, ev), Step(u, ev), a)
  {
    hide Inv, Extends, RowsOf, Within, HookOrder, Serve, Step;
    StepKeeps(s, ev);
    StepKeeps(u, ev);
    match ev {
      case PutTenant(_, tenant) => OwnTenantAlike(s, u, a, tenant);
      case Webhook(hook) => OwnHookAlike(s, u, hook, a);
      case _ =>
        FreshWithin(s, u, ev);
        SameAnswerSameRows(s, u, ev);
    }
    OwnWithin(s, u, ev, a);
  }

  lemma OwnTenantAlike(s: Store, u: Store, a: TenantId, tenant: Tenant)
    requires RowsOf(s, a) == RowsOf(u, a)
    ensures Serve(s, PutTenant(a, tenant)).outcome == Serve(u, PutTenant(a, tenant)).outcome
    ensures RowsOf(Step(s, PutTenant(a, tenant)), a) == RowsOf(Step(u, PutTenant(a, tenant)), a)
  {
    hide Filter, OrdersOf, IdsOf;
  }

  lemma OwnWithin(s: Store, u: Store, ev: Event, a: TenantId)
    requires Alike(s, u, a) && Own(u, ev, a) && RowsOf(Step(s, ev), a) == RowsOf(Step(u, ev), a)
    ensures Within(Step(s, ev), Step(u, ev))
  {
    hide Inv, Extends, RowsOf, Within, HookOrder, Step;
    StepKeeps(s, ev);
    StepKeeps(u, ev);
    forall id | id in Step(u, ev).orders && id !in u.orders
      ensures Step(u, ev).orders[id].tenant == a
    {
      LedgerResults.StepOrigin(u, ev, id);
    }
    WithinAfter(s, u, Step(s, ev), Step(u, ev), a);
  }

  lemma ForeignAlike(s: Store, s': Store, u: Store, a: TenantId)
    requires Alike(s, u, a) && Inv(s') && Extends(s, s') && RowsOf(s', a) == RowsOf(s, a)
    ensures Alike(s', u, a)
  {
    hide Inv, RowsOf, Within, Extends;
    ExtendsReflexive(u);
    WithinAfter(s, u, s', u, a);
  }

  lemma ForeignStepAlike(s: Store, u: Store, ev: Event, a: TenantId)
    requires Alike(s, u, a) && FreshId(s, ev) && Foreign(s, ev, a)
    ensures Alike(Step(s, ev), u, a)
  {
    hide Inv, RowsOf, Within, Extends, Foreign;
    StepKeeps(s, ev);
    ForeignUntouched(s, ev, a);
    ForeignAlike(s, Step(s, ev), u, a);
  }

  // ---------- A tenant's share of a batch ----------

  ghost predicate OwnPick(s: Store, id: OrderId, a: TenantId) {
    Eligible(s, id) && s.orders[id].tenant == a
  }

  // What the pass does for a pick: a forced poll in its tenant's name.
  ghost function PickPoll(s: Store, id: OrderId, pp: PollAnswer): Event
    requires id in s.orders
  {
    Poll(s.orders[id].tenant, s.orders[id].merchantOrderId, true, pp)
  }

  ghost function OwnPolls(s: Store, picks: seq<OrderId>, answers: seq<PollAnswer>, a: TenantId): seq<Event>
    requires |picks| == |answers|
  {
    if picks == [] then []
    else
      var n := |picks| - 1;
      OwnPolls(s, picks[..n], answers[..n], a) +
      if OwnPick(s, picks[n], a) then [PickPoll(s, picks[n], answers[n])] else []
  }

  // What those polls return within the pass.
  ghost function PassTold(s: Store, picks: seq<OrderId>, answers: seq<PollAnswer>, a: TenantId): seq<Outcome>
    requires |picks| == |answers|
  {
    if picks == [] then []
    else
      var n := |picks| - 1;
      PassTold(s, picks[..n], answers[..n], a) +
      if OwnPick(s, picks[n], a)
      then [Serve(Pass(s, picks[..n], answers[..n]).store, PickPoll(s, picks[n], answers[n])).outcome]
      else []
  }

  // The events of a tenant in one event of the full run, and what the tenant is answered there.
  ghost function Share(s: Store, ev: Event, a: TenantId): seq<Event> {
    if Own(s, ev, a) then [ev]
    else if ev.Reconcile? && Serve(s, ev).outcome.Returned? then OwnPolls(s, ev.picks, ev.answers, a)
    else []
  }

  ghost function Told(s: Store, ev: Event, a: TenantId): seq<Outcome> {
    if Own(s, ev, a) then [Serve(s, ev).outcome]
    else if ev.Reconcile? && Serve(s, ev).outcome.Returned? then PassTold(s, ev.picks, ev.answers, a)
    else []
  }

  ghost function Outcomes(s: Store, evs: seq<Event>, a: TenantId): seq<Outcome>
    decreases |evs|
  {
    if evs == [] then [] else Told(s, evs[0], a) + Outcomes(Step(s, evs[0]), evs[1..], a)
  }

  lemma {:induction false} OutcomesConcat(s: Store, x: seq<Event>, y: seq<Event>, a: TenantId)
    ensures Outcomes(s, x + y, a) == Outcomes(s, x, a) + Outcomes(Run(s, x), y, a)
    decreases |x|
  {
    hide Told, Step;
    if x == [] {
      assert x + y == y;
    } else {
      assert (x + y)[1..] == x[1..] + y;
      OutcomesConcat(Step(s, x[0]), x[1..], y, a);
    }
  }

  lemma OneEvent(u: Store, ev: Event, a: TenantId)
    requires Own(u, ev, a)
    ensures Run(u, [ev]) == Step(u, ev) && Outcomes(u, [ev], a) == [Serve(u, ev).outcome]
  {
    hide Serve, Step, Own;
    assert [ev][1..] == [];
    assert Outcomes(u, [ev], a) == Told(u, ev, a) + [];
  }

  lemma PickIsPoll(p: PassState, id: OrderId, pp: PollAnswer)
    requires Inv(p.store) && Eligible(p.store, id)
    ensures PassOne(p, id, pp).store == Step(p.store, PickPoll(p.store, id, pp))
  {
    hide Inv, SyncRow, Find;
    FindUnique(p.store.orders, id) by { InvKeys(p.store); }
  }

  lemma PickAlike(p: PassState, u: Store, id: OrderId, pp: PollAnswer, a: TenantId)
    requires Alike(p.store, u, a)
    ensures OwnPick(p.store, id, a) ==>
      var ev := PickPoll(p.store, id, pp);
      Alike(PassOne(p, id, pp).store, Step(u, ev), a) && Serve(p.store, ev).outcome == Serve(u, ev).outcome
    ensures !OwnPick(p.store, id, a) ==> Alike(PassOne(p, id, pp).store, u, a)
  {
    hide Inv, Extends, RowsOf, Within, PassOne, SyncRow, Serve, Step;
    PassOneKeeps(p, id, pp);
    if OwnPick(p.store, id, a) {
      PickIsPoll(p, id, pp);
      OwnAlike(p.store, u, PickPoll(p.store, id, pp), a);
    } else {
      if Eligible(p.store, id) {
        SyncRowForeign(p.store, id, true, pp, a);
      } else {
        PassOneSkips(p, id, pp);
      }
      ForeignAlike(p.store, PassOne(p, id, pp).store, u, a);
    }
  }

  // For one tenant, a batch is the forced polls of its own picks.
  lemma {:induction false} PassAlike(s: Store, u: Store, picks: seq<OrderId>, answers: seq<PollAnswer>, a: TenantId)
    requires Alike(s, u, a) && |picks| == |answers|
    ensures var polls := OwnPolls(s, picks, answers, a);
            && Alike(Pass(s, picks, answers).store, Run(u, polls), a)
            && PassTold(s, picks, answers, a) == Outcomes(u, polls, a)
    decreases |picks|
  {
    hide Inv, RowsOf, Within, PassOne, Serve, Step, Told;
    if picks == [] {
    } else {
      var n := |picks| - 1;
      var polls := OwnPolls(s, picks[..n], answers[..n], a);
      PassAlike(s, u, picks[..n], answers[..n], a);
      PassKeeps(s, picks[..n], answers[..n]);
      var p := Pass(s, picks[..n], answers[..n]);
      var v := Run(u, polls);
      assert OwnPick(s, picks[n], a) <==> OwnPick(p.store, picks[n], a);
      PickAlike(p, v, picks[n], answers[n], a);
      if OwnPick(s, picks[n], a) {
        var ev := PickPoll(s, picks[n], answers[n]);
        assert ev == PickPoll(p.store, picks[n], answers[n]);
        OneEvent(v, ev, a);
        RunConcat(u, polls, [ev]);
        OutcomesConcat(u, polls, [ev], a);
      } else {
        assert OwnPolls(s, picks, answers, a) == polls + [] == polls;
      }
    }
  }

  lemma ShareAlike(s: Store, u: Store, ev: Event, a: TenantId)
    requires Alike(s, u, a) && FreshId(s, ev)
    ensures Alike(Step(s, ev), Run(u, Share(s, ev, a)), a)
    ensures Told(s, ev, a) == Outcomes(u, Share(s, ev, a), a)
  {
    hide Inv, Extends, RowsOf, Within, Own, Pass, Alike, QueryAnswer;
    if Own(s, ev, a) {
      OwnAlike(s, u, ev, a);
      OneEvent(u, ev, a);
    } else if ev.Reconcile? {
      if Serve(s, ev).outcome.Returned? {
        PassAlike(s, u, ev.picks, ev.answers, a);
      }
    } else {
      ForeignStepAlike(s, u, ev, a);
    }
  }

  // ---------- Whole runs ----------

  // Every uuid drawn along the run is new when it is drawn.
  ghost predicate FreshIds(s: Store, evs: seq<Event>)
    decreases |evs|
  {
    evs == [] || (FreshId(s, evs[0]) && FreshIds(Step(s, evs[0]), evs[1..]))
  }

  // The run of tenant a alone.
  ghost function Purge(s: Store, evs: seq<Event>, a: TenantId): seq<Event>
    decreases |evs|
  {
    if evs == [] then [] else Share(s, evs[0], a) + Purge(Step(s, evs[0]), evs[1..], a)
  }

  lemma {:induction false} PurgeFrom(s: Store, u: Store, evs: seq<Event>, a: TenantId)
    requires Alike(s, u, a) && FreshIds(s, evs)
    ensures Alike(Run(s, evs), Run(u, Purge(s, evs, a)), a)
    ensures Outcomes(s, evs, a) == Outcomes(u, Purge(s, evs, a), a)
    decreases |evs|
  {
    hide Alike, Share, Told, Step, FreshId;
    if evs == [] {
    } else {
      var head := Share(s, evs[0], a);
      var tail := Purge(Step(s, evs[0]), evs[1..], a);
      ShareAlike(s, u, evs[0], a);
      PurgeFrom(Step(s, evs[0]), Run(u, head), evs[1..], a);
      RunConcat(u, head, tail);
      OutcomesConcat(u, head, tail, a);
    }
  }

  // In every run a tenant's rows, and the answers to its requests, to webhooks for its orders and to the polls of
  // its picks, are those of the run reduced to its own share: no other tenant's traffic shows in them.
  lemma NonInterference(s: Store, evs: seq<Event>, a: TenantId)
    requires Reachable(s) && FreshIds(s, evs)
    ensures RowsOf(Run(s, evs), a) == RowsOf(Run(s, Purge(s, evs, a)), a)
    ensures Outcomes(s, evs, a) == Outcomes(s, Purge(s, evs, a), a)
  {
    hide Inv, RowsOf, Purge, Outcomes, Run, FreshIds;
    ReachableInv(s);
    PurgeFrom(s, s, evs, a);
  }
}
