// What every handler keeps, and what every run therefore satisfies.
module LedgerInvariants {
  import opened Basics
  import opened StatusMaps
  import opened Ledger

  // The statuses of an order's PAYMENT entries, oldest first.
  ghost function Payments(txns: seq<Txn>, id: OrderId): seq<Status> {
    if txns == [] then []
    else
      var n := |txns| - 1;
      Payments(txns[..n], id) +
      if txns[n].order == id && txns[n].kind == Payment then [txns[n].status] else []
  }

  ghost predicate LastIs(statuses: seq<Status>, status: Status) {
    statuses != [] && statuses[|statuses| - 1] == status
  }

  ghost predicate RowOk(tenants: map<TenantId, Tenant>, o: Order) {
    && o.tenant in tenants
    && o.merchantOrderId != ""
    && o.amount > 0
    && Canonical(o.status)
    && o.errorCode == None && o.errorMessage == None
  }

  ghost predicate RowsOk(tenants: map<TenantId, Tenant>, orders: map<OrderId, Order>) {
    forall id :: id in orders ==> RowOk(tenants, orders[id])
  }

  ghost predicate SameKey(o: Order, p: Order) {
    o.tenant == p.tenant && o.merchantOrderId == p.merchantOrderId
  }

  ghost predicate UniqueKeys(orders: map<OrderId, Order>) {
    forall i, j :: i in orders && j in orders && SameKey(orders[i], orders[j]) ==> i == j
  }

  // A refund is positive, at most the order's amount, and the order's last PAYMENT entry before it is SUCCESS.
  ghost predicate Justified(orders: map<OrderId, Order>, txns: seq<Txn>, k: int)
    requires 0 <= k < |txns|
  {
    var t := txns[k];
    t.kind == Refund ==>
      && t.order in orders
      && 0 < t.amount <= orders[t.order].amount
      && LastIs(Payments(txns[..k], t.order), Success)
  }

  ghost predicate TxnsOk(orders: map<OrderId, Order>, txns: seq<Txn>) {
    && (forall k :: 0 <= k < |txns| ==> txns[k].order in orders)
    && (forall k :: 0 <= k < |txns| ==> Justified(orders, txns, k))
  }

  // The ledger and the order agree: COMPLETED reads as SUCCESS.
  ghost predicate Agrees(orders: map<OrderId, Order>, txns: seq<Txn>) {
    forall id :: id in orders ==> LastIs(Payments(txns, id), TxStatus(orders[id].status))
  }

  ghost predicate LogsOk(logs: seq<InboundLog>) {
    forall k :: 0 <= k < |logs| ==> logs[k].status != Received
  }

  ghost predicate Inv(s: Store) {
    && RowsOk(s.tenants, s.orders) && UniqueKeys(s.orders)
    && TxnsOk(s.orders, s.txns) && Agrees(s.orders, s.txns)
    && LogsOk(s.logs)
  }

  // Rows only ever gain entries; an order keeps everything but its status and PhonePe id.
  ghost predicate Extends(s: Store, s': Store) {
    && s.tenants.Keys <= s'.tenants.Keys
    && s.txns <= s'.txns
    && s.logs <= s'.logs
    && s.orders.Keys <= s'.orders.Keys
    && forall id :: id in s.orders ==>
         s'.orders[id] == s.orders[id].(status := s'.orders[id].status, phonepeId := s'.orders[id].phonepeId)
  }

  // ---------- Bookkeeping about PAYMENT entries ----------

  lemma PaymentsAppend(txns: seq<Txn>, t: Txn, id: OrderId)
    ensures Payments(txns + [t], id) ==
            Payments(txns, id) + if t.order == id && t.kind == Payment then [t.status] else []
  {
    assert (txns + [t])[..|txns|] == txns;
  }

  lemma {:induction false} NoPayments(txns: seq<Txn>, id: OrderId)
    requires forall k :: 0 <= k < |txns| ==> txns[k].order != id
    ensures Payments(txns, id) == []
  {
    if txns == [] {
    } else {
      NoPayments(txns[..|txns| - 1], id);
    }
  }

  // Appending an entry and rewriting an order without touching its amount keep earlier entries justified.
  lemma AppendKeepsTxns(orders: map<OrderId, Order>, orders': map<OrderId, Order>, txns: seq<Txn>, t: Txn)
    requires TxnsOk(orders, txns)
    requires t.order in orders' && orders.Keys <= orders'.Keys
    requires forall id :: id in orders ==> orders'[id].amount == orders[id].amount
    requires t.kind == Refund ==>
      0 < t.amount <= orders'[t.order].amount && LastIs(Payments(txns, t.order), Success)
    ensures TxnsOk(orders', txns + [t])
  {
    var txns' := txns + [t];
    forall k | 0 <= k < |txns'|
      ensures Justified(orders', txns', k)
    {
      if k < |txns| {
        assert Justified(orders, txns, k);
        assert txns'[..k] == txns[..k];
      } else {
        assert txns'[..k] == txns;
      }
    }
  }

  lemma FindUnique(orders: map<OrderId, Order>, id: OrderId)
    requires UniqueKeys(orders) && id in orders
    ensures Find(orders, orders[id].tenant, orders[id].merchantOrderId) == OneRow(id)
  {
    var o := orders[id];
    var ids := set i | i in orders && orders[i].tenant == o.tenant && orders[i].merchantOrderId == o.merchantOrderId;
    assert forall i :: i in ids ==> SameKey(orders[i], o);
    OnlyElement(ids, id);
  }

  ghost predicate HasKey(o: Order, t: TenantId, m: string) {
    o.tenant == t && o.merchantOrderId == m
  }

  lemma FindSpec(orders: map<OrderId, Order>, t: TenantId, m: string)
    requires UniqueKeys(orders)
    ensures !Find(orders, t, m).ManyRows?
    ensures Find(orders, t, m).NoRow? <==> forall id :: id in orders ==> !HasKey(orders[id], t, m)
  {
    if id :| id in orders && HasKey(orders[id], t, m) {
      FindUnique(orders, id);
    } else {
      assert (set i | i in orders && orders[i].tenant == t && orders[i].merchantOrderId == m) == {};
    }
  }

  lemma SameRowsUnique(orders: map<OrderId, Order>, orders': map<OrderId, Order>)
    requires UniqueKeys(orders) && orders'.Keys == orders.Keys
    requires forall id :: id in orders ==> SameKey(orders'[id], orders[id])
    ensures UniqueKeys(orders')
  {
    forall i, j | i in orders' && j in orders' && SameKey(orders'[i], orders'[j])
      ensures i == j
    {
      assert SameKey(orders[i], orders[j]);
    }
  }

  lemma NewRowUnique(orders: map<OrderId, Order>, id: OrderId, o: Order)
    requires UniqueKeys(orders) && id !in orders && Find(orders, o.tenant, o.merchantOrderId).NoRow?
    ensures UniqueKeys(orders[id := o])
  {
    FindSpec(orders, o.tenant, o.merchantOrderId);
    var orders' := orders[id := o];
    forall i, j | i in orders' && j in orders' && SameKey(orders'[i], orders'[j])
      ensures i == j
    {
      if i != id && j != id {
        assert SameKey(orders[i], orders[j]);
      }
    }
  }

  // A PAYMENT entry with the new status of its order keeps order and ledger in agreement.
  lemma AgreesAfter(orders: map<OrderId, Order>, txns: seq<Txn>, id: OrderId, o: Order, t: Txn)
    requires Agrees(orders, txns)
    requires t.order == id && t.kind == Payment && t.status == TxStatus(o.status)
    ensures Agrees(orders[id := o], txns + [t])
  {
    var orders' := orders[id := o];
    forall i | i in orders'
      ensures LastIs(Payments(txns + [t], i), TxStatus(orders'[i].status))
    {
      PaymentsAppend(txns, t, i);
    }
  }

  lemma RewriteRow(tenants: map<TenantId, Tenant>, orders: map<OrderId, Order>, id: OrderId, o: Order)
    requires RowsOk(tenants, orders) && UniqueKeys(orders) && id in orders
    requires SameKey(o, orders[id]) && RowOk(tenants, o)
    ensures RowsOk(tenants, orders[id := o]) && UniqueKeys(orders[id := o])
  {
    SameRowsUnique(orders, orders[id := o]);
  }

  // ---------- The three writes ----------

  lemma RecordKeeps(s: Store, id: OrderId, status: Status, ppId: Option<string>,
                    amount: int, state: Option<string>, txnId: Option<string>)
    requires Inv(s) && id in s.orders && Canonical(status)
    ensures var s' := Record(s, id, status, ppId, amount, state, txnId);
            Inv(s') && Extends(s, s')
  {
    hide Payments, TxnsOk, Agrees, LogsOk;
    var t := Txn(id, Payment, amount, TxStatus(status), state, txnId);
    var o := s.orders[id].(status := status, phonepeId := ppId);
    var s' := Record(s, id, status, ppId, amount, state, txnId);
    assert s'.orders == s.orders[id := o] && s'.txns == s.txns + [t] && s'.tenants == s.tenants;
    RewriteRow(s.tenants, s.orders, id, o);
    AppendKeepsTxns(s.orders, s'.orders, s.txns, t);
    AgreesAfter(s.orders, s.txns, id, o, t);
  }

  lemma InsertKeeps(s: Store, t: TenantId, d: OrderCreate, newId: OrderId, now: int, pp: InitAnswer)
    requires Inv(s) && ValidOrder(d) && pp.InitOk?
    requires newId !in s.orders && t in s.tenants && Find(s.orders, t, d.merchantOrderId).NoRow?
    ensures var s' := Insert(s, t, d, newId, now, pp);
            Inv(s') && Extends(s, s')
  {
    hide Payments, TxnsOk, Agrees, LogsOk;
    var o := PendingOrder(t, d, now, pp);
    var txn := Txn(newId, Payment, d.amount, Pending, pp.state, pp.phonepeId);
    AppendKeepsTxns(s.orders, s.orders[newId := o], s.txns, txn);
    AgreesAfter(s.orders, s.txns, newId, o, txn);
    NewRowUnique(s.orders, newId, o);
  }

  lemma RefundEntryKeeps(s: Store, txn: Txn)
    requires Inv(s) && txn.kind == Refund && txn.order in s.orders
    requires s.orders[txn.order].status == Completed && 0 < txn.amount <= s.orders[txn.order].amount
    ensures var s' := s.(txns := s.txns + [txn]); Inv(s') && Extends(s, s')
  {
    hide Justified, Payments, UniqueKeys, RowsOk;
    AppendKeepsTxns(s.orders, s.orders, s.txns, txn);
    forall i | i in s.orders
      ensures LastIs(Payments(s.txns + [txn], i), TxStatus(s.orders[i].status))
    {
      PaymentsAppend(s.txns, txn, i);
    }
  }

  lemma RefundKeeps(s: Store, t: TenantId, m: string, d: RefundCreate, pp: RefundAnswer)
    requires Inv(s) && ValidRefund(d)
    ensures var s' := ProcessRefund(s, t, m, d, pp).work;
            Inv(s') && Extends(s, s')
  {
    hide UniqueKeys, TxnsOk, Agrees, LogsOk, Extends, Find;
    ExtendsReflexive(s);
    var r := ProcessRefund(s, t, m, d, pp);
    if r.outcome.Returned? {
      var txn := r.outcome.answer.txn;
      assert RowOk(s.tenants, s.orders[txn.order]);
      RefundEntryKeeps(s, txn);
    }
  }

  // ---------- The handlers ----------

  lemma SyncRowKeeps(s: Store, id: OrderId, force: bool, pp: PollAnswer)
    requires Inv(s) && id in s.orders
    ensures var s' := SyncRow(s, id, force, pp);
            Inv(s') && Extends(s, s') && s'.orders.Keys == s.orders.Keys && s'.tenants == s.tenants
  {
    hide Inv;
    var o := s.orders[id];
    if Polls(o, force, pp) && PollStatus(StateText(pp.state)) != o.status {
      RecordKeeps(s, id, PollStatus(StateText(pp.state)), o.phonepeId, o.amount, pp.state, Or(pp.txnId, o.phonepeId));
    }
  }

  lemma HookRowKeeps(s: Store, id: OrderId, h: Hook)
    requires Inv(s) && id in s.orders
    ensures var s' := HookRow(s, id, h);
            Inv(s') && Extends(s, s') && s'.logs == s.logs
  {
    var o := s.orders[id];
    var ppId := Or(h.txnId, o.phonepeId);
    RecordKeeps(s, id, HookStatus(h.code), ppId, HookAmount(h, o), Some(h.code), ppId);
  }

  lemma LogKeeps(s: Store, log: InboundLog)
    requires Inv(s) && log.status != Received
    ensures Inv(s.(logs := s.logs + [log])) && Extends(s, s.(logs := s.logs + [log]))
  {
  }

  lemma HookKeeps(s: Store, h: Hook)
    requires Inv(s) && ReceiveHook(s, h).outcome.Returned?
    ensures var s' := ReceiveHook(s, h).work; Inv(s') && Extends(s, s')
  {
    hide Inv, Extends, HookRow, HookOrder;
    var r := Resolve(s, h);
    var log := HookLog(s, h, r);
    if Checked(h, r) && h.verdict == Forged {
      LogKeeps(s, log.(status := Rejected, error := Some("Invalid webhook signature")));
    } else if r.order.Some? {
      var written := HookRow(s, r.order.value, h);
      HookRowKeeps(s, r.order.value, h);
      LogKeeps(written, log.(status := Processed));
      ExtendsTransitive(s, written, written.(logs := s.logs + [log.(status := Processed)]));
    } else {
      LogKeeps(s, log.(status := Processed));
    }
  }

  lemma InvKeys(s: Store)
    requires Inv(s)
    ensures UniqueKeys(s.orders)
  {
  }

  lemma ExtendsReflexive(s: Store)
    ensures Extends(s, s)
  {
  }

  lemma PassOneKeeps(p: PassState, id: OrderId, pp: PollAnswer)
    requires Inv(p.store)
    ensures var p' := PassOne(p, id, pp);
            Inv(p'.store) && Extends(p.store, p'.store)
            && p'.store.orders.Keys == p.store.orders.Keys && p'.store.tenants == p.store.tenants
    ensures Eligible(p.store, id) ==> PassOne(p, id, pp).store == SyncRow(p.store, id, true, pp)
  {
    hide Inv, Extends, SyncRow;
    ExtendsReflexive(p.store);
    if Eligible(p.store, id) {
      FindUnique(p.store.orders, id) by { InvKeys(p.store); }
      SyncRowKeeps(p.store, id, true, pp);
    }
  }

  lemma ExtendsTransitive(a: Store, b: Store, c: Store)
    requires Extends(a, b) && Extends(b, c)
    ensures Extends(a, c)
  {
    forall id | id in a.orders
      ensures c.orders[id] == a.orders[id].(status := c.orders[id].status, phonepeId := c.orders[id].phonepeId)
    {
      assert id in b.orders;
    }
  }

  lemma {:induction false} PassKeeps(s: Store, picks: seq<OrderId>, answers: seq<PollAnswer>)
    requires Inv(s) && |picks| == |answers|
    ensures var s' := Pass(s, picks, answers).store;
            Inv(s') && Extends(s, s') && s'.orders.Keys == s.orders.Keys && s'.tenants == s.tenants
  {
    hide Inv, PassOne;
    if picks == [] {
    } else {
      var n := |picks| - 1;
      PassKeeps(s, picks[..n], answers[..n]);
      var p := Pass(s, picks[..n], answers[..n]);
      PassOneKeeps(p, picks[n], answers[n]);
      ExtendsTransitive(s, p.store, Pass(s, picks, answers).store);
    }
  }

  lemma TenantKeeps(s: Store, id: TenantId, tenant: Tenant)
    requires Inv(s)
    ensures Inv(s.(tenants := s.tenants[id := tenant]))
  {
    forall i | i in s.orders
      ensures RowOk(s.tenants[id := tenant], s.orders[i])
    {
      assert RowOk(s.tenants, s.orders[i]);
    }
  }

  // Every request keeps the invariant and only extends the store; one that raises changes nothing.
  lemma StepKeeps(s: Store, ev: Event)
    requires Inv(s)
    ensures Inv(Step(s, ev)) && Extends(s, Step(s, ev))
    ensures Serve(s, ev).outcome.Raised? ==> Step(s, ev) == s
  {
    hide Inv, Insert, SyncRow, Pass, ReceiveHook, ProcessRefund;
    match ev
    case PutTenant(id, tenant) => TenantKeeps(s, id, tenant);
    case Create(caller, order, newId, now, pp) =>
      if Serve(s, ev).outcome.Returned? && Find(s.orders, caller, order.merchantOrderId).NoRow? {
        InsertKeeps(s, caller, order, newId, now, pp);
      }
    case Poll(caller, ref, force, pp) =>
      if Find(s.orders, caller, ref).OneRow? {
        SyncRowKeeps(s, Find(s.orders, caller, ref).row, force, pp);
      }
    case RefundRequest(caller, ref, refund, pp) =>
      if ValidRefund(refund) {
        RefundKeeps(s, caller, ref, refund, pp);
      }
    case Webhook(hook) =>
      if ReceiveHook(s, hook).outcome.Returned? {
        HookKeeps(s, hook);
      }
    case Reconcile(threshold, picks, answers) =>
      if |picks| == |answers| {
        PassKeeps(s, picks, answers);
      }
  }

  lemma {:induction false} RunKeeps(s: Store, evs: seq<Event>)
    requires Inv(s)
    ensures Inv(Run(s, evs)) && Extends(s, Run(s, evs))
    decreases |evs|
  {
    hide Inv, Step;
    if evs == [] {
    } else {
      StepKeeps(s, evs[0]);
      RunKeeps(Step(s, evs[0]), evs[1..]);
      ExtendsTransitive(s, Step(s, evs[0]), Run(s, evs));
    }
  }

  lemma {:induction false} RunConcat(s: Store, a: seq<Event>, b: seq<Event>)
    ensures Run(s, a + b) == Run(Run(s, a), b)
    decreases |a|
  {
    hide Step;
    if a == [] {
      assert a + b == b;
    } else {
      RunConcat(Step(s, a[0]), a[1..], b);
      assert (a + b)[1..] == a[1..] + b;
    }
  }

  lemma EmptyInv()
    ensures Inv(EmptyStore())
  {
  }

  ghost predicate Reachable(s: Store) {
    exists evs :: s == Run(EmptyStore(), evs)
  }

  // ---------- Main results ----------

  lemma ReachableInv(s: Store)
    requires Reachable(s)
    ensures Inv(s)
  {
    var evs :| s == Run(EmptyStore(), evs);
    EmptyInv();
    RunKeeps(EmptyStore(), evs);
  }
}
