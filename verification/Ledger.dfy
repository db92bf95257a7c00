// The payment ledger on values: the stored rows, and what each request handler makes of them.
// PhonePe is an oracle: every upstream answer, a success payload or an exception, is an argument.
module Ledger {
  import opened Basics
  import opened StatusMaps

  type TenantId = string
  type OrderId = string

  datatype Tenant = Tenant(active: bool, merchantId: string, webhookUrl: Option<string>) {
    predicate HasWebhook() { Truthy(webhookUrl) }
  }

  datatype Order = Order(
    tenant: TenantId,
    merchantOrderId: string,
    phonepeId: Option<string>,
    amount: int,
    currency: string,
    status: Status,
    redirectUrl: string,
    checkoutUrl: Option<string>,
    errorCode: Option<string>,
    errorMessage: Option<string>,
    createdAt: int
  )

  datatype TxnKind = Payment | Refund

  datatype Txn = Txn(
    order: OrderId,
    kind: TxnKind,
    amount: int,
    status: Status,
    state: Option<string>,
    phonepeTxnId: Option<string>
  )

  datatype LogStatus = Received | Processed | Rejected

  datatype InboundLog = InboundLog(
    eventType: string,
    tenant: Option<TenantId>,
    order: Option<OrderId>,
    status: LogStatus,
    error: Option<string>
  )

  datatype Store = Store(
    tenants: map<TenantId, Tenant>,
    orders: map<OrderId, Order>,
    txns: seq<Txn>,
    logs: seq<InboundLog>
  )

  // Request bodies, as the schemas hand them over.
  datatype OrderCreate = OrderCreate(merchantOrderId: string, amount: int, currency: string, redirectUrl: string)
  datatype RefundCreate = RefundCreate(refundRef: string, amount: Option<int>)

  // An inbound webhook after decoding: the identifiers, and the verdict on its signature header.
  datatype Verdict = Genuine | Forged | CredentialsUnreadable
  datatype Hook = Hook(
    merchantId: Option<string>,
    orderRef: Option<string>,
    txnId: Option<string>,
    code: string,
    amount: Option<int>,
    signed: bool,
    verdict: Verdict
  )

  // Upstream answers. Unreadable stands for a tenant whose credentials do not decrypt: the client cannot be
  // built, which a create and a refund do outside their try, and no call is made.
  datatype InitAnswer = InitOk(phonepeId: Option<string>, checkoutUrl: Option<string>, state: Option<string>)
                      | InitRaised(message: string) | InitUnreadable
  datatype PollAnswer = PollOk(state: Option<string>, txnId: Option<string>) | PollRaised
  datatype RefundAnswer = RefundOk(state: Option<string>, txnId: Option<string>) | RefundRaised
                        | RefundUnreadable

  datatype Dispatch = Dispatch(tenant: TenantId, order: OrderId, status: Status)

  datatype Error = Invalid | OrderNotFound | MultipleResults | IntegrityError | PhonePeError | RefundError
                 | DecryptError | NotAQueryResult

  datatype Answer = OrderAnswer(id: OrderId, order: Order, created: bool)
                  | RefundAnswered(txn: Txn)
                  | HookAnswer(success: bool, dispatches: seq<Dispatch>)
                  | PassAnswer(count: nat, dispatches: seq<Dispatch>)
                  | Saved
  datatype Outcome = Returned(answer: Answer) | Raised(error: Error)

  // What a handler leaves behind: the session's private copy, and how it ended.
  datatype Reply = Reply(work: Store, outcome: Outcome)

  // str() of an optional JSON string.
  function StateText(state: Option<string>): string {
    if state.Some? then state.value else "None"
  }

  // ---------- Queries ----------

  ghost function Find(orders: map<OrderId, Order>, t: TenantId, m: string): (r: Rows<OrderId>)
    ensures r.OneRow? ==> r.row in orders && orders[r.row].tenant == t && orders[r.row].merchantOrderId == m
  {
    ScalarOneOrNone(set id | id in orders && orders[id].tenant == t && orders[id].merchantOrderId == m)
  }

  ghost function FindByRef(orders: map<OrderId, Order>, m: string): (r: Rows<OrderId>)
    ensures r.OneRow? ==> r.row in orders && orders[r.row].merchantOrderId == m
  {
    ScalarOneOrNone(set id | id in orders && orders[id].merchantOrderId == m)
  }

  ghost function FindTenant(tenants: map<TenantId, Tenant>, merchantId: string): (r: Rows<TenantId>)
    ensures r.OneRow? ==> r.row in tenants
  {
    ScalarOneOrNone(set t | t in tenants && tenants[t].merchantId == merchantId)
  }

  predicate Open(o: Order) {
    o.status == Created || o.status == Pending
  }

  // ---------- Order creation ----------

  function NewOrder(t: TenantId, d: OrderCreate, now: int): Order {
    Order(t, d.merchantOrderId, None, d.amount, d.currency, Created, d.redirectUrl, None, None, None, now)
  }

  function PendingOrder(t: TenantId, d: OrderCreate, now: int, pp: InitAnswer): Order
    requires pp.InitOk?
  {
    NewOrder(t, d, now).(phonepeId := pp.phonepeId, checkoutUrl := pp.checkoutUrl, status := Pending)
  }

  // The rows a successful creation adds to a store.
  function Insert(s: Store, t: TenantId, d: OrderCreate, newId: OrderId, now: int, pp: InitAnswer): Store
    requires pp.InitOk?
  {
    s.(orders := s.orders[newId := PendingOrder(t, d, now, pp)],
       txns := s.txns + [Txn(newId, Payment, d.amount, Pending, pp.state, pp.phonepeId)])
  }

  ghost function CreateOrGet(s: Store, t: TenantId, d: OrderCreate, newId: OrderId, now: int, pp: InitAnswer): Reply {
    match Find(s.orders, t, d.merchantOrderId)
    case ManyRows => Reply(s, Raised(MultipleResults))
    case OneRow(id) => Reply(s, Returned(OrderAnswer(id, s.orders[id], false)))
    case NoRow =>
      if newId in s.orders || t !in s.tenants then Reply(s, Raised(IntegrityError))
      else if pp.InitOk? then
        Reply(Insert(s, t, d, newId, now, pp), Returned(OrderAnswer(newId, PendingOrder(t, d, now, pp), true)))
      else if pp.InitUnreadable? then
        Reply(s.(orders := s.orders[newId := NewOrder(t, d, now)]), Raised(DecryptError))
      else
        var failed := NewOrder(t, d, now).(
          status := Failed, errorCode := Some("PHONEPE_INIT_FAILED"), errorMessage := Some(pp.message));
        Reply(s.(orders := s.orders[newId := failed]), Raised(PhonePeError))
  }

  // ---------- Status writes ----------

  // A new status for an order, and the PAYMENT entry that goes with it.
  function Record(s: Store, id: OrderId, status: Status, phonepeId: Option<string>,
                  amount: int, state: Option<string>, txnId: Option<string>): Store
    requires id in s.orders
  {
    s.(orders := s.orders[id := s.orders[id].(status := status, phonepeId := phonepeId)],
       txns := s.txns + [Txn(id, Payment, amount, TxStatus(status), state, txnId)])
  }

  predicate Polls(o: Order, force: bool, pp: PollAnswer) {
    (force || Open(o)) && pp.PollOk?
  }

  ghost function SyncRow(s: Store, id: OrderId, force: bool, pp: PollAnswer): Store
    requires id in s.orders
  {
    var o := s.orders[id];
    if Polls(o, force, pp) && PollStatus(StateText(pp.state)) != o.status then
      Record(s, id, PollStatus(StateText(pp.state)), o.phonepeId, o.amount, pp.state, Or(pp.txnId, o.phonepeId))
    else s
  }

  ghost function Sync(s: Store, t: TenantId, m: string, force: bool, pp: PollAnswer): Reply {
    match Find(s.orders, t, m)
    case ManyRows => Reply(s, Raised(MultipleResults))
    case NoRow => Reply(s, Raised(OrderNotFound))
    case OneRow(id) =>
      var s' := SyncRow(s, id, force, pp);
      Reply(s', Returned(OrderAnswer(id, s'.orders[id], false)))
  }

  // ---------- Inbound webhooks ----------

  datatype Resolution = Ambiguous | Resolved(order: Option<OrderId>, tenant: Option<TenantId>)

  ghost function HookOrder(s: Store, h: Hook): (r: Rows<OrderId>)
    ensures r.OneRow? ==> r.row in s.orders
  {
    if Truthy(h.orderRef) then FindByRef(s.orders, h.orderRef.value) else NoRow
  }

  ghost function Resolve(s: Store, h: Hook): (r: Resolution)
    ensures r.Resolved? && r.order.Some? ==> r.order.value in s.orders && HookOrder(s, h) == OneRow(r.order.value)
    ensures r.Resolved? && r.tenant.Some? ==> r.tenant.value in s.tenants
  {
    var rows := HookOrder(s, h);
    if rows.ManyRows? then Ambiguous
    else
      var order := if rows.OneRow? then Some(rows.row) else None;
      if rows.OneRow? && s.orders[rows.row].tenant in s.tenants then
        Resolved(order, Some(s.orders[rows.row].tenant))
      else if !Truthy(h.merchantId) then Resolved(order, None)
      else
        match FindTenant(s.tenants, h.merchantId.value)
        case ManyRows => Ambiguous
        case OneRow(t) => Resolved(order, Some(t))
        case NoRow => Resolved(order, None)
  }

  ghost function HookLog(s: Store, h: Hook, r: Resolution): InboundLog
    requires r.Resolved? && (r.order.Some? ==> r.order.value in s.orders)
  {
    var tenant :=
      if r.tenant.Some? then r.tenant
      else if r.order.Some? then Some(s.orders[r.order.value].tenant)
      else None;
    InboundLog(h.code, tenant, r.order, Received, None)
  }

  predicate Checked(h: Hook, r: Resolution)
    requires r.Resolved?
  {
    r.tenant.Some? && h.signed
  }

  // The payment amount of an event: absent and zero both mean the order's own amount.
  function HookAmount(h: Hook, o: Order): int {
    if h.amount.Some? && h.amount.value != 0 then h.amount.value else o.amount
  }

  ghost function HookRow(s: Store, id: OrderId, h: Hook): Store
    requires id in s.orders
  {
    var o := s.orders[id];
    var ppId := Or(h.txnId, o.phonepeId);
    Record(s, id, HookStatus(h.code), ppId, HookAmount(h, o), Some(h.code), ppId)
  }

  ghost function ReceiveHook(s: Store, h: Hook): Reply {
    var r := Resolve(s, h);
    if r.Ambiguous? then
      Reply(s.(logs := s.logs + [InboundLog(h.code, None, None, Received, None)]), Raised(MultipleResults))
    else
      var log := HookLog(s, h, r);
      if Checked(h, r) && h.verdict == CredentialsUnreadable then
        Reply(s.(logs := s.logs + [log]), Raised(DecryptError))
      else if Checked(h, r) && h.verdict == Forged then
        var rejected := log.(status := Rejected, error := Some("Invalid webhook signature"));
        Reply(s.(logs := s.logs + [rejected]), Returned(HookAnswer(false, [])))
      else
        var written := if r.order.Some? then HookRow(s, r.order.value, h) else s;
        var dispatches :=
          if r.tenant.Some? && s.tenants[r.tenant.value].HasWebhook() && r.order.Some?
          then [Dispatch(r.tenant.value, r.order.value, HookStatus(h.code))]
          else [];
        Reply(written.(logs := s.logs + [log.(status := Processed)]), Returned(HookAnswer(true, dispatches)))
  }

  // ---------- Refunds ----------

  function RefundAmount(d: RefundCreate, o: Order): int {
    if d.amount.Some? && d.amount.value != 0 then d.amount.value else o.amount
  }

  ghost function ProcessRefund(s: Store, t: TenantId, m: string, d: RefundCreate, pp: RefundAnswer): Reply {
    match Find(s.orders, t, m)
    case ManyRows => Reply(s, Raised(MultipleResults))
    case NoRow => Reply(s, Raised(OrderNotFound))
    case OneRow(id) =>
      var o := s.orders[id];
      if o.status != Completed && o.status != Success then Reply(s, Raised(RefundError))
      else if RefundAmount(d, o) > o.amount then Reply(s, Raised(RefundError))
      else if pp.RefundUnreadable? then Reply(s, Raised(DecryptError))
      else if pp.RefundRaised? then Reply(s, Raised(RefundError))
      else
        var txn := Txn(id, Refund, RefundAmount(d, o), RefundStatus(StateText(pp.state)), pp.state,
                       Or(pp.txnId, Some(d.refundRef)));
        Reply(s.(txns := s.txns + [txn]), Returned(RefundAnswered(txn)))
  }

  // ---------- Reconciliation ----------

  const BATCH_LIMIT := 100

  function Stuck(s: Store, threshold: int): set<OrderId> {
    set id | id in s.orders && Open(s.orders[id]) && s.orders[id].createdAt <= threshold
  }

  // Any answer the database may give to the batch query: distinct stuck orders, all of them unless
  // there are more than the limit.
  predicate QueryAnswer(s: Store, threshold: int, picks: seq<OrderId>) {
    && (forall i, j :: 0 <= i < j < |picks| ==> picks[i] != picks[j])
    && (forall i :: 0 <= i < |picks| ==> picks[i] in Stuck(s, threshold))
    && |picks| <= BATCH_LIMIT
    && (|picks| < BATCH_LIMIT ==> forall id :: id in Stuck(s, threshold) ==> id in picks)
  }

  datatype PassState = PassState(store: Store, count: nat, dispatches: seq<Dispatch>)

  predicate Eligible(s: Store, id: OrderId) {
    id in s.orders && s.orders[id].tenant in s.tenants && s.tenants[s.orders[id].tenant].active
  }

  // One turn of the loop: errors of the sync call are swallowed.
  ghost function PassOne(p: PassState, id: OrderId, pp: PollAnswer): PassState {
    if !Eligible(p.store, id) then p
    else
      var o := p.store.orders[id];
      var reply := Sync(p.store, o.tenant, o.merchantOrderId, true, pp);
      if reply.outcome.Raised? then p
      else
        var updated := reply.outcome.answer.order;
        if updated.status == o.status then p.(store := reply.work)
        else
          PassState(reply.work, p.count + 1,
            if p.store.tenants[o.tenant].HasWebhook()
            then p.dispatches + [Dispatch(o.tenant, reply.outcome.answer.id, updated.status)]
            else p.dispatches)
  }

  ghost function Pass(s: Store, picks: seq<OrderId>, answers: seq<PollAnswer>): PassState
    requires |picks| == |answers|
  {
    if picks == [] then PassState(s, 0, [])
    else
      var n := |picks| - 1;
      PassOne(Pass(s, picks[..n], answers[..n]), picks[n], answers[n])
  }

  // ---------- Requests and runs ----------

  datatype Event =
    | PutTenant(id: TenantId, tenant: Tenant)
    | Create(caller: TenantId, order: OrderCreate, newId: OrderId, now: int, initAnswer: InitAnswer)
    | Poll(caller: TenantId, ref: string, force: bool, pollAnswer: PollAnswer)
    | RefundRequest(caller: TenantId, ref: string, refund: RefundCreate, refundAnswer: RefundAnswer)
    | Webhook(hook: Hook)
    | Reconcile(threshold: int, picks: seq<OrderId>, answers: seq<PollAnswer>)

  // What the request schemas let through.
  predicate ValidOrder(d: OrderCreate) {
    1 <= |d.merchantOrderId| <= 255 && d.amount > 0 && |d.currency| <= 10
  }

  predicate ValidRefund(d: RefundCreate) {
    d.amount.Some? ==> d.amount.value > 0
  }

  ghost function Serve(s: Store, ev: Event): Reply {
    match ev
    case PutTenant(id, tenant) => Reply(s.(tenants := s.tenants[id := tenant]), Returned(Saved))
    case Create(caller, order, newId, now, pp) =>
      if ValidOrder(order) then CreateOrGet(s, caller, order, newId, now, pp) else Reply(s, Raised(Invalid))
    case Poll(caller, ref, force, pp) => Sync(s, caller, ref, force, pp)
    case RefundRequest(caller, ref, refund, pp) =>
      if ValidRefund(refund) then ProcessRefund(s, caller, ref, refund, pp) else Reply(s, Raised(Invalid))
    case Webhook(hook) => ReceiveHook(s, hook)
    case Reconcile(threshold, picks, answers) =>
      if QueryAnswer(s, threshold, picks) && |picks| == |answers| then
        var p := Pass(s, picks, answers);
        Reply(p.store, Returned(PassAnswer(p.count, p.dispatches)))
      else Reply(s, Raised(NotAQueryResult))
  }

  // The commit-or-rollback envelope.
  ghost function Step(s: Store, ev: Event): Store {
    var reply := Serve(s, ev);
    if reply.outcome.Returned? then reply.work else s
  }

  ghost function Run(s: Store, evs: seq<Event>): Store
    decreases |evs|
  {
    if evs == [] then s else Run(Step(s, evs[0]), evs[1..])
  }

  function EmptyStore(): Store {
    Store(map[], map[], [], [])
  }
}
