// The services as the application runs them: static methods that update the rows of a session in place,
// and the envelope that commits or rolls back. Each method is proved against its handler in Ledger.
module Services {
  import opened Basics
  import opened StatusMaps
  import opened Ledger
  import opened LedgerInvariants
  import Reconciliation

  class Database {
    var committed: Store

    constructor ()
      ensures committed == EmptyStore()
    {
      committed := EmptyStore();
    }
  }

  // A session works on a private copy until it commits.
  class Session {
    const db: Database
    var work: Store

    constructor (db: Database)
      ensures this.db == db && work == db.committed
    {
      this.db := db;
      work := db.committed;
    }

    method Commit()
      modifies db
      ensures db.committed == work
    {
      db.committed := work;
    }

    method Rollback()
      modifies this
      ensures work == db.committed
    {
      work := db.committed;
    }

    // Write an order row, new or changed.
    method PutOrder(id: OrderId, o: Order)
      modifies this`work
      ensures work == old(work).(orders := old(work).orders[id := o])
    {
      work := work.(orders := work.orders[id := o]);
    }

    method AddTxn(t: Txn)
      modifies this`work
      ensures work == old(work).(txns := old(work).txns + [t])
    {
      work := work.(txns := work.txns + [t]);
    }

    method AddLog(log: InboundLog)
      modifies this`work
      ensures work == old(work).(logs := old(work).logs + [log])
    {
      work := work.(logs := work.logs + [log]);
    }

    // Change the log row added last.
    method PutLastLog(log: InboundLog)
      requires work.logs != []
      modifies this`work
      ensures work == old(work).(logs := old(work).logs[..|old(work).logs| - 1] + [log])
    {
      work := work.(logs := work.logs[..|work.logs| - 1] + [log]);
    }
  }

  class OrderService {
    static method GetOrderByMerchantId(session: Session, t: TenantId, m: string) returns (r: Rows<OrderId>)
      ensures r == Find(session.work.orders, t, m)
    {
      var orders := session.work.orders;
      r := ReadScalar(set id | id in orders && orders[id].tenant == t && orders[id].merchantOrderId == m);
    }

    static method CreateOrGetOrder(session: Session, t: TenantId, data: OrderCreate, newId: OrderId, now: int,
                                   pp: InitAnswer) returns (outcome: Outcome)
      modifies session`work
      ensures Reply(session.work, outcome) == CreateOrGet(old(session.work), t, data, newId, now, pp)
    {
      var existing := GetOrderByMerchantId(session, t, data.merchantOrderId);
      if existing.ManyRows? {
        return Raised(MultipleResults);
      }
      if existing.OneRow? {
        return Returned(OrderAnswer(existing.row, session.work.orders[existing.row], false));
      }
      if newId in session.work.orders || t !in session.work.tenants {
        return Raised(IntegrityError);
      }
      session.PutOrder(newId, NewOrder(t, data, now));

      var order := session.work.orders[newId];
      match pp {
        case InitUnreadable =>
          return Raised(DecryptError);
        case InitOk(phonepeId, checkoutUrl, state) =>
          order := order.(phonepeId := phonepeId);
          order := order.(checkoutUrl := checkoutUrl);
          order := order.(status := Pending);
          session.PutOrder(newId, order);
          session.AddTxn(Txn(newId, Payment, data.amount, Pending, state, phonepeId));
          return Returned(OrderAnswer(newId, order, true));
        case InitRaised(message) =>
          order := order.(status := Failed);
          order := order.(errorCode := Some("PHONEPE_INIT_FAILED"));
          order := order.(errorMessage := Some(message));
          session.PutOrder(newId, order);
          return Raised(PhonePeError);
      }
    }

    static method GetAndSyncOrderStatus(session: Session, t: TenantId, m: string, force: bool, pp: PollAnswer)
      returns (outcome: Outcome)
      modifies session`work
      ensures Reply(session.work, outcome) == Sync(old(session.work), t, m, force, pp)
    {
      var found := GetOrderByMerchantId(session, t, m);
      if found.ManyRows? {
        return Raised(MultipleResults);
      }
      if found.NoRow? {
        return Raised(OrderNotFound);
      }
      var id := found.row;
      var order := session.work.orders[id];
      if force || order.status == Created || order.status == Pending {
        match pp {
          case PollOk(state, txnId) =>
            var canonical := PollStatus(StateText(state));
            if canonical != order.status {
              order := order.(status := canonical);
              session.PutOrder(id, order);
              session.AddTxn(Txn(id, Payment, order.amount, if canonical == Completed then Success else canonical,
                                 state, Or(txnId, order.phonepeId)));
            }
          case PollRaised =>
        }
      }
      outcome := Returned(OrderAnswer(id, session.work.orders[id], false));
    }
  }

  class RefundService {
    static method Process(session: Session, t: TenantId, m: string, data: RefundCreate, pp: RefundAnswer)
      returns (outcome: Outcome)
      modifies session`work
      ensures Reply(session.work, outcome) == ProcessRefund(old(session.work), t, m, data, pp)
    {
      var found := OrderService.GetOrderByMerchantId(session, t, m);
      if found.ManyRows? {
        return Raised(MultipleResults);
      }
      if found.NoRow? {
        return Raised(OrderNotFound);
      }
      var order := session.work.orders[found.row];
      if order.status != Completed && order.status != Success {
        return Raised(RefundError);
      }
      var amount := if data.amount.Some? && data.amount.value != 0 then data.amount.value else order.amount;
      if amount > order.amount {
        return Raised(RefundError);
      }
      match pp {
        case RefundUnreadable =>
          return Raised(DecryptError);
        case RefundOk(state, txnId) =>
          var txn := Txn(found.row, Refund, amount, RefundStatus(StateText(state)), state,
                         Or(txnId, Some(data.refundRef)));
          session.AddTxn(txn);
          return Returned(RefundAnswered(txn));
        case RefundRaised =>
          return Raised(RefundError);
      }
    }
  }

  class WebhookService {
    // Step 2: the order by its reference, its tenant, or else a tenant by merchant id.
    static method ResolveRows(session: Session, h: Hook) returns (r: Resolution, log: InboundLog)
      ensures r == Resolve(session.work, h)
      ensures r.Resolved? ==> log == HookLog(session.work, h, r)
    {
      log := InboundLog(h.code, None, None, Received, None);
      var order: Option<OrderId> := None;
      var tenant: Option<TenantId> := None;
      if Truthy(h.orderRef) {
        var orders := session.work.orders;
        var rows := ReadScalar(set id | id in orders && orders[id].merchantOrderId == h.orderRef.value);
        if rows.ManyRows? {
          return Ambiguous, log;
        }
        if rows.OneRow? {
          order := Some(rows.row);
          var owner := orders[rows.row].tenant;
          if owner in session.work.tenants {
            tenant := Some(owner);
          }
          log := log.(order := order);
          log := log.(tenant := Some(owner));
        }
      }
      if tenant.None? && Truthy(h.merchantId) {
        var tenants := session.work.tenants;
        var rows := ReadScalar(set t | t in tenants && tenants[t].merchantId == h.merchantId.value);
        if rows.ManyRows? {
          return Ambiguous, log;
        }
        if rows.OneRow? {
          tenant := Some(rows.row);
          log := log.(tenant := tenant);
        }
      }
      r := Resolved(order, tenant);
    }

    // Step 4: overwrite the order's status and add a PAYMENT entry.
    static method ApplyStatus(session: Session, id: OrderId, h: Hook)
      requires id in session.work.orders
      modifies session`work
      ensures session.work == HookRow(old(session.work), id, h)
    {
      var canonical := HookStatus(h.code);
      var row := session.work.orders[id];
      row := row.(status := canonical);
      if Truthy(h.txnId) {
        row := row.(phonepeId := h.txnId);
      }
      session.PutOrder(id, row);
      session.AddTxn(Txn(id, Payment, HookAmount(h, row), if canonical == Completed then Success else canonical,
                         Some(h.code), Or(h.txnId, row.phonepeId)));
    }

    static method ProcessInbound(session: Session, h: Hook) returns (outcome: Outcome)
      modifies session`work
      ensures Reply(session.work, outcome) == ReceiveHook(old(session.work), h)
    {
      hide HookRow, HookLog, HookOrder;
      var before := session.work;
      session.AddLog(InboundLog(h.code, None, None, Received, None));
      var r, log := ResolveRows(session, h);
      ResolveIgnoresLogs(before, session.work, h);
      if r.Ambiguous? {
        return Raised(MultipleResults);
      }
      session.PutLastLog(log);

      if r.tenant.Some? && h.signed {
        if h.verdict == CredentialsUnreadable {
          return Raised(DecryptError);
        }
        if h.verdict == Forged {
          log := log.(status := Rejected);
          log := log.(error := Some("Invalid webhook signature"));
          session.PutLastLog(log);
          return Returned(HookAnswer(false, []));
        }
      }
      if r.order.Some? {
        HookRowIgnoresLogs(before, session.work, r.order.value, h);
        ApplyStatus(session, r.order.value, h);
      }
      log := log.(status := Processed);
      session.PutLastLog(log);

      var dispatches := [];
      if r.tenant.Some? && session.work.tenants[r.tenant.value].HasWebhook() && r.order.Some? {
        dispatches := [Dispatch(r.tenant.value, r.order.value, HookStatus(h.code))];
      }
      outcome := Returned(HookAnswer(true, dispatches));
    }

    static lemma ResolveIgnoresLogs(s: Store, s': Store, h: Hook)
      requires s'.orders == s.orders && s'.tenants == s.tenants
      ensures Resolve(s', h) == Resolve(s, h)
      ensures Resolve(s, h).Resolved? ==> HookLog(s', h, Resolve(s, h)) == HookLog(s, h, Resolve(s, h))
    {
    }

    static lemma HookRowIgnoresLogs(s: Store, s': Store, id: OrderId, h: Hook)
      requires s' == s.(logs := s'.logs) && id in s.orders
      ensures HookRow(s', id, h) == HookRow(s, id, h).(logs := s'.logs)
      ensures HookRow(s, id, h).tenants == s.tenants && HookRow(s, id, h).logs == s.logs
    {
    }
  }

  class ReconciliationService {
    // The loop over the batch that the query returned.
    static method RunOnSession(session: Session, threshold: int, picks: seq<OrderId>, answers: seq<PollAnswer>)
      returns (count: nat, dispatches: seq<Dispatch>)
      requires QueryAnswer(session.work, threshold, picks) && |picks| == |answers|
      modifies session`work
      ensures PassState(session.work, count, dispatches) == Pass(old(session.work), picks, answers)
    {
      hide PassOne, Sync;
      var before := session.work;
      count, dispatches := 0, [];
      for i := 0 to |picks|
        invariant PassState(session.work, count, dispatches) == Pass(before, picks[..i], answers[..i])
      {
        assert picks[..i + 1][..i] == picks[..i] && answers[..i + 1][..i] == answers[..i];
        count, dispatches := RunOne(session, picks[i], answers[i], count, dispatches);
      }
      assert picks[..|picks|] == picks && answers[..|picks|] == answers;
    }

    static method RunOne(session: Session, id: OrderId, pp: PollAnswer, count0: nat, dispatches0: seq<Dispatch>)
      returns (count: nat, dispatches: seq<Dispatch>)
      modifies session`work
      ensures PassState(session.work, count, dispatches)
           == PassOne(PassState(old(session.work), count0, dispatches0), id, pp)
    {
      count, dispatches := count0, dispatches0;
      if !Eligible(session.work, id) {
        return;
      }
      var before := session.work;
      var order := session.work.orders[id];
      var prev := order.status;
      var reply := OrderService.GetAndSyncOrderStatus(session, order.tenant, order.merchantOrderId, true, pp);
      if reply.Returned? && reply.answer.order.status != prev {
        count := count + 1;
        if before.tenants[order.tenant].HasWebhook() {
          dispatches := dispatches + [Dispatch(order.tenant, reply.answer.id, reply.answer.order.status)];
        }
      }
    }

    // The scheduled pass opens its own session and closes it without committing: whatever it counts and
    // announces, and it does so exactly when PhonePe settles a pick, the committed store stays as it was.
    static method RunInBackground(db: Database, threshold: int, picks: seq<OrderId>, answers: seq<PollAnswer>)
      returns (count: nat, dispatches: seq<Dispatch>)
      requires QueryAnswer(db.committed, threshold, picks) && |picks| == |answers|
      modifies db
      ensures count == Pass(old(db.committed), picks, answers).count
      ensures dispatches == Pass(old(db.committed), picks, answers).dispatches
      ensures Reachable(old(db.committed)) ==>
        (count > 0 <==> Reconciliation.SomeSettles(old(db.committed), picks, answers))
      ensures db.committed == old(db.committed)
    {
      if Reachable(db.committed) {
        Reconciliation.CountsExactlyWhenSettled(db.committed, threshold, picks, answers);
      }
      var session := new Session(db);
      count, dispatches := RunOnSession(session, threshold, picks, answers);
      session.Rollback();
    }
  }

  method Dispatcher(session: Session, ev: Event) returns (outcome: Outcome)
    modifies session`work
    ensures Reply(session.work, outcome) == Serve(old(session.work), ev)
  {
    hide CreateOrGet, Sync, ProcessRefund, ReceiveHook, Pass;
    match ev {
      case PutTenant(id, tenant) =>
        session.work := session.work.(tenants := session.work.tenants[id := tenant]);
        return Returned(Saved);
      case Create(caller, order, newId, now, pp) =>
        if !ValidOrder(order) {
          return Raised(Invalid);
        }
        outcome := OrderService.CreateOrGetOrder(session, caller, order, newId, now, pp);
      case Poll(caller, ref, force, pp) =>
        outcome := OrderService.GetAndSyncOrderStatus(session, caller, ref, force, pp);
      case RefundRequest(caller, ref, refund, pp) =>
        if !ValidRefund(refund) {
          return Raised(Invalid);
        }
        outcome := RefundService.Process(session, caller, ref, refund, pp);
      case Webhook(hook) =>
        outcome := WebhookService.ProcessInbound(session, hook);
      case Reconcile(threshold, picks, answers) =>
        if QueryAnswer(session.work, threshold, picks) && |picks| == |answers| {
          var count, dispatches := ReconciliationService.RunOnSession(session, threshold, picks, answers);
          return Returned(PassAnswer(count, dispatches));
        }
        return Raised(NotAQueryResult);
    }
  }

  // One request: a fresh session, the handler, then commit if it returned and rollback if it raised.
  method HandleRequest(db: Database, ev: Event) returns (outcome: Outcome)
    modifies db
    ensures db.committed == Step(old(db.committed), ev)
    ensures outcome == Serve(old(db.committed), ev).outcome
    ensures outcome.Raised? ==> db.committed == old(db.committed)
    ensures old(Inv(db.committed)) ==> Inv(db.committed) && Extends(old(db.committed), db.committed)
  {
    hide Serve, Inv, Extends;
    if Inv(db.committed) {
      StepKeeps(db.committed, ev);
    }
    var session := new Session(db);
    outcome := Dispatcher(session, ev);
    if outcome.Returned? {
      session.Commit();
    } else {
      session.Rollback();
    }
  }
}
