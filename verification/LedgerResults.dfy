// What the invariants mean for the ledger as a reader of its rows sees it.
module LedgerResults {
  import opened Basics
  import opened StatusMaps
  import opened Ledger
  import opened LedgerInvariants
  import ReportHistory

  // Entry j is the nearest PAYMENT entry of the order before position k.
  ghost predicate NearestPayment(txns: seq<Txn>, id: OrderId, j: int, k: int) {
    && 0 <= j < k <= |txns|
    && txns[j].order == id && txns[j].kind == Payment
    && forall i :: j < i < k ==> !(txns[i].order == id && txns[i].kind == Payment)
  }

  lemma {:induction false} LastIsNearest(txns: seq<Txn>, id: OrderId, k: nat, status: Status) returns (j: nat)
    requires k <= |txns| && LastIs(Payments(txns[..k], id), status)
    ensures NearestPayment(txns, id, j, k) && txns[j].status == status
  {
    var last := txns[..k][k - 1];
    assert txns[..k][..k - 1] == txns[..k - 1];
    if last.order == id && last.kind == Payment {
      j := k - 1;
    } else {
      assert Payments(txns[..k], id) == Payments(txns[..k - 1], id);
      j := LastIsNearest(txns, id, k - 1, status);
    }
  }

  // Four services write orders and entries independently, yet the latest PAYMENT entry of every order
  // always carries the order's status.
  lemma LatestPaymentAgrees(s: Store, id: OrderId) returns (j: nat)
    requires Reachable(s) && id in s.orders
    ensures NearestPayment(s.txns, id, j, |s.txns|)
    ensures s.txns[j].status == TxStatus(s.orders[id].status)
  {
    ReachableInv(s);
    assert s.txns[..|s.txns|] == s.txns;
    j := LastIsNearest(s.txns, id, |s.txns|, TxStatus(s.orders[id].status));
  }

  // Every refund ever recorded follows a successful payment and is no larger than its order.
  lemma RefundFollowsSuccess(s: Store, k: nat) returns (j: nat)
    requires Reachable(s) && k < |s.txns| && s.txns[k].kind == Refund
    ensures s.txns[k].order in s.orders && 0 < s.txns[k].amount <= s.orders[s.txns[k].order].amount
    ensures NearestPayment(s.txns, s.txns[k].order, j, k) && s.txns[j].status == Success
  {
    ReachableInv(s);
    assert Justified(s.orders, s.txns, k);
    j := LastIsNearest(s.txns, s.txns[k].order, k, Success);
  }

  // When a refund request is served: the order exists, is COMPLETED, and covers the amount. The guard's
  // second accepted status, SUCCESS, never occurs on an order.
  predicate Grants(o: Order, d: RefundCreate, pp: RefundAnswer) {
    && o.status == Completed && pp.RefundOk?
    && match d.amount { case None => true case Some(x) => 0 < x <= o.amount }
  }

  ghost function RefundOf(o: Order, d: RefundCreate, pp: RefundAnswer): Event {
    RefundRequest(o.tenant, o.merchantOrderId, d, pp)
  }

  lemma RefundServedExactlyWhen(s: Store, id: OrderId, d: RefundCreate, pp: RefundAnswer)
    requires Reachable(s) && id in s.orders
    ensures s.orders[id].status != Success && s.orders[id].status != Created
    ensures Serve(s, RefundOf(s.orders[id], d, pp)).outcome.Returned? <==> Grants(s.orders[id], d, pp)
  {
    ReachableInv(s);
    assert RowOk(s.tenants, s.orders[id]);
    FindUnique(s.orders, id);
  }

  // ---------- Where orders and amounts come from ----------

  // The order a create request asked for and PhonePe agreed to, as it stands for good.
  ghost predicate CreatedBy(o: Order, ev: Event) {
    && ev.Create? && ValidOrder(ev.order) && ev.initAnswer.InitOk?
    && o.tenant == ev.caller
    && o.merchantOrderId == ev.order.merchantOrderId
    && o.amount == ev.order.amount
    && o.currency == ev.order.currency
    && o.redirectUrl == ev.order.redirectUrl
    && o.checkoutUrl == ev.initAnswer.checkoutUrl
    && o.createdAt == ev.now
  }

  lemma StepOrigin(s: Store, ev: Event, id: OrderId)
    requires Inv(s) && id !in s.orders && id in Step(s, ev).orders
    ensures ev.Create? && ev.newId == id && CreatedBy(Step(s, ev).orders[id], ev)
  {
    hide Inv;
    ReportHistory.StepCreates(s, ev, id);
  }

  // Request j of the run is the one answered with a newly created order of this id.
  ghost predicate Creates(s: Store, evs: seq<Event>, j: nat, id: OrderId) {
    && j < |evs| && evs[j].Create? && evs[j].newId == id
    && var outcome := Serve(Run(s, evs[..j]), evs[j]).outcome;
       outcome.Returned? && outcome.answer.OrderAnswer? && outcome.answer.id == id && outcome.answer.created
  }

  lemma CreatesTail(s: Store, evs: seq<Event>, j: nat, id: OrderId)
    requires evs != []
    ensures Creates(s, evs, j + 1, id) <==> Creates(Step(s, evs[0]), evs[1..], j, id)
  {
    hide Step, Serve;
    if j + 1 < |evs| {
      assert evs[..j + 1][0] == evs[0] && evs[..j + 1][1..] == evs[1..][..j];
    }
  }

  lemma CreatesNoneTaken(s: Store, evs: seq<Event>, j: nat, id: OrderId)
    requires Inv(s) && id in s.orders
    ensures !Creates(s, evs, j, id)
  {
    hide Inv;
    if j < |evs| {
      RunKeeps(s, evs[..j]);
    }
  }

  // Every order of every run goes back to the one create request that was answered with it as newly created,
  // and keeps that request's terms: no poll, webhook, refund or reconciliation ever changes its amount,
  // currency, URLs or owner.
  lemma {:induction false} OrderOrigin(s: Store, evs: seq<Event>, id: OrderId) returns (i: nat)
    requires Inv(s) && id !in s.orders && id in Run(s, evs).orders
    ensures i < |evs| && Creates(s, evs, i, id) && CreatedBy(Run(s, evs).orders[id], evs[i])
    ensures forall j :: Creates(s, evs, j, id) ==> j == i
    decreases |evs|
  {
    hide Inv, Step, Serve, CreatedBy, Creates;
    var next := Step(s, evs[0]);
    StepKeeps(s, evs[0]);
    if id in next.orders {
      StepOrigin(s, evs[0], id);
      RunKeeps(next, evs[1..]);
      OriginLasts(next.orders[id], Run(s, evs).orders[id], evs[0]);
      i := 0;
      assert Creates(s, evs, 0, id) by { CreatesFirst(s, evs, id); }
      forall j: nat | Creates(s, evs, j, id) ensures j == 0 {
        if j > 0 {
          CreatesTail(s, evs, j - 1, id);
          CreatesNoneTaken(next, evs[1..], j - 1, id);
        }
      }
    } else {
      var k := OrderOrigin(next, evs[1..], id);
      i := k + 1;
      CreatesTail(s, evs, k, id);
      forall j: nat | Creates(s, evs, j, id) ensures j == i {
        if j > 0 {
          CreatesTail(s, evs, j - 1, id);
        } else {
          CreatesFirstOnly(s, evs, id);
        }
      }
    }
  }

  lemma CreatesFirst(s: Store, evs: seq<Event>, id: OrderId)
    requires Inv(s) && evs != [] && id !in s.orders && id in Step(s, evs[0]).orders
    ensures Creates(s, evs, 0, id)
  {
    hide Inv, Step, Serve;
    ReportHistory.StepCreates(s, evs[0], id);
    StepOrigin(s, evs[0], id);
    assert evs[..0] == [];
  }

  lemma CreatesFirstOnly(s: Store, evs: seq<Event>, id: OrderId)
    requires Creates(s, evs, 0, id)
    ensures id in Step(s, evs[0]).orders
  {
    assert evs[..0] == [];
  }

  lemma OriginLasts(o: Order, o': Order, ev: Event)
    requires CreatedBy(o, ev) && o' == o.(status := o'.status, phonepeId := o'.phonepeId)
    ensures CreatedBy(o', ev)
  {
  }

  // PAYMENT entries carry their order's amount.
  ghost predicate AmountsOk(orders: map<OrderId, Order>, txns: seq<Txn>) {
    forall k :: 0 <= k < |txns| && txns[k].kind == Payment ==>
      txns[k].order in orders && txns[k].amount == orders[txns[k].order].amount
  }

  // A webhook that is accepted for an order reports that order's amount, or none.
  ghost predicate Fits(s: Store, ev: Event) {
    ev.Webhook? && ReportHistory.Accepted(s, ev.hook) && HookOrder(s, ev.hook).OneRow? ==>
      HookAmount(ev.hook, s.orders[HookOrder(s, ev.hook).row]) == s.orders[HookOrder(s, ev.hook).row].amount
  }

  lemma RecordAmounts(s: Store, id: OrderId, status: Status, ppId: Option<string>,
                      amount: int, state: Option<string>, txnId: Option<string>)
    requires id in s.orders
    ensures var s' := Record(s, id, status, ppId, amount, state, txnId);
            AmountsOk(s'.orders, s'.txns) <==> AmountsOk(s.orders, s.txns) && amount == s.orders[id].amount
  {
    var s' := Record(s, id, status, ppId, amount, state, txnId);
    if AmountsOk(s'.orders, s'.txns) {
      assert s'.txns[|s.txns|].amount == amount;
      forall k | 0 <= k < |s.txns| && s.txns[k].kind == Payment
        ensures s.txns[k].order in s.orders && s.txns[k].amount == s.orders[s.txns[k].order].amount
      {
        assert s'.txns[k] == s.txns[k];
      }
    }
  }

  lemma SyncRowAmounts(s: Store, id: OrderId, force: bool, pp: PollAnswer)
    requires id in s.orders && AmountsOk(s.orders, s.txns)
    ensures var s' := SyncRow(s, id, force, pp); AmountsOk(s'.orders, s'.txns)
  {
    hide AmountsOk, Record;
    var o := s.orders[id];
    RecordAmounts(s, id, PollStatus(if pp.PollOk? then StateText(pp.state) else ""), o.phonepeId, o.amount,
                  if pp.PollOk? then pp.state else None, Or(if pp.PollOk? then pp.txnId else None, o.phonepeId));
  }

  lemma {:induction false} PassAmounts(s: Store, picks: seq<OrderId>, answers: seq<PollAnswer>)
    requires Inv(s) && |picks| == |answers| && AmountsOk(s.orders, s.txns)
    ensures var s' := Pass(s, picks, answers).store; AmountsOk(s'.orders, s'.txns)
    decreases |picks|
  {
    hide Inv, AmountsOk, SyncRow, Extends;
    if picks == [] {
    } else {
      var n := |picks| - 1;
      PassKeeps(s, picks[..n], answers[..n]);
      PassAmounts(s, picks[..n], answers[..n]);
      var p := Pass(s, picks[..n], answers[..n]);
      PassOneKeeps(p, picks[n], answers[n]);
      if Eligible(p.store, picks[n]) {
        SyncRowAmounts(p.store, picks[n], true, answers[n]);
      }
    }
  }

  lemma HookAmounts(s: Store, ev: Event)
    requires ev.Webhook? && AmountsOk(s.orders, s.txns)
    ensures AmountsOk(Step(s, ev).orders, Step(s, ev).txns) <==> Fits(s, ev)
  {
    hide AmountsOk, Record, HookOrder, HookLog;
    var r := Resolve(s, ev.hook);
    if r.Resolved? && r.order.Some? {
      var o := s.orders[r.order.value];
      var ppId := Or(ev.hook.txnId, o.phonepeId);
      RecordAmounts(s, r.order.value, HookStatus(ev.hook.code), ppId, HookAmount(ev.hook, o), Some(ev.hook.code), ppId);
    }
  }

  // Entries and amounts stay, so a wrong entry is never mended.
  lemma WrongAmountStays(s: Store, s': Store)
    requires Inv(s) && Extends(s, s') && AmountsOk(s'.orders, s'.txns)
    ensures AmountsOk(s.orders, s.txns)
  {
    hide Justified, Agrees, LogsOk;
    forall k | 0 <= k < |s.txns| && s.txns[k].kind == Payment
      ensures s.txns[k].amount == s.orders[s.txns[k].order].amount
    {
      assert s.txns[k].order in s.orders && s'.txns[k] == s.txns[k];
    }
  }

  // One request keeps the PAYMENT entries at their orders' amounts if and only if it fits.
  lemma StepAmounts(s: Store, ev: Event)
    requires Inv(s)
    ensures AmountsOk(Step(s, ev).orders, Step(s, ev).txns) <==> AmountsOk(s.orders, s.txns) && Fits(s, ev)
  {
    hide Inv, Extends, SyncRow, Pass, ReceiveHook, Find, Fits, AmountsOk;
    StepKeeps(s, ev);
    if AmountsOk(Step(s, ev).orders, Step(s, ev).txns) {
      WrongAmountStays(s, Step(s, ev));
    }
    if AmountsOk(s.orders, s.txns) {
      FitsOrHook(s, ev);
    }
  }

  lemma FitsOrHook(s: Store, ev: Event)
    requires Inv(s) && AmountsOk(s.orders, s.txns)
    ensures AmountsOk(Step(s, ev).orders, Step(s, ev).txns) <==> Fits(s, ev)
  {
    hide Inv, SyncRow, Pass, ReceiveHook, Find;
    match ev
    case Poll(caller, ref, force, pp) =>
      if Find(s.orders, caller, ref).OneRow? {
        SyncRowAmounts(s, Find(s.orders, caller, ref).row, force, pp);
      }
    case Webhook(_) => HookAmounts(s, ev);
    case Reconcile(_, picks, answers) =>
      if |picks| == |answers| {
        PassAmounts(s, picks, answers);
      }
    case _ =>
  }

  ghost predicate AllFit(s: Store, evs: seq<Event>)
    decreases |evs|
  {
    evs == [] || (Fits(s, evs[0]) && AllFit(Step(s, evs[0]), evs[1..]))
  }

  // Every PAYMENT entry of a run carries its order's amount if and only if every webhook accepted along the run
  // reported the amount of the order it reached, or none.
  lemma {:induction false} PaymentAmounts(s: Store, evs: seq<Event>)
    requires Inv(s)
    ensures AmountsOk(Run(s, evs).orders, Run(s, evs).txns) <==> AmountsOk(s.orders, s.txns) && AllFit(s, evs)
    decreases |evs|
  {
    hide Inv, Step, AmountsOk, Fits;
    if evs == [] {
    } else {
      StepKeeps(s, evs[0]);
      StepAmounts(s, evs[0]);
      PaymentAmounts(Step(s, evs[0]), evs[1..]);
    }
  }

  // ---------- Refunds are checked one at a time ----------

  function RefundTotal(txns: seq<Txn>, id: OrderId): int {
    if txns == [] then 0
    else
      var n := |txns| - 1;
      RefundTotal(txns[..n], id) + if txns[n].order == id && txns[n].kind == Refund then txns[n].amount else 0
  }

  lemma RefundTotalAppend(txns: seq<Txn>, t: Txn, id: OrderId)
    ensures RefundTotal(txns + [t], id) ==
            RefundTotal(txns, id) + if t.order == id && t.kind == Refund then t.amount else 0
  {
    assert (txns + [t])[..|txns|] == txns;
  }

  // What a refund request asks for: all of the order, unless it names an amount.
  function Asked(d: RefundCreate, o: Order): int {
    match d.amount case None => o.amount case Some(x) => x
  }

  // What a request grants to an order, by its guard and its amount.
  ghost function Granted(s: Store, ev: Event, id: OrderId): int {
    if id in s.orders && ev.RefundRequest? && HasKey(s.orders[id], ev.caller, ev.ref)
       && Grants(s.orders[id], ev.refund, ev.refundAnswer)
    then Asked(ev.refund, s.orders[id]) else 0
  }

  lemma {:induction false} PassRefunds(s: Store, picks: seq<OrderId>, answers: seq<PollAnswer>, id: OrderId)
    requires Inv(s) && |picks| == |answers|
    ensures RefundTotal(Pass(s, picks, answers).store.txns, id) == RefundTotal(s.txns, id)
    decreases |picks|
  {
    hide Inv, Extends, PassOne, RefundTotal;
    if picks == [] {
    } else {
      var n := |picks| - 1;
      PassKeeps(s, picks[..n], answers[..n]);
      PassRefunds(s, picks[..n], answers[..n], id);
      PassOneRefunds(Pass(s, picks[..n], answers[..n]), picks[n], answers[n], id);
    }
  }

  lemma PassOneRefunds(p: PassState, target: OrderId, pp: PollAnswer, id: OrderId)
    requires Inv(p.store)
    ensures RefundTotal(PassOne(p, target, pp).store.txns, id) == RefundTotal(p.store.txns, id)
  {
    hide Inv, Extends, SyncRow;
    PassOneKeeps(p, target, pp);
    if Eligible(p.store, target) {
      SyncRowRefunds(p.store, target, true, pp, id);
    }
  }

  lemma SyncRowRefunds(s: Store, target: OrderId, force: bool, pp: PollAnswer, id: OrderId)
    requires target in s.orders
    ensures RefundTotal(SyncRow(s, target, force, pp).txns, id) == RefundTotal(s.txns, id)
  {
    hide RefundTotal;
    var s' := SyncRow(s, target, force, pp);
    if s' != s {
      RefundTotalAppend(s.txns, s'.txns[|s.txns|], id);
    }
  }

  lemma HookRefunds(s: Store, h: Hook, id: OrderId)
    ensures RefundTotal(Step(s, Webhook(h)).txns, id) == RefundTotal(s.txns, id)
  {
    hide RefundTotal, HookOrder, HookLog;
    var s' := Step(s, Webhook(h));
    if |s'.txns| == |s.txns| + 1 {
      RefundTotalAppend(s.txns, s'.txns[|s.txns|], id);
    }
  }

  lemma RequestRefunds(s: Store, ev: Event, id: OrderId)
    requires Inv(s) && ev.RefundRequest? && id in s.orders
    ensures RefundTotal(Step(s, ev).txns, id) == RefundTotal(s.txns, id) + Granted(s, ev, id)
  {
    hide RefundTotal, TxnsOk, Agrees, LogsOk, Find;
    FindSpec(s.orders, ev.caller, ev.ref);
    var found := Find(s.orders, ev.caller, ev.ref);
    if found.OneRow? {
      assert RowOk(s.tenants, s.orders[found.row]);
      if HasKey(s.orders[id], ev.caller, ev.ref) {
        assert SameKey(s.orders[id], s.orders[found.row]);
      }
      if |Step(s, ev).txns| == |s.txns| + 1 {
        RefundTotalAppend(s.txns, Step(s, ev).txns[|s.txns|], id);
      }
    } else {
      assert !HasKey(s.orders[id], ev.caller, ev.ref);
    }
  }

  // One request adds to an order's refunds what it grants, nothing when it is refused or of another kind.
  lemma StepRefunds(s: Store, ev: Event, id: OrderId)
    requires Inv(s) && id in s.orders
    ensures RefundTotal(Step(s, ev).txns, id) == RefundTotal(s.txns, id) + Granted(s, ev, id)
  {
    hide Inv, RefundTotal, SyncRow, Pass, ReceiveHook;
    match ev
    case PutTenant(_, _) =>
    case Create(_, _, _, _, _) =>
      if |Step(s, ev).txns| == |s.txns| + 1 {
        RefundTotalAppend(s.txns, Step(s, ev).txns[|s.txns|], id);
      }
    case Poll(caller, ref, force, pp) =>
      if Find(s.orders, caller, ref).OneRow? {
        SyncRowRefunds(s, Find(s.orders, caller, ref).row, force, pp, id);
      }
    case RefundRequest(_, _, _, _) => RequestRefunds(s, ev, id);
    case Webhook(hook) => HookRefunds(s, hook, id);
    case Reconcile(_, picks, answers) =>
      if |picks| == |answers| {
        PassRefunds(s, picks, answers, id);
      }
  }

  ghost function GrantedTotal(s: Store, evs: seq<Event>, id: OrderId): int
    decreases |evs|
  {
    if evs == [] then 0 else Granted(s, evs[0], id) + GrantedTotal(Step(s, evs[0]), evs[1..], id)
  }

  // Each grant of the run fits into what the earlier refunds have left of the amount.
  ghost predicate GrantsFit(s: Store, evs: seq<Event>, id: OrderId, amount: int)
    decreases |evs|
  {
    evs == [] || (RefundTotal(s.txns, id) + Granted(s, evs[0], id) <= amount
                  && GrantsFit(Step(s, evs[0]), evs[1..], id, amount))
  }

  lemma GrantedSign(s: Store, ev: Event, id: OrderId)
    requires Inv(s)
    ensures Granted(s, ev, id) >= 0
  {
    hide TxnsOk, Agrees, LogsOk, UniqueKeys;
    if id in s.orders {
      assert RowOk(s.tenants, s.orders[id]);
    }
  }

  // In every run an order's refunds are what the requests granted, each judged alone. They stay within its
  // amount if and only if each grant fits what was left when it was made, which no request checks.
  lemma {:induction false} RefundsBoundedExactlyWhen(s: Store, evs: seq<Event>, id: OrderId)
    requires Inv(s) && id in s.orders
    ensures id in Run(s, evs).orders && Run(s, evs).orders[id].amount == s.orders[id].amount
    ensures RefundTotal(Run(s, evs).txns, id) == RefundTotal(s.txns, id) + GrantedTotal(s, evs, id)
    ensures GrantedTotal(s, evs, id) >= 0
    ensures RefundTotal(Run(s, evs).txns, id) <= s.orders[id].amount <==>
            RefundTotal(s.txns, id) <= s.orders[id].amount && GrantsFit(s, evs, id, s.orders[id].amount)
    decreases |evs|
  {
    hide Inv, Step, RefundTotal, Granted;
    if evs == [] {
    } else {
      StepKeeps(s, evs[0]);
      StepRefunds(s, evs[0], id);
      GrantedSign(s, evs[0], id);
      RefundsBoundedExactlyWhen(Step(s, evs[0]), evs[1..], id);
    }
  }

  // The design asks for idempotent refunds. Repeating a request is harmless if and only if it is refused.
  lemma RefundIdempotentExactlyWhen(s: Store, id: OrderId, d: RefundCreate, pp: RefundAnswer)
    requires Reachable(s) && id in s.orders
    ensures var ev := RefundOf(s.orders[id], d, pp);
            Step(Step(s, ev), ev) == Step(s, ev) <==> !Grants(s.orders[id], d, pp)
  {
    hide Inv, RefundTotal, Granted;
    var ev := RefundOf(s.orders[id], d, pp);
    RefundServedExactlyWhen(s, id, d, pp);
    if Grants(s.orders[id], d, pp) {
      ReachableInv(s);
      StepKeeps(s, ev);
      GrantedTwice(s, id, d, pp);
      StepRefunds(s, ev, id);
      StepRefunds(Step(s, ev), ev, id);
    }
  }

  lemma GrantedTwice(s: Store, id: OrderId, d: RefundCreate, pp: RefundAnswer)
    requires Inv(s) && id in s.orders && Grants(s.orders[id], d, pp)
    ensures var ev := RefundOf(s.orders[id], d, pp);
            && Granted(s, ev, id) == Asked(d, s.orders[id]) > 0
            && Step(s, ev).orders == s.orders && Granted(Step(s, ev), ev, id) == Granted(s, ev, id)
  {
    hide TxnsOk, Agrees, LogsOk;
    assert RowOk(s.tenants, s.orders[id]);
    FindUnique(s.orders, id);
  }

  // Whatever the store, n repetitions of a granted request add n times its amount.
  lemma {:induction false} RefundsAccumulate(s: Store, id: OrderId, d: RefundCreate, pp: RefundAnswer, n: nat)
    requires Inv(s) && id in s.orders && Grants(s.orders[id], d, pp)
    ensures var s' := Run(s, seq(n, _ => RefundOf(s.orders[id], d, pp)));
            && s'.orders == s.orders
            && RefundTotal(s'.txns, id) == RefundTotal(s.txns, id) + n * Asked(d, s.orders[id])
    decreases n
  {
    hide Inv, Step, RefundOf, RefundTotal, Granted, Asked;
    var ev := RefundOf(s.orders[id], d, pp);
    if n == 0 {
    } else {
      var next := Step(s, ev);
      StepKeeps(s, ev);
      GrantedTwice(s, id, d, pp);
      StepRefunds(s, ev, id);
      RefundsAccumulate(next, id, d, pp, n - 1);
      assert seq(n, _ => ev)[1..] == seq(n - 1, _ => ev);
      Distribute(n, Asked(d, s.orders[id]));
    }
  }

  lemma Distribute(n: int, x: int)
    ensures n * x == (n - 1) * x + x
  {
  }

  // ---------- Webhook and poll ----------

  // A genuine webhook and a forced poll that read the same upstream state bring an order to the same
  // status in either order, and the poll after the webhook writes nothing at all.
  lemma WebhookAndPollAgree(s: Store, h: Hook, id: OrderId, txnId: Option<string>)
    requires Inv(s) && HookOrder(s, h) == OneRow(id) && id in s.orders && (h.signed ==> h.verdict == Genuine)
    ensures var poll := Poll(s.orders[id].tenant, s.orders[id].merchantOrderId, true, PollOk(Some(h.code), txnId));
            var hooked := Step(s, Webhook(h));
            var polled := Step(s, poll);
            && id in hooked.orders && id in polled.orders && id in Step(polled, Webhook(h)).orders
            && Step(hooked, poll) == hooked
            && hooked.orders[id].status == HookStatus(h.code)
            && polled.orders[id].status == HookStatus(h.code)
            && Step(polled, Webhook(h)).orders[id].status == HookStatus(h.code)
  {
    hide RowsOk, TxnsOk, Agrees, LogsOk, Payments;
    var o := s.orders[id];
    var poll := Poll(o.tenant, o.merchantOrderId, true, PollOk(Some(h.code), txnId));
    MapsAgree(h.code);
    AcceptedHook(s, h, id);
    StepKeeps(s, Webhook(h));
    FindUnique(Step(s, Webhook(h)).orders, id);
    FindUnique(s.orders, id);
    var polled := Step(s, poll);
    StepKeeps(s, poll);
    SyncRowFrame(s, id, true, poll.pollAnswer);
    SameRefs(s.orders, polled.orders, h);
    AcceptedHook(polled, h, id);
  }

  lemma AcceptedHook(s: Store, h: Hook, id: OrderId)
    requires Inv(s) && HookOrder(s, h) == OneRow(id) && (h.signed ==> h.verdict == Genuine)
    ensures id in Step(s, Webhook(h)).orders
    ensures Step(s, Webhook(h)).orders[id].status == HookStatus(h.code)
  {
    hide UniqueKeys, TxnsOk, Agrees, LogsOk, HookOrder;
    assert RowOk(s.tenants, s.orders[id]);
  }

  lemma SyncRowFrame(s: Store, id: OrderId, force: bool, pp: PollAnswer)
    requires id in s.orders
    ensures var s' := SyncRow(s, id, force, pp);
            s'.orders.Keys == s.orders.Keys && s'.tenants == s.tenants &&
            forall i :: i in s.orders ==> SameKey(s'.orders[i], s.orders[i])
  {
  }

  lemma SameRefs(orders: map<OrderId, Order>, orders': map<OrderId, Order>, h: Hook)
    requires orders'.Keys == orders.Keys
    requires forall i :: i in orders ==> SameKey(orders'[i], orders[i])
    ensures Truthy(h.orderRef) ==> FindByRef(orders', h.orderRef.value) == FindByRef(orders, h.orderRef.value)
  {
    if Truthy(h.orderRef) {
      assert (set i | i in orders' && orders'[i].merchantOrderId == h.orderRef.value)
          == (set i | i in orders && orders[i].merchantOrderId == h.orderRef.value);
    }
  }

  // ---------- Webhooks and their orders ----------

  ghost predicate AppendsPayment(s: Store, s': Store, id: OrderId) {
    |s'.txns| == |s.txns| + 1 && s'.txns[..|s.txns|] == s.txns
    && s'.txns[|s.txns|].order == id && s'.txns[|s.txns|].kind == Payment
  }

  // An order of another tenant carries the same merchant order id.
  ghost predicate Shared(s: Store, id: OrderId)
    requires id in s.orders
  {
    exists other :: other in s.orders && s.orders[other].tenant != s.orders[id].tenant
                    && s.orders[other].merchantOrderId == s.orders[id].merchantOrderId
  }

  lemma RefFindsExactlyUnshared(s: Store, id: OrderId)
    requires UniqueKeys(s.orders) && id in s.orders
    ensures FindByRef(s.orders, s.orders[id].merchantOrderId) == if Shared(s, id) then ManyRows else OneRow(id)
  {
    var ids := set i | i in s.orders && s.orders[i].merchantOrderId == s.orders[id].merchantOrderId;
    if Shared(s, id) {
      var other :| other in s.orders && s.orders[other].tenant != s.orders[id].tenant
                   && s.orders[other].merchantOrderId == s.orders[id].merchantOrderId;
      assert id in ids && other in ids;
    } else {
      forall i | i in ids ensures i == id {
        assert SameKey(s.orders[i], s.orders[id]);
      }
      OnlyElement(ids, id);
    }
  }

  // Merchant order ids are unique per tenant, but webhooks look them up across tenants. A webhook that names
  // an order, unsigned or genuine, reaches it if and only if no other tenant uses the same id; otherwise the
  // request raises and nothing is written.
  lemma HookReachesExactlyUnshared(s: Store, id: OrderId, h: Hook)
    requires Reachable(s) && id in s.orders
    requires h.orderRef == Some(s.orders[id].merchantOrderId) && (h.signed ==> h.verdict == Genuine)
    ensures var s' := Step(s, Webhook(h));
            && (AppendsPayment(s, s', id) <==> !Shared(s, id))
            && (!Shared(s, id) ==> id in s'.orders && s'.orders[id].status == HookStatus(h.code))
            && (Shared(s, id) ==> s' == s && Serve(s, Webhook(h)).outcome == Raised(MultipleResults))
  {
    hide UniqueKeys, TxnsOk, Agrees, LogsOk, Shared, Reachable, FindByRef;
    ReachableInv(s);
    assert RowOk(s.tenants, s.orders[id]);
    RefFindsExactlyUnshared(s, id);
  }

  // The design asks that unverified webhooks not be processed. One whose signature would not hold writes to
  // the order it names if and only if it carries no signature header; with one, orders and ledger stay.
  lemma ForgedHookWritesExactlyWhenUnsigned(s: Store, h: Hook, id: OrderId)
    requires Reachable(s) && HookOrder(s, h) == OneRow(id) && h.verdict == Forged
    ensures var s' := Step(s, Webhook(h));
            && (AppendsPayment(s, s', id) <==> !h.signed)
            && (!h.signed ==> id in s'.orders && s'.orders[id].status == HookStatus(h.code))
            && (h.signed ==> s'.orders == s.orders && s'.txns == s.txns)
  {
    hide UniqueKeys, TxnsOk, Agrees, LogsOk, HookOrder;
    ReachableInv(s);
    assert RowOk(s.tenants, s.orders[id]);
  }
}
