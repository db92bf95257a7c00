// An order and its ledger are the replay of the reports PhonePe made about it, whichever of the four
// services each report came through.
module ReportHistory {
  import opened Basics
  import opened StatusMaps
  import opened Ledger
  import opened LedgerInvariants

  // A successful poll, or an accepted webhook.
  datatype Report = Polled(status: Status) | Hooked(status: Status)

  // ---------- The reference: what a history of reports should leave behind ----------

  function Final(start: Status, h: seq<Report>): Status {
    if h == [] then start else h[|h| - 1].status
  }

  // Webhooks always write a PAYMENT entry, polls only on a change.
  function Written(start: Status, h: seq<Report>): seq<Status>
    decreases |h|
  {
    if h == [] then []
    else
      (if h[0].Hooked? || h[0].status != start then [TxStatus(h[0].status)] else []) +
      Written(h[0].status, h[1..])
  }

  lemma {:induction false} FinalWrittenConcat(start: Status, a: seq<Report>, b: seq<Report>)
    ensures Final(start, a + b) == Final(Final(start, a), b)
    ensures Written(start, a + b) == Written(start, a) + Written(Final(start, a), b)
    decreases |a|
  {
    if a == [] {
      assert a + b == b;
    } else {
      assert (a + b)[1..] == a[1..] + b;
      FinalWrittenConcat(a[0].status, a[1..], b);
    }
  }

  // ---------- The reports an event carries about an order ----------

  // A successful poll of an order that is forced or still CREATED or PENDING.
  ghost function PollReport(s: Store, id: OrderId, force: bool, pp: PollAnswer): seq<Report>
    requires id in s.orders
  {
    if (force || s.orders[id].status == Created || s.orders[id].status == Pending) && pp.PollOk?
    then [Polled(PollStatus(if pp.state.Some? then pp.state.value else "None"))] else []
  }

  // A webhook is accepted unless its signature was checked and found wrong or uncheckable.
  ghost predicate Accepted(s: Store, h: Hook) {
    var r := Resolve(s, h);
    r.Resolved? && (Checked(h, r) ==> h.verdict == Genuine)
  }

  ghost function PassReports(s: Store, picks: seq<OrderId>, answers: seq<PollAnswer>, id: OrderId): seq<Report>
    requires |picks| == |answers|
  {
    if picks == [] then []
    else
      var n := |picks| - 1;
      var before := Pass(s, picks[..n], answers[..n]).store;
      PassReports(s, picks[..n], answers[..n], id) +
      if picks[n] == id && Eligible(before, id) then PollReport(before, id, true, answers[n]) else []
  }

  ghost function Reports(s: Store, ev: Event, id: OrderId): seq<Report> {
    if id !in s.orders then []
    else
      match ev
      case Poll(caller, ref, force, pp) =>
        if HasKey(s.orders[id], caller, ref) then PollReport(s, id, force, pp) else []
      case Webhook(hook) =>
        if HookOrder(s, hook) == OneRow(id) && Accepted(s, hook) then [Hooked(HookStatus(hook.code))] else []
      case Reconcile(threshold, picks, answers) =>
        if QueryAnswer(s, threshold, picks) && |picks| == |answers| then PassReports(s, picks, answers, id) else []
      case _ => []
  }

  ghost function History(s: Store, evs: seq<Event>, id: OrderId): seq<Report>
    decreases |evs|
  {
    if evs == [] then [] else Reports(s, evs[0], id) + History(Step(s, evs[0]), evs[1..], id)
  }

  // The order's row and ledger moved from s to s' exactly as the reports say.
  ghost predicate Replays(s: Store, s': Store, id: OrderId, h: seq<Report>)
    requires id in s.orders && id in s'.orders
  {
    && s'.orders[id].status == Final(s.orders[id].status, h)
    && Payments(s'.txns, id) == Payments(s.txns, id) + Written(s.orders[id].status, h)
  }

  // ---------- One write ----------

  lemma RecordReplays(s: Store, target: OrderId, status: Status, ppId: Option<string>,
                      amount: int, state: Option<string>, txnId: Option<string>, id: OrderId, report: Report)
    requires target in s.orders && id in s.orders && report.status == status
    requires report.Polled? ==> status != s.orders[target].status
    ensures var s' := Record(s, target, status, ppId, amount, state, txnId);
            Replays(s, s', id, if id == target then [report] else [])
  {
    PaymentsAppend(s.txns, Txn(target, Payment, amount, TxStatus(status), state, txnId), id);
    assert Written(s.orders[target].status, [report]) == [TxStatus(status)];
  }

  lemma SyncRowReplays(s: Store, target: OrderId, force: bool, pp: PollAnswer, id: OrderId)
    requires target in s.orders && id in s.orders
    ensures Replays(s, SyncRow(s, target, force, pp), id, if id == target then PollReport(s, id, force, pp) else [])
  {
    var o := s.orders[target];
    var h := PollReport(s, target, force, pp);
    if Polls(o, force, pp) {
      var status := PollStatus(StateText(pp.state));
      if status != o.status {
        RecordReplays(s, target, status, o.phonepeId, o.amount, pp.state, Or(pp.txnId, o.phonepeId), id,
                      Polled(status));
      } else {
        assert Written(o.status, h) == [] + Written(o.status, h[1..]) == [];
      }
    }
  }

  lemma ReplaysTransitive(a: Store, b: Store, c: Store, id: OrderId, h: seq<Report>, k: seq<Report>)
    requires id in a.orders && id in b.orders && id in c.orders
    requires Replays(a, b, id, h) && Replays(b, c, id, k)
    ensures Replays(a, c, id, h + k)
  {
    FinalWrittenConcat(a.orders[id].status, h, k);
  }

  // ---------- One event ----------

  lemma {:induction false} PassReplays(s: Store, picks: seq<OrderId>, answers: seq<PollAnswer>, id: OrderId)
    requires Inv(s) && |picks| == |answers| && id in s.orders
    ensures id in Pass(s, picks, answers).store.orders
    ensures Replays(s, Pass(s, picks, answers).store, id, PassReports(s, picks, answers, id))
    decreases |picks|
  {
    hide Inv, Extends, PassOne, SyncRow, PollReport, Eligible;
    PassKeeps(s, picks, answers);
    if picks == [] {
    } else {
      var n := |picks| - 1;
      PassKeeps(s, picks[..n], answers[..n]);
      PassReplays(s, picks[..n], answers[..n], id);
      var p := Pass(s, picks[..n], answers[..n]);
      PassOneReplays(p, picks[n], answers[n], id);
      var last := if picks[n] == id && Eligible(p.store, id) then PollReport(p.store, id, true, answers[n]) else [];
      ReplaysTransitive(s, p.store, PassOne(p, picks[n], answers[n]).store, id,
                        PassReports(s, picks[..n], answers[..n], id), last);
    }
  }

  lemma PassOneReplays(p: PassState, target: OrderId, pp: PollAnswer, id: OrderId)
    requires Inv(p.store) && id in p.store.orders
    ensures id in PassOne(p, target, pp).store.orders
    ensures Replays(p.store, PassOne(p, target, pp).store, id,
              if target == id && Eligible(p.store, id) then PollReport(p.store, id, true, pp) else [])
  {
    hide Inv, Extends, SyncRow;
    PassOneKeeps(p, target, pp);
    if Eligible(p.store, target) {
      SyncRowReplays(p.store, target, true, pp, id);
    } else {
      assert PassOne(p, target, pp) == p;
    }
  }

  lemma HookReplays(s: Store, h: Hook, id: OrderId)
    requires Inv(s) && id in s.orders
    ensures id in Step(s, Webhook(h)).orders
    ensures Replays(s, Step(s, Webhook(h)), id, Reports(s, Webhook(h), id))
  {
    hide Inv, HookOrder, Record;
    var r := Resolve(s, h);
    if Accepted(s, h) {
      if r.order.Some? {
        var o := s.orders[r.order.value];
        var ppId := Or(h.txnId, o.phonepeId);
        RecordReplays(s, r.order.value, HookStatus(h.code), ppId, HookAmount(h, o), Some(h.code), ppId, id,
                      Hooked(HookStatus(h.code)));
        RecordFrame(s, r.order.value, HookStatus(h.code), ppId, HookAmount(h, o), Some(h.code), ppId);
      }
    }
  }

  lemma RecordFrame(s: Store, id: OrderId, status: Status, ppId: Option<string>,
                    amount: int, state: Option<string>, txnId: Option<string>)
    requires id in s.orders
    ensures var s' := Record(s, id, status, ppId, amount, state, txnId);
            s'.tenants == s.tenants && s'.logs == s.logs && s'.orders.Keys == s.orders.Keys
  {
  }

  lemma RefundReplays(s: Store, ev: Event, id: OrderId)
    requires ev.RefundRequest? && id in s.orders
    ensures id in Step(s, ev).orders && Replays(s, Step(s, ev), id, [])
  {
    var r := Serve(s, ev);
    if r.outcome.Returned? {
      PaymentsAppend(s.txns, r.outcome.answer.txn, id);
    }
  }

  lemma PollReplays(s: Store, ev: Event, id: OrderId)
    requires ev.Poll? && Inv(s) && id in s.orders
    ensures id in Step(s, ev).orders && Replays(s, Step(s, ev), id, Reports(s, ev, id))
  {
    hide SyncRow, Extends, Payments, Written, RowsOk, TxnsOk, Agrees, LogsOk;
    FindSpec(s.orders, ev.caller, ev.ref);
    var found := Find(s.orders, ev.caller, ev.ref);
    if found.OneRow? {
      SyncRowKeeps(s, found.row, ev.force, ev.pollAnswer);
      SyncRowReplays(s, found.row, ev.force, ev.pollAnswer, id);
      if HasKey(s.orders[id], ev.caller, ev.ref) {
        assert SameKey(s.orders[id], s.orders[found.row]);
      }
    } else {
      UnchangedReplays(s, s, id);
    }
  }

  lemma CreateReplays(s: Store, ev: Event, id: OrderId)
    requires ev.Create? && Inv(s) && id in s.orders
    ensures id in Step(s, ev).orders && Replays(s, Step(s, ev), id, [])
  {
    hide Inv, Find, Payments;
    var r := Serve(s, ev);
    if r.outcome.Returned? && r.outcome.answer.created {
      PaymentsAppend(s.txns, r.work.txns[|s.txns|], id);
    }
  }

  lemma UnchangedReplays(s: Store, s': Store, id: OrderId)
    requires id in s.orders && s'.orders == s.orders && s'.txns == s.txns
    ensures Replays(s, s', id, [])
  {
  }

  lemma StepReplays(s: Store, ev: Event, id: OrderId)
    requires Inv(s) && id in s.orders
    ensures id in Step(s, ev).orders
    ensures Replays(s, Step(s, ev), id, Reports(s, ev, id))
  {
    hide Inv, Replays, Pass, PassReports, QueryAnswer;
    match ev
    case PutTenant(_, _) => UnchangedReplays(s, Step(s, ev), id);
    case Create(_, _, _, _, _) => CreateReplays(s, ev, id);
    case Poll(_, _, _, _) => PollReplays(s, ev, id);
    case RefundRequest(_, _, _, _) => RefundReplays(s, ev, id);
    case Webhook(hook) => HookReplays(s, hook, id);
    case Reconcile(_, picks, answers) =>
      UnchangedReplays(s, s, id);
      if |picks| == |answers| {
        PassReplays(s, picks, answers, id);
      }
  }

  // An order that an event creates starts PENDING, with one PENDING entry and no reports.
  lemma StepCreates(s: Store, ev: Event, id: OrderId)
    requires Inv(s) && id !in s.orders && id in Step(s, ev).orders
    ensures ev.Create? && Serve(s, ev).outcome == Returned(OrderAnswer(id, Step(s, ev).orders[id], true))
    ensures Step(s, ev).orders[id].status == Pending
    ensures Payments(Step(s, ev).txns, id) == [Pending]
  {
    hide Pass, SyncRow, Payments, Extends, RowsOk, UniqueKeys, Justified, Agrees, LogsOk;
    var s' := Step(s, ev);
    match ev
    case Create(caller, order, newId, now, pp) =>
      NoPayments(s.txns, id);
      PaymentsAppend(s.txns, s'.txns[|s.txns|], id);
    case Poll(caller, ref, force, pp) =>
      if Find(s.orders, caller, ref).OneRow? {
        SyncRowKeeps(s, Find(s.orders, caller, ref).row, force, pp);
      }
    case Reconcile(_, picks, answers) =>
      if |picks| == |answers| {
        PassKeeps(s, picks, answers);
      }
    case _ =>
  }

  // ---------- Main results ----------

  lemma {:induction false} RunReplays(s: Store, evs: seq<Event>, id: OrderId)
    requires Inv(s) && id in Run(s, evs).orders
    ensures id in s.orders ==> Replays(s, Run(s, evs), id, History(s, evs, id))
    ensures id !in s.orders ==>
      && Run(s, evs).orders[id].status == Final(Pending, History(s, evs, id))
      && Payments(Run(s, evs).txns, id) == [Pending] + Written(Pending, History(s, evs, id))
    decreases |evs|
  {
    hide Inv, Extends, Step;
    if evs == [] {
      if id in s.orders {
        UnchangedReplays(s, s, id);
      }
    } else {
      var next := Step(s, evs[0]);
      StepKeeps(s, evs[0]);
      RunReplays(next, evs[1..], id);
      var tail := History(next, evs[1..], id);
      if id in s.orders {
        StepReplays(s, evs[0], id);
        ReplaysTransitive(s, next, Run(s, evs), id, Reports(s, evs[0], id), tail);
      } else {
        assert History(s, evs, id) == [] + tail == tail;
        if id in next.orders {
          StepCreates(s, evs[0], id);
        }
      }
    }
  }

  // No status is final by itself: an order comes out of a run with the status it went in with if and only if
  // nothing was reported about it, or the last report is of that status.
  lemma StatusStaysExactlyWhen(s: Store, evs: seq<Event>, id: OrderId)
    requires Inv(s) && id in s.orders
    ensures id in Run(s, evs).orders
    ensures var h := History(s, evs, id);
            Run(s, evs).orders[id].status == s.orders[id].status <==>
            h == [] || h[|h| - 1].status == s.orders[id].status
  {
    hide Inv, Run, History;
    RunKeeps(s, evs);
    RunReplays(s, evs, id);
  }

  // In every run an order's status is the last report about it, or PENDING, and its PAYMENT entries are
  // one PENDING followed by what its reports write.
  lemma LedgerIsReplay(evs: seq<Event>, id: OrderId)
    requires id in Run(EmptyStore(), evs).orders
    ensures var s := Run(EmptyStore(), evs);
            var h := History(EmptyStore(), evs, id);
            && s.orders[id].status == Final(Pending, h)
            && Payments(s.txns, id) == [Pending] + Written(Pending, h)
            && |Payments(s.txns, id)| == 1 + Webhooks(h) + ChangingPolls(Pending, h)
  {
    EmptyInv();
    RunReplays(EmptyStore(), evs, id);
    WrittenCount(Pending, History(EmptyStore(), evs, id));
  }

  function Webhooks(h: seq<Report>): nat {
    if h == [] then 0 else (if h[0].Hooked? then 1 else 0) + Webhooks(h[1..])
  }

  function ChangingPolls(start: Status, h: seq<Report>): nat
    decreases |h|
  {
    if h == [] then 0
    else (if h[0].Polled? && h[0].status != start then 1 else 0) + ChangingPolls(h[0].status, h[1..])
  }

  lemma {:induction false} WrittenCount(start: Status, h: seq<Report>)
    ensures |Written(start, h)| == Webhooks(h) + ChangingPolls(start, h)
    decreases |h|
  {
    if h == [] {
    } else {
      WrittenCount(h[0].status, h[1..]);
    }
  }

  // ---------- The inbound log ----------

  // The inbound webhooks logged as processed for an order.
  function ProcessedLogs(logs: seq<InboundLog>, id: OrderId): nat {
    if logs == [] then 0
    else
      var n := |logs| - 1;
      ProcessedLogs(logs[..n], id) + if logs[n].status == Processed && logs[n].order == Some(id) then 1 else 0
  }

  lemma ProcessedAppend(logs: seq<InboundLog>, log: InboundLog, id: OrderId)
    ensures ProcessedLogs(logs + [log], id) ==
            ProcessedLogs(logs, id) + if log.status == Processed && log.order == Some(id) then 1 else 0
  {
    assert (logs + [log])[..|logs|] == logs;
  }

  lemma {:induction false} WebhooksConcat(a: seq<Report>, b: seq<Report>)
    ensures Webhooks(a + b) == Webhooks(a) + Webhooks(b)
  {
    if a == [] {
      assert a + b == b;
    } else {
      assert (a + b)[1..] == a[1..] + b;
      WebhooksConcat(a[1..], b);
    }
  }

  lemma {:induction false} PassHasNoWebhooks(s: Store, picks: seq<OrderId>, answers: seq<PollAnswer>, id: OrderId)
    requires |picks| == |answers|
    ensures Webhooks(PassReports(s, picks, answers, id)) == 0
    ensures Pass(s, picks, answers).store.logs == s.logs
    decreases |picks|
  {
    if picks == [] {
    } else {
      var n := |picks| - 1;
      PassHasNoWebhooks(s, picks[..n], answers[..n], id);
      var before := Pass(s, picks[..n], answers[..n]).store;
      WebhooksConcat(PassReports(s, picks[..n], answers[..n], id),
        if picks[n] == id && Eligible(before, id) then PollReport(before, id, true, answers[n]) else []);
    }
  }

  lemma HookLogged(s: Store, h: Hook, id: OrderId)
    ensures ProcessedLogs(Step(s, Webhook(h)).logs, id)
         == ProcessedLogs(s.logs, id) + Webhooks(Reports(s, Webhook(h), id))
  {
    hide HookOrder, ProcessedLogs;
    var s' := Step(s, Webhook(h));
    if |s'.logs| == |s.logs| + 1 {
      ProcessedAppend(s.logs, s'.logs[|s.logs|], id);
    }
  }

  lemma StepLogged(s: Store, ev: Event, id: OrderId)
    ensures ProcessedLogs(Step(s, ev).logs, id) == ProcessedLogs(s.logs, id) + Webhooks(Reports(s, ev, id))
  {
    hide ProcessedLogs, Pass, PassReports, QueryAnswer;
    match ev
    case Webhook(hook) => HookLogged(s, hook, id);
    case Reconcile(_, picks, answers) =>
      if |picks| == |answers| {
        PassHasNoWebhooks(s, picks, answers, id);
      }
    case _ =>
  }

  // In every run the inbound log holds one processed row for each webhook that wrote to an order, and no other.
  lemma {:induction false} EveryWebhookLogged(s: Store, evs: seq<Event>, id: OrderId)
    ensures ProcessedLogs(Run(s, evs).logs, id) == ProcessedLogs(s.logs, id) + Webhooks(History(s, evs, id))
    decreases |evs|
  {
    hide Step, Reports;
    if evs == [] {
    } else {
      StepLogged(s, evs[0], id);
      EveryWebhookLogged(Step(s, evs[0]), evs[1..], id);
      WebhooksConcat(Reports(s, evs[0], id), History(Step(s, evs[0]), evs[1..], id));
    }
  }
}
