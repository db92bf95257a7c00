// A reconciliation pass accounts exactly for what it did.
module Reconciliation {
  import opened StatusMaps
  import opened Ledger
  import opened LedgerInvariants

  ghost function Changed(s: Store, s': Store): set<OrderId> {
    set id | id in s.orders && id in s'.orders && s'.orders[id].status != s.orders[id].status
  }

  ghost function OpenOrders(s: Store): set<OrderId> {
    set id | id in s.orders && Open(s.orders[id])
  }

  ghost predicate Announced(s: Store, id: OrderId) {
    && id in s.orders && s.orders[id].tenant in s.tenants
    && var url := s.tenants[s.orders[id].tenant].webhookUrl; url.Some? && url.value != ""
  }

  // Distinct PENDING orders, as any answer to the batch query is in a reachable store.
  ghost predicate Batch(s: Store, picks: seq<OrderId>) {
    && (forall i, j :: 0 <= i < j < |picks| ==> picks[i] != picks[j])
    && (forall i :: 0 <= i < |picks| ==> picks[i] in s.orders && s.orders[picks[i]].status == Pending)
  }

  // The status a poll reports for a PENDING order: an exception reports nothing.
  function NewStatus(pp: PollAnswer): (r: Status)
    ensures Canonical(r)
  {
    if pp.PollOk? then PollStatus(StateText(pp.state)) else Pending
  }

  ghost predicate OfActiveTenant(s: Store, id: OrderId) {
    id in s.orders && s.orders[id].tenant in s.tenants && s.tenants[s.orders[id].tenant].active
  }

  // The pass moves exactly the picks of active tenants that PhonePe reports as settled.
  ghost predicate Settles(s: Store, id: OrderId, pp: PollAnswer) {
    OfActiveTenant(s, id) && NewStatus(pp) != Pending
  }

  ghost predicate Untouched(s: Store, picks: seq<OrderId>, answers: seq<PollAnswer>, p: PassState)
    requires |picks| == |answers|
  {
    && p.store.orders.Keys == s.orders.Keys && p.store.tenants == s.tenants && p.store.logs == s.logs
    && forall id | id in s.orders && (forall i :: 0 <= i < |picks| && picks[i] == id ==> !Settles(s, id, answers[i])) ::
         p.store.orders[id] == s.orders[id]
  }

  ghost predicate Moved(s: Store, picks: seq<OrderId>, answers: seq<PollAnswer>, p: PassState)
    requires |picks| == |answers| && p.store.orders.Keys == s.orders.Keys
  {
    forall i :: 0 <= i < |picks| && picks[i] in s.orders && Settles(s, picks[i], answers[i]) ==>
      p.store.orders[picks[i]] == s.orders[picks[i]].(status := NewStatus(answers[i]))
  }

  ghost predicate Counted(s: Store, p: PassState) {
    && p.count == |Changed(s, p.store)|
    && p.count == |p.store.txns| - |s.txns|
    && p.count == |OpenOrders(s)| - |OpenOrders(p.store)|
  }

  // One dispatch per changed order whose tenant has a webhook URL, carrying its new status.
  ghost predicate DispatchesExactly(s: Store, p: PassState) {
    && (forall k, l :: 0 <= k < l < |p.dispatches| ==> p.dispatches[k].order != p.dispatches[l].order)
    && (forall k :: 0 <= k < |p.dispatches| ==> DispatchOk(s, p, p.dispatches[k]))
    && (forall id :: id in Changed(s, p.store) && Announced(s, id) ==> Dispatched(p, id))
  }

  ghost predicate DispatchOk(s: Store, p: PassState, d: Dispatch) {
    && d.order in Changed(s, p.store) && Announced(s, d.order)
    && d.tenant == s.orders[d.order].tenant && d.status == p.store.orders[d.order].status
  }

  ghost predicate Dispatched(p: PassState, id: OrderId) {
    exists k :: 0 <= k < |p.dispatches| && p.dispatches[k].order == id
  }

  // Everything else stays, the settled picks move, and count and dispatches tell which.
  ghost predicate Accounts(s: Store, picks: seq<OrderId>, answers: seq<PollAnswer>, p: PassState)
    requires |picks| == |answers|
  {
    && Untouched(s, picks, answers, p) && Moved(s, picks, answers, p)
    && Counted(s, p) && DispatchesExactly(s, p)
  }

  // ---------- One turn ----------

  lemma PassOneEffect(p: PassState, id: OrderId, pp: PollAnswer)
    requires Inv(p.store) && id in p.store.orders && p.store.orders[id].status == Pending
    ensures var s := p.store;
            var p' := PassOne(p, id, pp);
            if Settles(s, id, pp) then
              && p'.store.orders == s.orders[id := s.orders[id].(status := NewStatus(pp))]
              && p'.store.tenants == s.tenants && p'.store.logs == s.logs
              && |p'.store.txns| == |s.txns| + 1 && p'.count == p.count + 1
              && p'.dispatches == p.dispatches +
                   if Announced(s, id)
                   then [Dispatch(s.orders[id].tenant, id, NewStatus(pp))] else []
            else p' == p
  {
    hide RowsOk, TxnsOk, Agrees, LogsOk;
    FindUnique(p.store.orders, id);
  }

  // ---------- Proof by following the batch ----------

  lemma {:induction false} PassMoves(s: Store, picks: seq<OrderId>, answers: seq<PollAnswer>)
    requires Inv(s) && Batch(s, picks) && |picks| == |answers|
    ensures Accounts(s, picks, answers, Pass(s, picks, answers))
    decreases |picks|
  {
    hide Inv, PassOne, Extends, Accounts, Batch;
    if picks == [] {
      NoPicks(s);
    } else {
      var n := |picks| - 1;
      BatchPrefix(s, picks);
      PassMoves(s, picks[..n], answers[..n]);
      PassKeeps(s, picks[..n], answers[..n]);
      Turn(s, picks, answers, Pass(s, picks[..n], answers[..n]));
    }
  }

  lemma NoPicks(s: Store)
    ensures Accounts(s, [], [], PassState(s, 0, []))
  {
    assert Changed(s, s) == {};
  }

  lemma BatchPrefix(s: Store, picks: seq<OrderId>)
    requires Batch(s, picks) && picks != []
    ensures Batch(s, picks[..|picks| - 1])
  {
  }

  lemma PickUntouched(s: Store, picks: seq<OrderId>, answers: seq<PollAnswer>, p: PassState)
    requires Batch(s, picks) && |picks| == |answers| > 0
    requires var n := |picks| - 1; Untouched(s, picks[..n], answers[..n], p)
    ensures var n := |picks| - 1;
            picks[n] in s.orders && picks[n] in p.store.orders && p.store.orders[picks[n]] == s.orders[picks[n]]
            && p.store.orders[picks[n]].status == Pending
  {
    hide Settles;
  }

  lemma Turn(s: Store, picks: seq<OrderId>, answers: seq<PollAnswer>, p: PassState)
    requires Inv(p.store) && Batch(s, picks) && |picks| == |answers| > 0
    requires var n := |picks| - 1; Accounts(s, picks[..n], answers[..n], p)
    ensures var n := |picks| - 1; Accounts(s, picks, answers, PassOne(p, picks[n], answers[n]))
  {
    hide Inv, PassOne, Counted, DispatchesExactly, Moved, NewStatus;
    var n := |picks| - 1;
    PickUntouched(s, picks, answers, p);
    var p' := PassOne(p, picks[n], answers[n]);
    PassOneEffect(p, picks[n], answers[n]);
    TurnKeeps(s, picks, answers, p, p');
    TurnMoves(s, picks, answers, p, p');
    if Settles(s, picks[n], answers[n]) {
      TurnCounts(s, picks[n], answers[n], p, p');
      TurnDispatches(s, picks[n], answers[n], p, p');
    }
  }

  lemma TurnKeeps(s: Store, picks: seq<OrderId>, answers: seq<PollAnswer>, p: PassState, p': PassState)
    requires Batch(s, picks) && |picks| == |answers| > 0
    requires var n := |picks| - 1;
             && Untouched(s, picks[..n], answers[..n], p)
             && (if Settles(s, picks[n], answers[n])
                 then p'.store.orders ==
                      p.store.orders[picks[n] := s.orders[picks[n]].(status := NewStatus(answers[n]))]
                      && p'.store.tenants == p.store.tenants && p'.store.logs == p.store.logs
                 else p' == p)
    ensures Untouched(s, picks, answers, p')
  {
    hide Settles, NewStatus;
    var n := |picks| - 1;
    forall id | id in s.orders && (forall i :: 0 <= i < |picks| && picks[i] == id ==> !Settles(s, id, answers[i]))
      ensures p'.store.orders[id] == s.orders[id]
    {
      assert forall i :: 0 <= i < n ==> picks[..n][i] == picks[i] && answers[..n][i] == answers[i];
      assert picks[n] == id ==> !Settles(s, id, answers[n]);
    }
  }

  lemma TurnMoves(s: Store, picks: seq<OrderId>, answers: seq<PollAnswer>, p: PassState, p': PassState)
    requires Batch(s, picks) && |picks| == |answers| > 0
    requires var n := |picks| - 1;
             && Untouched(s, picks[..n], answers[..n], p) && Moved(s, picks[..n], answers[..n], p)
             && (if Settles(s, picks[n], answers[n])
                 then p'.store.orders ==
                      p.store.orders[picks[n] := s.orders[picks[n]].(status := NewStatus(answers[n]))]
                      && p'.store.tenants == p.store.tenants && p'.store.logs == p.store.logs
                 else p' == p)
    ensures p'.store.orders.Keys == s.orders.Keys && Moved(s, picks, answers, p')
  {
    hide Settles, NewStatus;
    var n := |picks| - 1;
    forall i | 0 <= i < |picks| && Settles(s, picks[i], answers[i])
      ensures p'.store.orders[picks[i]] == s.orders[picks[i]].(status := NewStatus(answers[i]))
    {
      if i < n {
        assert picks[..n][i] == picks[i] && answers[..n][i] == answers[i];
      }
    }
  }

  lemma ChangedGrows(s: Store, id: OrderId, status: Status, t: Store, t': Store)
    requires id in s.orders && t.orders.Keys == s.orders.Keys && t.orders[id] == s.orders[id]
    requires status != s.orders[id].status && t'.orders == t.orders[id := s.orders[id].(status := status)]
    ensures |Changed(s, t')| == |Changed(s, t)| + 1
  {
    assert Changed(s, t') == Changed(s, t) + {id};
  }

  lemma OpenShrinks(t: Store, t': Store, id: OrderId, o: Order)
    requires id in t.orders && Open(t.orders[id]) && !Open(o) && t'.orders == t.orders[id := o]
    ensures |OpenOrders(t')| == |OpenOrders(t)| - 1
  {
    assert id in OpenOrders(t);
    assert OpenOrders(t') == OpenOrders(t) - {id};
  }

  lemma TurnCounts(s: Store, id: OrderId, pp: PollAnswer, p: PassState, p': PassState)
    requires Settles(s, id, pp) && s.orders[id].status == Pending
    requires p.store.orders.Keys == s.orders.Keys && p.store.orders[id] == s.orders[id]
    requires p'.store.orders == p.store.orders[id := s.orders[id].(status := NewStatus(pp))]
    requires |p'.store.txns| == |p.store.txns| + 1 && p'.count == p.count + 1
    requires Counted(s, p)
    ensures Counted(s, p')
  {
    hide Announced, NewStatus, Changed, OpenOrders;
    ChangedGrows(s, id, NewStatus(pp), p.store, p'.store);
    OpenShrinks(p.store, p'.store, id, s.orders[id].(status := NewStatus(pp)));
  }

  lemma TurnDispatches(s: Store, id: OrderId, pp: PollAnswer, p: PassState, p': PassState)
    requires Settles(s, id, pp) && s.orders[id].status == Pending
    requires p.store.orders.Keys == s.orders.Keys && p.store.orders[id] == s.orders[id]
    requires p'.store.orders == p.store.orders[id := s.orders[id].(status := NewStatus(pp))]
    requires p'.dispatches == p.dispatches +
               if Announced(s, id) then [Dispatch(s.orders[id].tenant, id, NewStatus(pp))] else []
    requires DispatchesExactly(s, p)
    ensures DispatchesExactly(s, p')
  {
    hide NewStatus;
    assert id !in Changed(s, p.store);
    assert Changed(s, p'.store) == Changed(s, p.store) + {id};
    forall k | 0 <= k < |p'.dispatches|
      ensures DispatchOk(s, p', p'.dispatches[k])
    {
      if k < |p.dispatches| {
        assert DispatchOk(s, p, p.dispatches[k]);
      }
    }
    forall other | other in Changed(s, p'.store) && Announced(s, other)
      ensures Dispatched(p', other)
    {
      if other != id {
        assert Dispatched(p, other);
        var k :| 0 <= k < |p.dispatches| && p.dispatches[k].order == other;
        assert p'.dispatches[k].order == other;
      } else {
        assert p'.dispatches[|p.dispatches|].order == id;
      }
    }
  }

  // ---------- Main result ----------

  // Whatever the database picks and PhonePe answers: the count is the number of orders whose status
  // changed, of entries written, and the drop in open orders; everything else stays; and one webhook goes
  // out for each changed order of a tenant that has an address.
  lemma PassAccounts(s: Store, threshold: int, picks: seq<OrderId>, answers: seq<PollAnswer>)
    requires Reachable(s) && QueryAnswer(s, threshold, picks) && |picks| == |answers|
    ensures Accounts(s, picks, answers, Pass(s, picks, answers))
  {
    hide Inv, Accounts, QueryAnswer, Batch;
    ReachableInv(s);
    BatchOf(s, threshold, picks);
    PassMoves(s, picks, answers);
  }

  // A pass reports something exactly when PhonePe settles one of its picks.
  lemma CountsExactlyWhenSettled(s: Store, threshold: int, picks: seq<OrderId>, answers: seq<PollAnswer>)
    requires Reachable(s) && QueryAnswer(s, threshold, picks) && |picks| == |answers|
    ensures Pass(s, picks, answers).count > 0 <==> SomeSettles(s, picks, answers)
  {
    hide Pass, DispatchesExactly, Reachable, Settles, QueryAnswer, Batch;
    PassAccounts(s, threshold, picks, answers);
    var p := Pass(s, picks, answers);
    if SomeSettles(s, picks, answers) {
      var i :| 0 <= i < |picks| && Settles(s, picks[i], answers[i]);
      assert s.orders[picks[i]].status == Pending && NewStatus(answers[i]) != Pending by {
        ReachableInv(s);
        BatchOf(s, threshold, picks);
        SettledPick(s, picks, answers, i);
      }
      assert picks[i] in Changed(s, p.store);
    } else {
      assert forall id :: id in s.orders ==> p.store.orders[id] == s.orders[id];
      assert Changed(s, p.store) == {};
    }
  }

  ghost predicate SomeSettles(s: Store, picks: seq<OrderId>, answers: seq<PollAnswer>)
    requires |picks| == |answers|
  {
    exists i :: 0 <= i < |picks| && Settles(s, picks[i], answers[i])
  }

  lemma SettledPick(s: Store, picks: seq<OrderId>, answers: seq<PollAnswer>, i: nat)
    requires Batch(s, picks) && |picks| == |answers| && i < |picks| && Settles(s, picks[i], answers[i])
    ensures picks[i] in s.orders && s.orders[picks[i]].status == Pending && NewStatus(answers[i]) != Pending
  {
  }

  lemma BatchOf(s: Store, threshold: int, picks: seq<OrderId>)
    requires Inv(s) && QueryAnswer(s, threshold, picks)
    ensures Batch(s, picks)
  {
    forall i | 0 <= i < |picks|
      ensures picks[i] in s.orders && s.orders[picks[i]].status == Pending
    {
      assert picks[i] in Stuck(s, threshold);
      assert RowOk(s.tenants, s.orders[picks[i]]);
    }
  }

  // With nothing cut off by the limit, a pass in which PhonePe settles every pick leaves open only orders
  // that are too young or whose tenant is inactive.
  lemma FullPassDrains(s: Store, threshold: int, picks: seq<OrderId>, answers: seq<PollAnswer>, id: OrderId)
    requires Reachable(s) && QueryAnswer(s, threshold, picks) && |picks| == |answers| < 100
    requires forall i :: 0 <= i < |picks| ==> NewStatus(answers[i]) != Pending
    requires id in s.orders && id in Pass(s, picks, answers).store.orders
    requires Pass(s, picks, answers).store.orders[id].status in {Created, Pending}
    ensures s.orders[id].createdAt > threshold || !OfActiveTenant(s, id)
  {
    hide Pass, Counted, DispatchesExactly, Reachable;
    PassAccounts(s, threshold, picks, answers);
    if id in picks {
      var i :| 0 <= i < |picks| && picks[i] == id;
    } else {
      assert Pass(s, picks, answers).store.orders[id] == s.orders[id];
      assert id !in Stuck(s, threshold);
    }
  }
}
