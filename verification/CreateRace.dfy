// Concurrent order creation. Each create request runs as separate steps, lookup, flush, upstream call, and
// commit or rollback, interleaved at will with the steps of its rivals and with whole other requests. An
// uncommitted insert reserves its unique key, as the database does it: a rival insert waits until the holder
// ends, then fails if the holder committed and proceeds if it rolled back.
module CreateRace {
  import opened Basics
  import opened Ledger
  import opened LedgerInvariants
  import ReportHistory

  type SessionId = nat

  datatype Phase =
    | Started
    | Missing
    | Holding
    | Paid(answer: InitAnswer)
    | Failing(cause: InitAnswer)
    | Closed(outcome: Outcome)

  datatype Session = Session(tenant: TenantId, order: OrderCreate, newId: OrderId, now: int, phase: Phase) {
    // Between its flush and its end a session holds its keys.
    predicate Holds() { phase.Holding? || phase.Paid? || phase.Failing? }

    predicate Asks(t: TenantId, m: string) { tenant == t && order.merchantOrderId == m }
  }

  // A call of initiate_payment, and whether it returned normally.
  datatype Call = Call(tenant: TenantId, ref: string, ok: bool)

  datatype World = World(db: Store, sessions: map<SessionId, Session>, calls: seq<Call>)

  datatype Action =
    | Begin(who: SessionId, tenant: TenantId, order: OrderCreate, newId: OrderId, now: int)
    | Look(who: SessionId)
    | Flush(who: SessionId)
    | Upstream(who: SessionId, answer: InitAnswer)
    | End(who: SessionId)
    | Other(ev: Event)

  ghost predicate Clash(x: Session, y: Session) {
    y.Asks(x.tenant, x.order.merchantOrderId) || x.newId == y.newId
  }

  ghost predicate Blocked(w: World, who: SessionId)
    requires who in w.sessions
  {
    exists other :: other in w.sessions && other != who && w.sessions[other].Holds()
                    && Clash(w.sessions[who], w.sessions[other])
  }

  function To(w: World, who: SessionId, phase: Phase): World
    requires who in w.sessions
  {
    w.(sessions := w.sessions[who := w.sessions[who].(phase := phase)])
  }

  ghost function DoLook(w: World, who: SessionId): World
    requires who in w.sessions
  {
    var x := w.sessions[who];
    match Find(w.db.orders, x.tenant, x.order.merchantOrderId)
    case ManyRows => To(w, who, Closed(Raised(MultipleResults)))
    case OneRow(id) => To(w, who, Closed(Returned(OrderAnswer(id, w.db.orders[id], false))))
    case NoRow => To(w, who, Missing)
  }

  ghost function DoFlush(w: World, who: SessionId): World
    requires who in w.sessions
  {
    var x := w.sessions[who];
    if Blocked(w, who) then w
    else if !Find(w.db.orders, x.tenant, x.order.merchantOrderId).NoRow? || x.newId in w.db.orders
            || x.tenant !in w.db.tenants then
      To(w, who, Closed(Raised(IntegrityError)))
    else To(w, who, Holding)
  }

  function FailingError(cause: InitAnswer): Error {
    if cause.InitUnreadable? then DecryptError else PhonePeError
  }

  // The upstream call; without readable credentials it is never made.
  function DoUpstream(w: World, who: SessionId, answer: InitAnswer): World
    requires who in w.sessions
  {
    var x := w.sessions[who];
    var w' := To(w, who, if answer.InitOk? then Paid(answer) else Failing(answer));
    if answer.InitUnreadable? then w'
    else w'.(calls := w.calls + [Call(x.tenant, x.order.merchantOrderId, answer.InitOk?)])
  }

  function DoCommit(w: World, who: SessionId): World
    requires who in w.sessions && w.sessions[who].phase.Paid? && w.sessions[who].phase.answer.InitOk?
  {
    var x := w.sessions[who];
    var pp := x.phase.answer;
    To(w, who, Closed(Returned(OrderAnswer(x.newId, PendingOrder(x.tenant, x.order, x.now, pp), true))))
      .(db := Insert(w.db, x.tenant, x.order, x.newId, x.now, pp))
  }

  // A step that is not enabled changes nothing.
  ghost function Next(w: World, act: Action): World {
    match act
    case Begin(who, tenant, order, newId, now) =>
      if who !in w.sessions && ValidOrder(order)
      then w.(sessions := w.sessions[who := Session(tenant, order, newId, now, Started)])
      else w
    case Look(who) => if who in w.sessions && w.sessions[who].phase.Started? then DoLook(w, who) else w
    case Flush(who) => if who in w.sessions && w.sessions[who].phase.Missing? then DoFlush(w, who) else w
    case Upstream(who, answer) =>
      if who in w.sessions && w.sessions[who].phase.Holding? then DoUpstream(w, who, answer) else w
    case End(who) =>
      if who in w.sessions && w.sessions[who].phase.Paid? && w.sessions[who].phase.answer.InitOk? then DoCommit(w, who)
      else if who in w.sessions && w.sessions[who].phase.Failing? then
        To(w, who, Closed(Raised(FailingError(w.sessions[who].phase.cause))))
      else w
    case Other(ev) => if ev.Create? then w else w.(db := Step(w.db, ev))
  }

  ghost function Play(w: World, acts: seq<Action>): World
    decreases |acts|
  {
    if acts == [] then w else Play(Next(w, acts[0]), acts[1..])
  }

  // A world before any create request: committed rows of any reachable store, no sessions, no calls.
  ghost predicate Initial(w: World) {
    Reachable(w.db) && w.sessions == map[] && w.calls == []
  }

  // ---------- What holds in every interleaving ----------

  ghost predicate HolderOk(w: World, x: Session) {
    && Find(w.db.orders, x.tenant, x.order.merchantOrderId).NoRow?
    && x.newId !in w.db.orders
    && x.tenant in w.db.tenants
    && (x.phase.Paid? ==> x.phase.answer.InitOk?)
    && (x.phase.Failing? ==> !x.phase.cause.InitOk?)
  }

  ghost predicate HoldersOk(w: World) {
    forall i :: i in w.sessions && w.sessions[i].Holds() ==> HolderOk(w, w.sessions[i])
  }

  ghost predicate Exclusive(w: World) {
    forall i, j :: i in w.sessions && j in w.sessions && w.sessions[i].Holds() && w.sessions[j].Holds() && i != j ==>
      !Clash(w.sessions[i], w.sessions[j])
  }

  ghost predicate SchemaOk(w: World) {
    forall i :: i in w.sessions ==> ValidOrder(w.sessions[i].order)
  }

  function Calls(calls: seq<Call>, t: TenantId, m: string): nat {
    if calls == [] then 0
    else
      var n := |calls| - 1;
      Calls(calls[..n], t, m) + if calls[n].tenant == t && calls[n].ref == m then 1 else 0
  }

  function OkCalls(calls: seq<Call>, t: TenantId, m: string): nat {
    if calls == [] then 0
    else
      var n := |calls| - 1;
      OkCalls(calls[..n], t, m) + if calls[n].tenant == t && calls[n].ref == m && calls[n].ok then 1 else 0
  }

  lemma CallsAppend(calls: seq<Call>, c: Call, t: TenantId, m: string)
    ensures Calls(calls + [c], t, m) == Calls(calls, t, m) + if c.tenant == t && c.ref == m then 1 else 0
    ensures OkCalls(calls + [c], t, m) == OkCalls(calls, t, m) + if c.tenant == t && c.ref == m && c.ok then 1 else 0
  {
    assert (calls + [c])[..|calls|] == calls;
  }

  ghost predicate PaidFor(w: World, t: TenantId, m: string) {
    exists i :: i in w.sessions && w.sessions[i].phase.Paid? && w.sessions[i].Asks(t, m)
  }

  // A key that was paid for has been committed, or is about to be.
  ghost predicate Charged(w: World, t: TenantId, m: string) {
    || OkCalls(w.calls, t, m) == 0
    || (OkCalls(w.calls, t, m) == 1 && (!Find(w.db.orders, t, m).NoRow? || PaidFor(w, t, m)))
  }

  ghost predicate ChargesOk(w: World) {
    forall t, m :: Charged(w, t, m)
  }

  ghost predicate WorldInv(w: World) {
    Inv(w.db) && HoldersOk(w) && Exclusive(w) && SchemaOk(w) && ChargesOk(w)
  }

  // ---------- Preservation ----------

  // Changing one session's phase without entering or leaving Paid.
  lemma ToKeeps(w: World, who: SessionId, phase: Phase)
    requires WorldInv(w) && who in w.sessions
    requires !w.sessions[who].phase.Paid? && !phase.Paid?
    requires phase.Holding? || phase.Failing? ==>
      HolderOk(w, w.sessions[who].(phase := phase)) && (w.sessions[who].Holds() || !Blocked(w, who))
    ensures WorldInv(To(w, who, phase))
  {
    hide Inv, Find;
    var w' := To(w, who, phase);
    forall t, m
      ensures Charged(w', t, m)
    {
      assert Charged(w, t, m);
      if PaidFor(w, t, m) {
        var i :| i in w.sessions && w.sessions[i].phase.Paid? && w.sessions[i].Asks(t, m);
        assert w'.sessions[i] == w.sessions[i];
      }
    }
  }

  lemma UpstreamKeeps(w: World, who: SessionId, answer: InitAnswer)
    requires WorldInv(w) && who in w.sessions && w.sessions[who].phase.Holding?
    ensures WorldInv(DoUpstream(w, who, answer))
  {
    hide Inv, Find;
    var x := w.sessions[who];
    var w' := DoUpstream(w, who, answer);
    var c := Call(x.tenant, x.order.merchantOrderId, answer.InitOk?);
    forall t, m
      ensures Charged(w', t, m)
    {
      CallsAppend(w.calls, c, t, m);
      assert Charged(w, t, m);
      if x.Asks(t, m) {
        assert HolderOk(w, x);
        assert answer.InitOk? ==> w'.sessions[who].phase.Paid?;
      } else if PaidFor(w, t, m) {
        var i :| i in w.sessions && w.sessions[i].phase.Paid? && w.sessions[i].Asks(t, m);
        assert w'.sessions[i] == w.sessions[i];
      }
    }
  }

  lemma InsertedKeys(s: Store, t: TenantId, d: OrderCreate, newId: OrderId, now: int, pp: InitAnswer,
                     u: TenantId, m: string)
    requires Inv(s) && ValidOrder(d) && pp.InitOk? && newId !in s.orders && t in s.tenants
    requires Find(s.orders, t, d.merchantOrderId).NoRow?
    ensures var s' := Insert(s, t, d, newId, now, pp);
            && Inv(s')
            && (Find(s'.orders, u, m).NoRow? <==>
                Find(s.orders, u, m).NoRow? && !(u == t && m == d.merchantOrderId))
  {
    hide RowsOk, TxnsOk, Agrees, LogsOk, Extends;
    var s' := Insert(s, t, d, newId, now, pp);
    InsertKeeps(s, t, d, newId, now, pp);
    FindSpec(s.orders, u, m);
    FindSpec(s'.orders, u, m);
    if Find(s'.orders, u, m).NoRow? {
      assert !HasKey(s'.orders[newId], u, m);
      forall id | id in s.orders ensures !HasKey(s.orders[id], u, m) {
        assert !HasKey(s'.orders[id], u, m);
      }
    }
  }

  lemma CommitKeeps(w: World, who: SessionId)
    requires WorldInv(w) && who in w.sessions && w.sessions[who].phase.Paid?
    requires w.sessions[who].phase.answer.InitOk?
    ensures WorldInv(DoCommit(w, who))
  {
    hide Inv, Find, Insert;
    var x := w.sessions[who];
    var w' := DoCommit(w, who);
    assert HolderOk(w, x);
    InsertFrame(w.db, x.tenant, x.order, x.newId, x.now, x.phase.answer);
    InsertedKeys(w.db, x.tenant, x.order, x.newId, x.now, x.phase.answer, x.tenant, x.order.merchantOrderId);
    forall i | i in w'.sessions && w'.sessions[i].Holds()
      ensures HolderOk(w', w'.sessions[i])
    {
      var y := w.sessions[i];
      assert HolderOk(w, y) && !Clash(x, y);
      InsertedKeys(w.db, x.tenant, x.order, x.newId, x.now, x.phase.answer, y.tenant, y.order.merchantOrderId);
    }
    forall t, m
      ensures Charged(w', t, m)
    {
      assert Charged(w, t, m);
      InsertedKeys(w.db, x.tenant, x.order, x.newId, x.now, x.phase.answer, t, m);
      if PaidFor(w, t, m) && !x.Asks(t, m) {
        var i :| i in w.sessions && w.sessions[i].phase.Paid? && w.sessions[i].Asks(t, m);
        assert w'.sessions[i] == w.sessions[i];
      }
    }
  }

  lemma InsertFrame(s: Store, t: TenantId, d: OrderCreate, newId: OrderId, now: int, pp: InitAnswer)
    requires pp.InitOk?
    ensures var s' := Insert(s, t, d, newId, now, pp);
            s'.orders.Keys == s.orders.Keys + {newId} && s'.tenants == s.tenants
  {
  }

  // Requests other than creates neither add nor drop a key.
  lemma OtherKeepsKeys(s: Store, ev: Event)
    requires Inv(s) && !ev.Create?
    ensures var s' := Step(s, ev);
            && Inv(s') && s'.orders.Keys == s.orders.Keys && s.tenants.Keys <= s'.tenants.Keys
            && forall t, m :: Find(s'.orders, t, m).NoRow? == Find(s.orders, t, m).NoRow?
  {
    hide RowsOk, TxnsOk, Agrees, LogsOk, Step;
    var s' := Step(s, ev);
    StepKeeps(s, ev);
    forall id | id in s'.orders ensures id in s.orders {
      if id !in s.orders {
        ReportHistory.StepCreates(s, ev, id);
      }
    }
    forall t, m
      ensures Find(s'.orders, t, m).NoRow? == Find(s.orders, t, m).NoRow?
    {
      FindSpec(s.orders, t, m);
      FindSpec(s'.orders, t, m);
      assert forall id :: id in s.orders ==> (HasKey(s'.orders[id], t, m) <==> HasKey(s.orders[id], t, m));
    }
  }

  lemma OtherKeeps(w: World, ev: Event)
    requires WorldInv(w) && !ev.Create?
    ensures WorldInv(w.(db := Step(w.db, ev)))
  {
    hide Inv, Find, Step, Extends;
    OtherKeepsKeys(w.db, ev);
    var w' := w.(db := Step(w.db, ev));
    forall i | i in w'.sessions && w'.sessions[i].Holds()
      ensures HolderOk(w', w'.sessions[i])
    {
      assert HolderOk(w, w.sessions[i]);
    }
    forall t, m
      ensures Charged(w', t, m)
    {
      assert Charged(w, t, m);
      assert PaidFor(w, t, m) ==> PaidFor(w', t, m);
    }
  }

  lemma BeginKeeps(w: World, who: SessionId, x: Session)
    requires WorldInv(w) && who !in w.sessions && ValidOrder(x.order) && x.phase.Started?
    ensures WorldInv(w.(sessions := w.sessions[who := x]))
  {
    hide Inv, Find;
    var w' := w.(sessions := w.sessions[who := x]);
    forall t, m
      ensures Charged(w', t, m)
    {
      assert Charged(w, t, m);
      if PaidFor(w, t, m) {
        var i :| i in w.sessions && w.sessions[i].phase.Paid? && w.sessions[i].Asks(t, m);
        assert w'.sessions[i] == w.sessions[i];
      }
    }
  }

  lemma NextKeeps(w: World, act: Action)
    requires WorldInv(w)
    ensures WorldInv(Next(w, act))
  {
    hide Inv, WorldInv, Find, Step, To, DoCommit, DoUpstream, HolderOk, Blocked;
    if Next(w, act) == w {
      return;
    }
    match act
    case Begin(who, tenant, order, newId, now) => BeginKeeps(w, who, Session(tenant, order, newId, now, Started));
    case Look(who) => LookKeeps(w, who);
    case Flush(who) => FlushKeeps(w, who);
    case Upstream(who, answer) => UpstreamKeeps(w, who, answer);
    case End(who) =>
      if w.sessions[who].phase.Paid? {
        CommitKeeps(w, who);
      } else {
        ToKeeps(w, who, Closed(Raised(FailingError(w.sessions[who].phase.cause))));
      }
    case Other(ev) => OtherKeeps(w, ev);
  }

  lemma LookKeeps(w: World, who: SessionId)
    requires WorldInv(w) && who in w.sessions && w.sessions[who].phase.Started?
    ensures WorldInv(DoLook(w, who))
  {
    hide WorldInv, To;
    var x := w.sessions[who];
    match Find(w.db.orders, x.tenant, x.order.merchantOrderId)
    case ManyRows => ToKeeps(w, who, Closed(Raised(MultipleResults)));
    case OneRow(id) => ToKeeps(w, who, Closed(Returned(OrderAnswer(id, w.db.orders[id], false))));
    case NoRow => ToKeeps(w, who, Missing);
  }

  lemma FlushKeeps(w: World, who: SessionId)
    requires WorldInv(w) && who in w.sessions && w.sessions[who].phase.Missing?
    ensures WorldInv(DoFlush(w, who))
  {
    hide WorldInv, To, Find, Blocked;
    var x := w.sessions[who];
    if Blocked(w, who) {
    } else if !Find(w.db.orders, x.tenant, x.order.merchantOrderId).NoRow? || x.newId in w.db.orders
              || x.tenant !in w.db.tenants {
      ToKeeps(w, who, Closed(Raised(IntegrityError)));
    } else {
      ToKeeps(w, who, Holding);
    }
  }

  lemma {:induction false} PlayKeeps(w: World, acts: seq<Action>)
    requires WorldInv(w)
    ensures WorldInv(Play(w, acts))
    decreases |acts|
  {
    hide WorldInv, Next;
    if acts == [] {
    } else {
      NextKeeps(w, acts[0]);
      PlayKeeps(Next(w, acts[0]), acts[1..]);
    }
  }

  lemma InitialInv(w: World)
    requires Initial(w)
    ensures WorldInv(w)
  {
    ReachableInv(w.db);
  }

  // ---------- Main results ----------

  ghost predicate HoldsFor(w: World, who: SessionId, t: TenantId, m: string) {
    who in w.sessions && w.sessions[who].Holds() && w.sessions[who].Asks(t, m)
  }

  // In every interleaving at most one session per (tenant, merchant order id) is between its flush and its
  // end, and initiate_payment returns normally at most once per key.
  lemma AtMostOnePayment(w: World, acts: seq<Action>, t: TenantId, m: string)
    requires Initial(w)
    ensures OkCalls(Play(w, acts).calls, t, m) <= 1
    ensures forall i, j :: HoldsFor(Play(w, acts), i, t, m) && HoldsFor(Play(w, acts), j, t, m) ==> i == j
  {
    hide Inv, Next;
    InitialInv(w);
    PlayKeeps(w, acts);
    var w' := Play(w, acts);
    assert Charged(w', t, m);
    forall i, j | HoldsFor(w', i, t, m) && HoldsFor(w', j, t, m)
      ensures i == j
    {
      assert Clash(w'.sessions[i], w'.sessions[j]);
    }
  }

  // ---------- Every interleaving is a run of whole requests ----------

  // The atomic create request that a session's commit amounts to.
  ghost function AtomicCreate(x: Session, pp: InitAnswer): Event {
    Create(x.tenant, x.order, x.newId, x.now, pp)
  }

  ghost function Linear(w: World, acts: seq<Action>): seq<Event>
    decreases |acts|
  {
    if acts == [] then []
    else
      (match acts[0]
       case End(who) =>
         if who in w.sessions && w.sessions[who].phase.Paid? && w.sessions[who].phase.answer.InitOk?
         then [AtomicCreate(w.sessions[who], w.sessions[who].phase.answer)] else []
       case Other(ev) => if ev.Create? then [] else [ev]
       case _ => []) + Linear(Next(w, acts[0]), acts[1..])
  }

  lemma CommitIsAtomic(w: World, who: SessionId)
    requires WorldInv(w) && who in w.sessions && w.sessions[who].phase.Paid?
    requires w.sessions[who].phase.answer.InitOk?
    ensures var ev := AtomicCreate(w.sessions[who], w.sessions[who].phase.answer);
            && DoCommit(w, who).db == Step(w.db, ev)
            && DoCommit(w, who).sessions[who].phase == Closed(Serve(w.db, ev).outcome)
  {
    hide Inv, Insert;
    assert HolderOk(w, w.sessions[who]);
  }

  // The committed rows of any interleaving are those of running whole requests one after another, each
  // create at its commit. What every run of whole requests satisfies therefore holds here too.
  lemma {:induction false} Linearizable(w: World, acts: seq<Action>)
    requires WorldInv(w)
    ensures Play(w, acts).db == Run(w.db, Linear(w, acts))
    decreases |acts|
  {
    hide WorldInv, Step, DoLook, DoFlush, DoCommit;
    if acts == [] {
    } else {
      var next := Next(w, acts[0]);
      var tail := Linear(next, acts[1..]);
      NextKeeps(w, acts[0]);
      Linearizable(next, acts[1..]);
      NextDb(w, acts[0]);
      var head := Linear(w, acts)[..|Linear(w, acts)| - |tail|];
      assert Linear(w, acts) == head + tail;
      RunConcat(w.db, head, tail);
    }
  }

  lemma NextDb(w: World, act: Action)
    requires WorldInv(w)
    ensures match act
            case End(who) =>
              if who in w.sessions && w.sessions[who].phase.Paid? && w.sessions[who].phase.answer.InitOk?
              then Next(w, act).db == Step(w.db, AtomicCreate(w.sessions[who], w.sessions[who].phase.answer))
              else Next(w, act).db == w.db
            case Other(ev) => Next(w, act).db == if ev.Create? then w.db else Step(w.db, ev)
            case _ => Next(w, act).db == w.db
  {
    hide WorldInv, Step, DoCommit;
    match act
    case End(who) =>
      if who in w.sessions && w.sessions[who].phase.Paid? && w.sessions[who].phase.answer.InitOk? {
        CommitIsAtomic(w, who);
      }
    case _ =>
  }

  lemma InterleavingsStayReachable(w: World, acts: seq<Action>)
    requires Initial(w)
    ensures Reachable(Play(w, acts).db)
  {
    hide WorldInv, Play, Linear, Run, EmptyStore;
    InitialInv(w);
    Linearizable(w, acts);
    var evs :| w.db == Run(EmptyStore(), evs);
    RunConcat(EmptyStore(), evs, Linear(w, acts));
  }

  // The session flushes a key that was committed since it looked.
  ghost predicate LosesRace(w: World, act: Action, who: SessionId)
    requires who in w.sessions
  {
    act == Flush(who)
    && !Find(w.db.orders, w.sessions[who].tenant, w.sessions[who].order.merchantOrderId).NoRow?
  }

  // A session ends with the answer the whole request would give at that moment if and only if it does not
  // lose a race. The loser raises where the whole request would return the winner's order.
  lemma ClosesLikeAtomic(w: World, act: Action, who: SessionId, pp: InitAnswer)
    requires WorldInv(w) && who in w.sessions && !w.sessions[who].phase.Closed?
    requires who in Next(w, act).sessions && Next(w, act).sessions[who].phase.Closed?
    requires w.sessions[who].phase.Paid? ==> pp == w.sessions[who].phase.answer
    requires w.sessions[who].phase.Failing? ==> pp == w.sessions[who].phase.cause
    ensures var outcome := Next(w, act).sessions[who].phase.outcome;
            var atomic := Serve(w.db, AtomicCreate(w.sessions[who], pp)).outcome;
            && (outcome == atomic <==> !LosesRace(w, act, who))
            && (LosesRace(w, act, who) ==>
                  outcome == Raised(IntegrityError) && atomic.Returned? && !atomic.answer.created)
  {
    hide Inv, Insert, Step, Exclusive, ChargesOk, Blocked;
    var x := w.sessions[who];
    assert ValidOrder(x.order);
    if x.phase.Paid? || x.phase.Failing? {
      assert HolderOk(w, x);
    }
    FindSpec(w.db.orders, x.tenant, x.order.merchantOrderId) by { InvKeys(w.db); }
  }

  // ---------- Once a key is committed ----------

  // How a session ends for a key that already has a committed order: a rival that had looked in vain loses,
  // everyone else gets that order.
  predicate EndsOn(outcome: Outcome, id: OrderId, lost: bool) {
    if lost then outcome == Raised(IntegrityError)
    else outcome.Returned? && outcome.answer.OrderAnswer? && outcome.answer.id == id && !outcome.answer.created
  }

  ghost predicate LookedInVain(w: World, who: SessionId) {
    who in w.sessions && w.sessions[who].phase.Missing?
  }

  ghost predicate ClosedIn(w: World, who: SessionId) {
    who in w.sessions && w.sessions[who].phase.Closed?
  }

  lemma FoundStays(s: Store, s': Store, t: TenantId, m: string, id: OrderId)
    requires Inv(s) && Inv(s') && Extends(s, s') && Find(s.orders, t, m) == OneRow(id)
    ensures Find(s'.orders, t, m) == OneRow(id)
  {
    hide RowsOk, TxnsOk, Agrees, LogsOk;
    FindUnique(s'.orders, id);
  }

  lemma NextKeepsRow(w: World, act: Action, t: TenantId, m: string, id: OrderId)
    requires WorldInv(w) && Find(w.db.orders, t, m) == OneRow(id)
    ensures Find(Next(w, act).db.orders, t, m) == OneRow(id)
  {
    hide Inv, Extends, Find, Step, WorldInv, Next;
    NextKeeps(w, act);
    NextDb(w, act);
    if Next(w, act).db != w.db {
      assert Inv(w.db) && Inv(Next(w, act).db) by { WorldHasInv(w); WorldHasInv(Next(w, act)); }
      match act {
        case End(who) => StepKeeps(w.db, AtomicCreate(w.sessions[who], w.sessions[who].phase.answer));
        case Other(ev) => StepKeeps(w.db, ev);
      }
      FoundStays(w.db, Next(w, act).db, t, m, id);
    }
  }

  lemma WorldHasInv(w: World)
    requires WorldInv(w)
    ensures Inv(w.db)
  {
  }

  // No session can be holding a committed key, so none can call upstream or commit for it.
  lemma NextKeepsCalls(w: World, act: Action, t: TenantId, m: string, id: OrderId)
    requires WorldInv(w) && Find(w.db.orders, t, m) == OneRow(id)
    ensures Calls(Next(w, act).calls, t, m) == Calls(w.calls, t, m)
  {
    hide Inv, Find, Step, Insert, Blocked, Exclusive, ChargesOk, SchemaOk;
    if act.Upstream? && act.who in w.sessions && w.sessions[act.who].phase.Holding? {
      var x := w.sessions[act.who];
      assert HolderOk(w, x);
      CallsAppend(w.calls, Call(x.tenant, x.order.merchantOrderId, act.answer.InitOk?), t, m);
    }
  }

  // Whoever asks for a committed key neither starts nor stops being a rival that looked in vain, until it ends.
  lemma NextRival(w: World, act: Action, t: TenantId, m: string, id: OrderId, who: SessionId)
    requires WorldInv(w) && Find(w.db.orders, t, m) == OneRow(id) && !ClosedIn(w, who)
    requires who in Next(w, act).sessions && Next(w, act).sessions[who].Asks(t, m)
    ensures if ClosedIn(Next(w, act), who)
            then EndsOn(Next(w, act).sessions[who].phase.outcome, id, LookedInVain(w, who))
            else LookedInVain(Next(w, act), who) <==> LookedInVain(w, who)
  {
    hide Inv, Find, Step, Insert, Blocked, Exclusive, ChargesOk, SchemaOk;
    if who in w.sessions && w.sessions[who].Holds() {
      assert HolderOk(w, w.sessions[who]);
    }
  }

  // A session keeps what it asked for, and once closed its answer.
  ghost predicate SameSession(w: World, w': World, who: SessionId) {
    who in w.sessions ==>
      && who in w'.sessions && w'.sessions[who] == w.sessions[who].(phase := w'.sessions[who].phase)
      && (w.sessions[who].phase.Closed? ==> w'.sessions[who] == w.sessions[who])
  }

  lemma NextSame(w: World, act: Action, who: SessionId)
    ensures SameSession(w, Next(w, act), who)
  {
    hide Find, Step, Insert, Blocked;
  }

  lemma {:induction false} PlaySame(w: World, acts: seq<Action>, who: SessionId)
    ensures SameSession(w, Play(w, acts), who)
    decreases |acts|
  {
    hide Next;
    if acts == [] {
    } else {
      NextSame(w, acts[0], who);
      PlaySame(Next(w, acts[0]), acts[1..], who);
    }
  }

  lemma {:induction false} PlayRival(w: World, acts: seq<Action>, t: TenantId, m: string, id: OrderId, who: SessionId)
    requires WorldInv(w) && Find(w.db.orders, t, m) == OneRow(id) && !ClosedIn(w, who)
    requires ClosedIn(Play(w, acts), who) && Play(w, acts).sessions[who].Asks(t, m)
    ensures EndsOn(Play(w, acts).sessions[who].phase.outcome, id, LookedInVain(w, who))
    decreases |acts|
  {
    hide WorldInv, Find, Next, EndsOn;
    if acts == [] {
    } else {
      var next := Next(w, acts[0]);
      NextKeeps(w, acts[0]);
      NextKeepsRow(w, acts[0], t, m, id);
      NextSame(w, acts[0], who);
      PlaySame(next, acts[1..], who);
      if who in next.sessions {
        NextRival(w, acts[0], t, m, id, who);
      }
      if !ClosedIn(next, who) {
        PlayRival(next, acts[1..], t, m, id, who);
      }
    }
  }

  // From then on, in every continuation, the key keeps its order, no further upstream call is made for it, and
  // every session that asks for it and was not closed yet ends with an integrity error if it had already
  // looked in vain, and with that order if it had not.
  lemma CommittedKeyIsFinal(w: World, acts: seq<Action>, t: TenantId, m: string, id: OrderId)
    requires WorldInv(w) && Find(w.db.orders, t, m) == OneRow(id)
    ensures Find(Play(w, acts).db.orders, t, m) == OneRow(id)
    ensures Calls(Play(w, acts).calls, t, m) == Calls(w.calls, t, m)
    ensures forall i :: ClosedIn(Play(w, acts), i) && !ClosedIn(w, i) && Play(w, acts).sessions[i].Asks(t, m) ==>
              EndsOn(Play(w, acts).sessions[i].phase.outcome, id, LookedInVain(w, i))
    ensures forall i :: ClosedIn(w, i) ==> ClosedIn(Play(w, acts), i) && Play(w, acts).sessions[i] == w.sessions[i]
  {
    hide WorldInv, Find, Play, EndsOn;
    PlayKeepsKey(w, acts, t, m, id);
    forall i | ClosedIn(w, i) ensures ClosedIn(Play(w, acts), i) && Play(w, acts).sessions[i] == w.sessions[i] {
      PlaySame(w, acts, i);
    }
    forall i | ClosedIn(Play(w, acts), i) && !ClosedIn(w, i) && Play(w, acts).sessions[i].Asks(t, m)
      ensures EndsOn(Play(w, acts).sessions[i].phase.outcome, id, LookedInVain(w, i))
    {
      PlayRival(w, acts, t, m, id, i);
    }
  }

  lemma {:induction false} PlayKeepsKey(w: World, acts: seq<Action>, t: TenantId, m: string, id: OrderId)
    requires WorldInv(w) && Find(w.db.orders, t, m) == OneRow(id)
    ensures Find(Play(w, acts).db.orders, t, m) == OneRow(id)
    ensures Calls(Play(w, acts).calls, t, m) == Calls(w.calls, t, m)
    decreases |acts|
  {
    hide WorldInv, Find, Next;
    if acts == [] {
    } else {
      NextKeeps(w, acts[0]);
      NextKeepsRow(w, acts[0], t, m, id);
      NextKeepsCalls(w, acts[0], t, m, id);
      PlayKeepsKey(Next(w, acts[0]), acts[1..], t, m, id);
    }
  }

  // Every later create: a session that begins after the commit, or had begun but not looked, ends in every
  // continuation with that same order and without an error.
  lemma LaterCreateReturnsOrder(w: World, acts: seq<Action>, t: TenantId, m: string, id: OrderId, who: SessionId)
    requires WorldInv(w) && Find(w.db.orders, t, m) == OneRow(id)
    requires who !in w.sessions || w.sessions[who].phase.Started?
    ensures var w' := Play(w, acts);
            ClosedIn(w', who) && w'.sessions[who].Asks(t, m) ==>
              exists row :: w'.sessions[who].phase.outcome == Returned(OrderAnswer(id, row, false))
    ensures Calls(Play(w, acts).calls, t, m) == Calls(w.calls, t, m)
  {
    hide WorldInv, Find, Next;
    CommittedKeyIsFinal(w, acts, t, m, id);
    var w' := Play(w, acts);
    if ClosedIn(w', who) && w'.sessions[who].Asks(t, m) {
      var row := w'.sessions[who].phase.outcome.answer.order;
      assert w'.sessions[who].phase.outcome == Returned(OrderAnswer(id, row, false));
    }
  }

  // ---------- Progress ----------

  // The initiate_payment calls are exactly the upstream steps taken with readable credentials.
  lemma CallsMade(w: World, act: Action)
    ensures var called := act.Upstream? && act.who in w.sessions && w.sessions[act.who].phase.Holding?
                          && !act.answer.InitUnreadable?;
            Next(w, act).calls ==
            if called then
              var x := w.sessions[act.who];
              w.calls + [Call(x.tenant, x.order.merchantOrderId, act.answer.InitOk?)]
            else w.calls
  {
    hide Find, Step, Insert, Blocked;
  }

  // A flush waits exactly for an open insert of the same key or the same id.
  lemma FlushWaitsExactlyForRivals(w: World, who: SessionId)
    requires LookedInVain(w, who)
    ensures var x := w.sessions[who];
            LookedInVain(Next(w, Flush(who)), who) <==>
            exists i :: i in w.sessions && i != who && (w.sessions[i].phase.Holding? || w.sessions[i].phase.Paid?
                          || w.sessions[i].phase.Failing?)
                        && (w.sessions[i].newId == x.newId || (w.sessions[i].tenant == x.tenant
                              && w.sessions[i].order.merchantOrderId == x.order.merchantOrderId))
  {
    hide Find;
    var x := w.sessions[who];
    if Blocked(w, who) {
      var i :| i in w.sessions && i != who && w.sessions[i].Holds() && Clash(x, w.sessions[i]);
      assert w.sessions[i].newId == x.newId || w.sessions[i].Asks(x.tenant, x.order.merchantOrderId);
    } else {
      forall i | i in w.sessions && i != who && w.sessions[i].Holds()
        ensures !Clash(x, w.sessions[i])
      {
      }
    }
  }

  ghost function Holders(w: World): set<SessionId> {
    set i | i in w.sessions && w.sessions[i].Holds()
  }

  // What it takes to end one session: everyone else is left as they were.
  lemma HolderCanEnd(w: World, who: SessionId) returns (acts: seq<Action>)
    requires WorldInv(w) && who in w.sessions && w.sessions[who].Holds()
    ensures var w' := Play(w, acts);
            && WorldInv(w') && ClosedIn(w', who) && w'.sessions.Keys == w.sessions.Keys
            && forall i :: i in w.sessions && i != who ==> w'.sessions[i] == w.sessions[i]
  {
    hide Inv, Find, Insert, Exclusive, ChargesOk, SchemaOk;
    assert HolderOk(w, w.sessions[who]);
    if w.sessions[who].phase.Holding? {
      var up := Upstream(who, InitUnreadable);
      acts := [up, End(who)];
      assert acts[1..] == [End(who)] && [End(who)][1..] == [];
      assert Play(w, acts) == Play(Next(w, up), [End(who)]) == Play(Next(Next(w, up), End(who)), []);
    } else {
      acts := [End(who)];
      assert acts[1..] == [];
      assert Play(w, acts) == Play(Next(w, End(who)), []);
    }
    PlayKeeps(w, acts);
  }

  lemma FewerHolders(w: World, w': World, who: SessionId)
    requires who in w.sessions && w.sessions[who].Holds() && ClosedIn(w', who)
    requires w'.sessions.Keys == w.sessions.Keys
    requires forall i :: i in w.sessions && i != who ==> w'.sessions[i] == w.sessions[i]
    ensures |Holders(w')| < |Holders(w)|
  {
    assert who in Holders(w);
    assert Holders(w') == Holders(w) - {who};
  }

  // No interleaving ends in a deadlock: whatever has happened, every open session can still be brought to its
  // end, if need be after the sessions it waits for.
  lemma {:induction false} NoDeadlock(w: World, who: SessionId) returns (acts: seq<Action>)
    requires WorldInv(w) && who in w.sessions && !ClosedIn(w, who)
    ensures ClosedIn(Play(w, acts), who)
    decreases |Holders(w)|, if w.sessions[who].phase.Started? then 1 else 0
  {
    hide WorldInv, Find, Next, Blocked, Holders;
    if w.sessions[who].Holds() {
      acts := HolderCanEnd(w, who);
    } else if w.sessions[who].phase.Started? {
      var next := Next(w, Look(who));
      NextKeeps(w, Look(who));
      LookMoves(w, who);
      assert [Look(who)][1..] == [];
      assert Play(w, [Look(who)]) == Play(next, []);
      if ClosedIn(next, who) {
        acts := [Look(who)];
      } else {
        var rest := NoDeadlock(next, who);
        acts := [Look(who)] + rest;
        PlayConcat(w, [Look(who)], rest);
      }
    } else if Blocked(w, who) {
      var other := Rival(w, who);
      var first := HolderCanEnd(w, other);
      FewerHolders(w, Play(w, first), other);
      var rest := NoDeadlock(Play(w, first), who);
      acts := first + rest;
      PlayConcat(w, first, rest);
    } else {
      acts := FlushThenEnd(w, who);
    }
  }

  lemma LookMoves(w: World, who: SessionId)
    requires who in w.sessions && w.sessions[who].phase.Started?
    ensures var w' := Next(w, Look(who));
            && who in w'.sessions && (ClosedIn(w', who) || LookedInVain(w', who))
            && Holders(w') == Holders(w)
  {
    hide Find;
  }

  lemma Rival(w: World, who: SessionId) returns (other: SessionId)
    requires who in w.sessions && Blocked(w, who)
    ensures other in w.sessions && other != who && w.sessions[other].Holds()
  {
    other :| other in w.sessions && other != who && w.sessions[other].Holds()
             && Clash(w.sessions[who], w.sessions[other]);
  }

  lemma FlushThenEnd(w: World, who: SessionId) returns (acts: seq<Action>)
    requires WorldInv(w) && LookedInVain(w, who) && !Blocked(w, who)
    ensures ClosedIn(Play(w, acts), who)
  {
    hide WorldInv, Find, Blocked;
    var next := Next(w, Flush(who));
    NextKeeps(w, Flush(who));
    assert [Flush(who)][1..] == [];
    assert Play(w, [Flush(who)]) == Play(next, []);
    if ClosedIn(next, who) {
      acts := [Flush(who)];
    } else {
      var rest := HolderCanEnd(next, who);
      acts := [Flush(who)] + rest;
      PlayConcat(w, [Flush(who)], rest);
    }
  }

  // ---------- A race that is lost ----------

  // Two requests for one key. The second looks before the first commits, and flushes after.
  function Race(t: TenantId, d: OrderCreate, first: OrderId, second: OrderId, now: int, pp: InitAnswer): seq<Action> {
    [Begin(0, t, d, first, now), Begin(1, t, d, second, now), Look(0), Look(1)] +
    [Flush(0), Upstream(0, pp), End(0), Flush(1)]
  }

  // Both have looked in vain, and session 0 is in this phase.
  function Racing(w: World, t: TenantId, d: OrderCreate, first: OrderId, second: OrderId, now: int,
                  phase: Phase): World
  {
    w.(sessions := map[0 := Session(t, d, first, now, phase), 1 := Session(t, d, second, now, Missing)])
  }

  lemma RaceOpens(w: World, t: TenantId, d: OrderCreate, first: OrderId, second: OrderId, now: int)
    requires w.sessions == map[] && ValidOrder(d) && Find(w.db.orders, t, d.merchantOrderId).NoRow?
    ensures Play(w, [Begin(0, t, d, first, now), Begin(1, t, d, second, now), Look(0), Look(1)])
         == Racing(w, t, d, first, second, now, Missing)
  {
    hide Find, Play;
    var begun := w.(sessions := map[0 := Session(t, d, first, now, Started),
                                    1 := Session(t, d, second, now, Started)]);
    var one := Next(w, Begin(0, t, d, first, now));
    assert Next(one, Begin(1, t, d, second, now)) == begun;
    assert Next(Next(begun, Look(0)), Look(1)) == Racing(w, t, d, first, second, now, Missing);
    FourSteps(w, Begin(0, t, d, first, now), Begin(1, t, d, second, now), Look(0), Look(1));
  }

  lemma {:induction false} PlayConcat(w: World, a: seq<Action>, b: seq<Action>)
    ensures Play(w, a + b) == Play(Play(w, a), b)
    decreases |a|
  {
    hide Next;
    if a == [] {
      assert a + b == b;
    } else {
      PlayConcat(Next(w, a[0]), a[1..], b);
      assert (a + b)[1..] == a[1..] + b;
    }
  }

  lemma InitialFacts(w: World)
    requires Initial(w)
    ensures w.sessions == map[] && w.calls == [] && Inv(w.db)
  {
    ReachableInv(w.db);
  }

  lemma FourSteps(w: World, a: Action, b: Action, c: Action, d: Action)
    ensures Play(w, [a, b, c, d]) == Next(Next(Next(Next(w, a), b), c), d)
  {
    hide Next;
    assert [a, b, c, d][1..] == [b, c, d] && [b, c, d][1..] == [c, d] && [c, d][1..] == [d] && [d][1..] == [];
    assert Play(Next(Next(Next(w, a), b), c), [d]) == Next(Next(Next(Next(w, a), b), c), d);
    assert Play(w, [a, b, c, d]) == Play(Next(w, a), [b, c, d]) == Play(Next(Next(w, a), b), [c, d]);
  }

  lemma WinnerPays(w: World, t: TenantId, d: OrderCreate, first: OrderId, second: OrderId, now: int, pp: InitAnswer)
    requires t in w.db.tenants && first !in w.db.orders && w.calls == [] && pp.InitOk?
    requires Find(w.db.orders, t, d.merchantOrderId).NoRow?
    ensures Next(Next(Racing(w, t, d, first, second, now, Missing), Flush(0)), Upstream(0, pp))
         == Racing(w, t, d, first, second, now, Paid(pp)).(calls := [Call(t, d.merchantOrderId, true)])
  {
    hide Find, Blocked;
    var looked := Racing(w, t, d, first, second, now, Missing);
    var held := Racing(w, t, d, first, second, now, Holding);
    assert !Blocked(looked, 0) by { NobodyHolds(looked, 0); }
    RacingMoves(w, t, d, first, second, now, Missing, Holding);
    RacingMoves(w, t, d, first, second, now, Holding, Paid(pp));
    assert Next(looked, Flush(0)) == held;
  }

  lemma NobodyHolds(w: World, who: SessionId)
    requires who in w.sessions && forall i :: i in w.sessions ==> !w.sessions[i].Holds()
    ensures !Blocked(w, who)
  {
  }

  lemma RacingMoves(w: World, t: TenantId, d: OrderCreate, first: OrderId, second: OrderId, now: int,
                    phase: Phase, phase': Phase)
    ensures To(Racing(w, t, d, first, second, now, phase), 0, phase') == Racing(w, t, d, first, second, now, phase')
  {
    assert map[0 := Session(t, d, first, now, phase), 1 := Session(t, d, second, now, Missing)]
           [0 := Session(t, d, first, now, phase')]
        == map[0 := Session(t, d, first, now, phase'), 1 := Session(t, d, second, now, Missing)];
  }

  // The commit of session 0.
  lemma WinnerCommits(w: World, pp: InitAnswer)
    requires w.sessions.Keys == {0, 1} && w.sessions[0].phase == Paid(pp) && pp.InitOk?
    requires w.sessions[1].phase.Missing?
    ensures var x := w.sessions[0];
            var w' := Next(w, End(0));
            && w'.db == Insert(w.db, x.tenant, x.order, x.newId, x.now, pp)
            && w'.sessions.Keys == {0, 1} && w'.sessions[1] == w.sessions[1]
            && w'.sessions[0].phase
               == Closed(Returned(OrderAnswer(x.newId, PendingOrder(x.tenant, x.order, x.now, pp), true)))
  {
    hide Insert;
  }

  // The flush of session 1 once its key is there.
  lemma LoserRaises(w: World)
    requires w.sessions.Keys == {0, 1} && w.sessions[0].phase.Closed? && w.sessions[1].phase.Missing?
    requires !Find(w.db.orders, w.sessions[1].tenant, w.sessions[1].order.merchantOrderId).NoRow?
    ensures Next(w, Flush(1)) == To(w, 1, Closed(Raised(IntegrityError)))
  {
    hide Find;
  }

  lemma Inserted(s: Store, t: TenantId, d: OrderCreate, newId: OrderId, now: int, pp: InitAnswer)
    requires Inv(s) && ValidOrder(d) && pp.InitOk? && newId !in s.orders && t in s.tenants
    requires Find(s.orders, t, d.merchantOrderId).NoRow?
    ensures var s' := Insert(s, t, d, newId, now, pp);
            && Find(s'.orders, t, d.merchantOrderId) == OneRow(newId)
            && s'.orders[newId] == PendingOrder(t, d, now, pp)
  {
    InsertKeeps(s, t, d, newId, now, pp);
    FindUnique(Insert(s, t, d, newId, now, pp).orders, newId);
  }

  lemma RepeatedCreate(s: Store, t: TenantId, d: OrderCreate, id: OrderId, newId: OrderId, now: int, pp: InitAnswer)
    requires ValidOrder(d) && Find(s.orders, t, d.merchantOrderId) == OneRow(id)
    ensures Serve(s, Create(t, d, newId, now, pp)).outcome == Returned(OrderAnswer(id, s.orders[id], false))
  {
    hide Find;
  }

  // From every world before any create, for every tenant and every new key: the second request raises, where the
  // same request made whole would return the first one's order.
  lemma RivalCanLose(w: World, t: TenantId, d: OrderCreate, first: OrderId, second: OrderId, now: int, pp: InitAnswer)
    requires Initial(w) && t in w.db.tenants && ValidOrder(d) && pp.InitOk?
    requires Find(w.db.orders, t, d.merchantOrderId).NoRow?
    requires first !in w.db.orders && second !in w.db.orders && first != second
    ensures var w' := Play(w, Race(t, d, first, second, now, pp));
            && w'.sessions.Keys == {0, 1}
            && w'.sessions[0].phase == Closed(Returned(OrderAnswer(first, PendingOrder(t, d, now, pp), true)))
            && w'.sessions[1].phase == Closed(Raised(IntegrityError))
            && Serve(w'.db, Create(t, d, second, now, pp)).outcome
               == Returned(OrderAnswer(first, PendingOrder(t, d, now, pp), false))
  {
    hide Next, Play, Find, Inv, Insert, Initial, Serve;
    assert w.sessions == map[] && w.calls == [] && Inv(w.db) by { InitialFacts(w); }
    RaceOpens(w, t, d, first, second, now);
    var looked := Racing(w, t, d, first, second, now, Missing);
    PlayConcat(w, [Begin(0, t, d, first, now), Begin(1, t, d, second, now), Look(0), Look(1)],
               [Flush(0), Upstream(0, pp), End(0), Flush(1)]);
    WinnerPays(w, t, d, first, second, now, pp);
    var paid := Racing(w, t, d, first, second, now, Paid(pp)).(calls := [Call(t, d.merchantOrderId, true)]);
    WinnerCommits(paid, pp);
    Inserted(w.db, t, d, first, now, pp);
    LoserRaises(Next(paid, End(0)));
    FourSteps(looked, Flush(0), Upstream(0, pp), End(0), Flush(1));
    RepeatedCreate(Insert(w.db, t, d, first, now, pp), t, d, first, second, now, pp);
  }
}
