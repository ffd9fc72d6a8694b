/**
The SDK's trade methods as they run: go/v1/trade.go and go/v1/recover.go.

A client is one actor among any number sharing the database. Every change it makes is an
event of Store appended to the run; before every statement the other actors may take any
number of steps. Statements and sends may fail when the client is `faulty`, and other
actors act when it is `shared`; a calm client has neither.
*/
module Clients {
  import opened Options
  import opened Decimals
  import opened Money
  import opened Store
  import Quantities
  import opened Invariants
  import opened Ledger
  import opened TradeEvents
  import opened Acceptance
  import opened Pulls
  import opened Histories

  /**
  The partner's settlement callback: none, one that always succeeds, or one that may refuse;
  `answers(i)` is what it says to the i-th call ever made, a refusal or none.
  */
  datatype Handler = NoHandler | Reliable | Unreliable(answers: nat -> Option<string>)

  /** What the handler says to the call in that place. */
  function Says(handler: Handler, i: nat): Option<string> {
    if handler.Unreliable? then handler.answers(i) else None
  }

  /** One of the later calls asks for that, and the outcome is what the handler said to it. */
  ghost predicate CalledAs(before: seq<Call>, calls: seq<Call>, handler: Handler, k: TradeKey, pay: Pay,
                           refusal: Option<string>) {
    exists i :: |before| <= i < |calls| && calls[i] == Call(k, pay, refusal.None?) && refusal == Says(handler, i)
  }

  lemma Obliging(handler: Handler, i: nat)
    ensures !handler.Unreliable? ==> Says(handler, i) == None
  {
  }

  lemma CalledLater(s: State, u: State, v: State, handler: Handler, k: TradeKey, pay: Pay, refusal: Option<string>)
    requires Grows(u, v) && CalledAs(s.calls, u.calls, handler, k, pay, refusal)
    ensures CalledAs(s.calls, v.calls, handler, k, pay, refusal)
  {
    var i :| |s.calls| <= i < |u.calls| && u.calls[i] == Call(k, pay, refusal.None?) && refusal == Says(handler, i);
    hide SameTerms, SameFill, Says;
    assert v.calls[i] == u.calls[i];
  }

  lemma CalledNow(s: State, u: State, v: State, handler: Handler, k: TradeKey, pay: Pay, refusal: Option<string>)
    requires Grows(s, u) && refusal == Says(handler, |u.calls|) && v.calls == u.calls + [Call(k, pay, refusal.None?)]
    ensures CalledAs(s.calls, v.calls, handler, k, pay, refusal)
  {
    hide SameTerms, SameFill, Says;
    assert v.calls[|u.calls|] == Call(k, pay, refusal.None?) && |s.calls| <= |u.calls|;
  }

  lemma {:induction false} OthersKeepHand(s: State, theirs: seq<Event>, a: nat)
    requires forall e :: e in theirs ==> ActorOf(e) != Some(a)
    ensures HandOf(Run(s, theirs), a) == HandOf(s, a)
  {
    if theirs != [] {
      var front, e := theirs[..|theirs| - 1], theirs[|theirs| - 1];
      OthersKeepHand(s, front, a);
      OtherStep(Run(s, front), e, a);
      hide Step, HandOf;
    }
  }

  lemma OtherStep(s: State, e: Event, a: nat)
    requires ActorOf(e) != Some(a)
    ensures HandOf(Step(s, e), a) == HandOf(s, a)
  {
    hide RowFor, PayFor, Decrement, Fits;
  }

  /** The trade is stored; settled, unless the handler may refuse; and acked, if it is to be. */
  ghost predicate Done(u: State, k: TradeKey, handler: Handler, acked: bool) {
    k in u.trades && (!handler.Unreliable? ==> u.trades[k].settled) && (acked ==> k in u.acks && u.trades[k].ack)
  }

  /** So is every trade of the list that could be stored. */
  ghost predicate AllDone(s: State, u: State, raw: seq<TradeMsg>, handler: Handler, acked: bool) {
    forall m :: m in raw && RawOf(m) >= 0 && Acceptable(s, m) ==> Done(u, KeyOf(m), handler, acked)
  }

  lemma NoneDone(s: State, handler: Handler, acked: bool)
    ensures AllDone(s, s, [], handler, acked)
  {
    hide Acceptable, RawOf;
  }

  lemma DoneThen(s: State, u: State, v: State, front: seq<TradeMsg>, m: TradeMsg, handler: Handler, acked: bool)
    requires Grows(s, u) && Grows(u, v) && AllDone(s, u, front, handler, acked)
    requires Acceptable(u, m) && RawOf(m) >= 0 ==> Done(v, KeyOf(m), handler, acked)
    ensures AllDone(s, v, front + [m], handler, acked)
  {
    hide Acceptable, RawOf, SameTerms, SameFill;
    forall x | x in front + [m] && RawOf(x) >= 0 && Acceptable(s, x) ensures Done(v, KeyOf(x), handler, acked) {
      if x in front { assert Done(u, KeyOf(x), handler, acked); } else { AcceptableLater(s, u, x); }
    }
  }

  lemma DoneJoin(s: State, u: State, v: State, a: seq<TradeMsg>, b: seq<TradeMsg>, handler: Handler, acked: bool)
    requires Grows(s, u) && Grows(u, v) && AllDone(s, u, a, handler, acked) && AllDone(u, v, b, handler, acked)
    ensures AllDone(s, v, a + b, handler, acked)
  {
    hide Acceptable, RawOf, SameTerms, SameFill;
    forall x | x in a + b && RawOf(x) >= 0 && Acceptable(s, x) ensures Done(v, KeyOf(x), handler, acked) {
      AcceptableLater(s, u, x);
      if x in a { assert Done(u, KeyOf(x), handler, acked); }
    }
  }

  /** What was achieved between two states holds for earlier premises and later states. */
  lemma DoneBetween(s: State, u: State, v: State, w: State, raw: seq<TradeMsg>, handler: Handler, acked: bool)
    requires Grows(s, u) && Grows(v, w)
    ensures AllDone(u, v, raw, handler, acked) ==> AllDone(s, w, raw, handler, acked)
  {
    hide Acceptable, RawOf, SameTerms, SameFill;
    if AllDone(u, v, raw, handler, acked) {
      forall x | x in raw && RawOf(x) >= 0 && Acceptable(s, x) ensures Done(w, KeyOf(x), handler, acked) {
        AcceptableLater(s, u, x);
        assert Done(v, KeyOf(x), handler, acked);
      }
    }
  }

  // ---------------------------------------------------------------- what one client did

  predicate IsPersist(e: Event, a: nat, m: TradeMsg) { e.Persist? && e.actor == a && e.msg == m }

  /** The handler's answer, or the decision that there is none to ask. */
  predicate IsCall(e: Event, a: nat, handler: Handler, ok: bool) {
    if handler.NoHandler? then e == Waive(a) && ok else e.CallHandler? && e.actor == a && e.ok == ok
  }

  /** Neither a delivery nor a call of the handler. */
  predicate Quiet(acts: seq<Act>) { forall x :: x in acts ==> !x.e.Persist? && !Asks(x.e) }

  /** Runs the handler, or decides that there is none to run. */
  predicate Asks(e: Event) { e.CallHandler? || e.Waive? }

  function Asked(acts: seq<Act>): nat {
    if acts == [] then 0 else Asked(acts[..|acts| - 1]) + (if Asks(acts[|acts| - 1].e) then 1 else 0)
  }

  ghost predicate WasSettled(trace: seq<Event>, at: nat, k: TradeKey)
    requires at <= |trace|
  {
    k in StateAt(trace, at).trades && StateAt(trace, at).trades[k].settled
  }

  /**
  One round of the stream: nothing, if the message was not stored; otherwise its delivery
  and no other, and a single call of the handler at most, and none at all for a trade that
  was settled already.
  */
  ghost predicate RoundIs(acts: seq<Act>, trace: seq<Event>, a: nat, m: TradeMsg) {
    acts == [] ||
    (acts[0].at < |trace| && IsPersist(acts[0].e, a, m) && (forall x :: x in acts[1..] ==> !x.e.Persist?)
     && Asked(acts) <= (if WasSettled(trace, acts[0].at, KeyOf(m)) then 0 else 1))
  }

  /** A trade not settled before had its call. */
  ghost predicate Answered(acts: seq<Act>, trace: seq<Event>, m: TradeMsg) {
    acts != [] && acts[0].at < |trace| && (WasSettled(trace, acts[0].at, KeyOf(m)) || Asked(acts) == 1)
  }

  lemma {:induction false} AskedConcat(x: seq<Act>, y: seq<Act>)
    ensures Asked(x + y) == Asked(x) + Asked(y)
  {
    if y == [] {
      assert x + y == x;
    } else {
      assert (x + y)[..|x + y| - 1] == x + y[..|y| - 1];
      AskedConcat(x, y[..|y| - 1]);
    }
  }

  lemma {:induction false} QuietAsksNothing(acts: seq<Act>)
    requires Quiet(acts)
    ensures Asked(acts) == 0
  {
    if acts != [] {
      assert acts[|acts| - 1] in acts;
      QuietAsksNothing(acts[..|acts| - 1]);
    }
  }

  lemma AskedOne(x: Act)
    ensures Asked([x]) == if Asks(x.e) then 1 else 0
  {
    assert [x][..0] == [];
  }

  lemma SettleAsksOnce(acts: seq<Act>, trace: seq<Event>, a: nat, faulty: bool, handler: Handler, k: TradeKey,
                       refused: bool)
    requires SettleActs(acts, trace, a, faulty, handler, k, refused)
    ensures Asked(acts) == 1 && forall x :: x in acts ==> !x.e.Persist?
  {
    assert acts == [acts[0]] + [acts[1]];
    AskedConcat([acts[0]], [acts[1]]);
    AskedOne(acts[0]);
    AskedOne(acts[1]);
    hide StateAt, Asked;
  }

  lemma EmptyRound(trace: seq<Event>, a: nat, m: TradeMsg)
    ensures RoundIs([], trace, a, m)
  {
  }

  lemma RoundOf(act: Act, sent: seq<Act>, rest: seq<Act>, trace: seq<Event>, a: nat, m: TradeMsg, faulty: bool,
                handler: Handler)
    requires act.at < |trace| && IsPersist(act.e, a, m) && Quiet(sent)
    requires (Quiet(rest) && (faulty || WasSettled(trace, act.at, KeyOf(m))))
             || (!WasSettled(trace, act.at, KeyOf(m))
                 && exists refused :: SettleActs(rest, trace, a, faulty, handler, KeyOf(m), refused))
    ensures RoundIs([act] + sent + rest, trace, a, m) && (!faulty ==> Answered([act] + sent + rest, trace, m))
    ensures [act] + sent + [] == [act] + sent
  {
    var all := [act] + sent + rest;
    hide StateAt, SettleActs, WasSettled, Asked;
    AskedConcat([act] + sent, rest);
    AskedConcat([act], sent);
    QuietAsksNothing(sent);
    AskedOne(act);
    assert all[0] == act && all[1..] == sent + rest;
    if !WasSettled(trace, act.at, KeyOf(m))
        && exists refused :: SettleActs(rest, trace, a, faulty, handler, KeyOf(m), refused) {
      var refused :| SettleActs(rest, trace, a, faulty, handler, KeyOf(m), refused);
      SettleAsksOnce(rest, trace, a, faulty, handler, KeyOf(m), refused);
    } else {
      QuietAsksNothing(rest);
    }
    assert Asked(all) == Asked(rest);
    assert forall x :: x in all[1..] ==> x in sent || x in rest;
  }

  /** The mark of a settlement in hand, in its place; only a failing statement leaves it out. */
  ghost predicate Closes(act: Act, trace: seq<Event>, a: nat, faulty: bool, k: TradeKey) {
    act.at < |trace| && HandOf(StateAt(trace, act.at), a) == Paid(k)
    && (act.e == MarkSettled(a) || (faulty && act.e == Drop(a)))
  }

  /** One settlement: exactly one call of the handler, and the record of how it went. */
  ghost predicate SettleActs(acts: seq<Act>, trace: seq<Event>, a: nat, faulty: bool, handler: Handler, k: TradeKey,
                             refused: bool) {
    && |acts| == 2 && IsCall(acts[0].e, a, handler, !refused) && (refused ==> handler.Unreliable?)
    && if refused then acts[1].e == RecordFailure(a) || acts[1].e == Drop(a) else Closes(acts[1], trace, a, faulty, k)
  }

  lemma CallAdded(s: State, u: State, v: State, c: Call)
    requires Grows(s, u) && v.calls == u.calls + [c]
    ensures c in v.calls[|s.calls|..]
  {
    hide SameTerms, SameFill;
    assert v.calls[|s.calls|..] == u.calls[|s.calls|..] + [c];
  }

  lemma CallKept(s: State, u: State, v: State)
    requires Grows(s, u) && Grows(u, v)
    ensures forall c :: c in u.calls[|s.calls|..] ==> c in v.calls[|s.calls|..]
  {
    hide SameTerms, SameFill;
    assert v.calls[|s.calls|..] == u.calls[|s.calls|..] + v.calls[|u.calls|..];
  }

  /**
  A trade row after a settlement attempt: settled with no error, or one more failure while
  the SMALLINT counter has room.
  */
  function RowAfter(row: TradeRow, refusal: Option<string>): TradeRow {
    match refusal
    case None => row.(settled := true, settleError := None)
    case Some(why) => if row.attempts >= 32767 then row
        else row.(attempts := row.attempts + 1, settleError := Some(why))
  }

  /** A row of the reconciliations table, keyed by hour and day. */
  datatype RecRow = RecRow(matched: bool, done: bool)

  /** The client, its view of the tables, and the run so far. */
  class Client {
    const me: nat
    const shared: bool
    const faulty: bool
    var st: State
    var recs: map<(int, int), RecRow>
    ghost var trace: seq<Event>

    constructor (me: nat, shared: bool, faulty: bool)
      ensures Valid() && trace == [] && this.me == me && this.shared == shared && this.faulty == faulty
    {
      this.me, this.shared, this.faulty := me, shared, faulty;
      st := Init();
      recs := map[];
      trace := [];
    }

    predicate Calm() { !shared && !faulty }

    /** The tables are what the run made of them. */
    ghost predicate Valid()
      reads this`st, this`trace
    {
      st == Protocol.After(trace)
    }

    /** The run went on from an earlier point, and took nothing back. */
    twostate predicate Onward()
      reads this`st, this`trace
    {
      Valid() && old(trace) <= trace && Grows(old(st), st)
    }

    /** This client's own events of the run. */
    ghost function Mine(): seq<Act>
      reads this`trace
    {
      Acts(trace, me)
    }

    predicate Idle()
      reads this`st
    {
      HandOf(st, me) == Free
    }

    lemma Standing()
      requires Valid()
      ensures Inv(st)
    {
      Protocol.Reachable(trace);
    }

    /** A statement or transaction takes effect: the tables become what event `e` makes of them. */
    method Commit(next: State, ghost e: Event)
      requires Valid() && next == Step(st, e)
      modifies this`st, this`trace
      ensures Onward() && st == next && trace == old(trace) + [e]
      ensures Mine() == old(Mine()) + (if ActorOf(e) == Some(me) then [Act(|old(trace)|, e)] else [])
      ensures StateAt(trace, |old(trace)|) == old(st)
    {
      hide Step, Inv, Grows, Acts, StateAt, Protocol.After;
      Standing();
      StepInv(st, e);
      Snoc(trace, e);
      ActsOne(trace, e, me);
      StateNow(trace);
      StateStays(trace, trace + [e], |trace|);
      st := next;
      trace := trace + [e];
    }

    /** One atomic statement of this client. */
    method Do(e: Event)
      requires Valid()
      modifies this`st, this`trace
      ensures Onward() && st == Step(old(st), e) && trace == old(trace) + [e]
      ensures Mine() == old(Mine()) + (if ActorOf(e) == Some(me) then [Act(|old(trace)|, e)] else [])
      ensures StateAt(trace, |old(trace)|) == old(st)
    {
      hide Step;
      Commit(Step(st, e), e);
    }

    /** Whatever the other actors do between two statements of this client. */
    method Interfere()
      requires Valid()
      modifies this`st, this`trace
      ensures Onward() && HandOf(st, me) == old(HandOf(st, me)) && Mine() == old(Mine())
      ensures !shared ==> st == old(st) && trace == old(trace)
    {
      Standing();
      if shared {
        var evs: seq<Event> := *;
        var theirs := Others(evs, me);
        OthersKeepHand(st, theirs, me);
        OthersAddNone(trace, theirs, me);
        RunInv(st, theirs);
        hide *;
        Append(trace, theirs);
        st := Run(st, theirs);
        trace := trace + theirs;
      } else {
        GrowsRefl(st);
      }
    }

    /** Whether a statement or a send fails. */
    method Fails() returns (failed: bool)
      ensures !faulty ==> !failed
    {
      failed := *;
      if !faulty { failed := false; }
    }

    /** The lookup of the parent order and the amounts of the trade under it. */
    method Enrich(m: TradeMsg) returns (event: TradeEvent?, o: Option<OrderRow>)
      requires Valid() && Idle()
      modifies this`st, this`trace
      ensures Onward() && Idle() && Mine() == old(Mine()) && (!shared ==> st == old(st) && trace == old(trace))
      ensures event == null && !faulty ==> !Accepts(st, m)
      ensures event != null ==>
                fresh(event) && ParentOf(m) in st.orders && o == Some(st.orders[ParentOf(m)])
                && PayFor(o.value, m.filled, m.rate) == Some(event.AsPay())
    {
      hide Grows, Calc, Parse, Accepts, Step, Acts;
      event, o := null, None;
      Interfere();
      var failed := Fails();
      if failed { return; }
      if ParentOf(m) !in st.orders || !Readable(st.orders[ParentOf(m)]) {
        Unpriced(st, m);
        return;
      }
      var p := st.orders[ParentOf(m)];
      o := Some(p);
      event := new TradeEvent(m.filled, m.rate, p.side, p.pair, p.account.value, p.client, p.fee.fixed);
      var priced := event.Cal();
      if !priced {
        Unpriced(st, m);
        event := null;
      }
    }

    /**
    persistTrade: looks the parent order up, computes the amounts, then runs the
    transaction. On success the client holds the enriched event and whether the trade was
    settled; on failure nothing of its own has happened. `act` is the transaction and its
    place in the run, and `found` the state it met; when it came to none, those of the lookup.
    */
    method PersistTrade(m: TradeMsg)
      returns (event: TradeEvent?, inserted: bool, settled: bool, ghost found: State, ghost act: Act)
      requires Valid() && Idle()
      modifies this`st, this`trace
      ensures Onward() && (!shared ==> st.calls == old(st).calls)
      ensures |old(trace)| <= act.at <= |trace| && found == StateAt(trace, act.at)
      ensures Mine() == old(Mine()) + (if event == null then [] else [act])
      ensures Inv(found) && Grows(old(st), found) && Grows(found, st) && (!shared ==> found == old(st))
      ensures event == null ==> Idle() && (!shared ==> st == old(st)) && (!faulty ==> !Accepts(found, m))
      ensures event == null && !faulty ==> !(Acceptable(old(st), m) && RawOf(m) >= 0)
      ensures event != null ==>
                fresh(event) && KeyOf(m) in st.trades && HandOf(st, me) == Stored(KeyOf(m), settled, event.AsPay())
                && act.at < |trace| && IsPersist(act.e, me, m) && st == Step(found, act.e) && Accepts(found, m)
                    && HandOf(found, me) == Free
                && (inserted <==> KeyOf(m) !in found.trades)
                && (settled <==> KeyOf(m) in found.trades && found.trades[KeyOf(m)].settled)
      ensures event != null && inserted ==> Filed(found, st, m, act.e.now)
      ensures event != null && !inserted ==> st.trades == found.trades && st.orders == found.orders
    {
      hide Filed, Grows, Accepts, Step, Acceptable, RawOf, OrdersOk, TradesOk, SinceOk, RemainingOk, FlagsOk, StateAt,
           Acts, PayFor;
      ghost var start := st;
      inserted, settled := false, false;
      var o;
      event, o := Enrich(m);
      found, act := st, Act(|trace|, Drop(me));
      StateNow(trace);
      GrowsRefl(found);
      Standing();
      if !Accepts(found, m) { RefusalMeans(start, found, m); }
      if event == null { return; }
      ghost var looked := found;
      Interfere();
      found, act := st, Act(|trace|, Drop(me));
      StateNow(trace);
      GrowsTrans(start, looked, found);
      Standing();
      if !Accepts(found, m) { RefusalMeans(start, found, m); }
      var stored;
      ghost var e;
      stored, inserted, settled, e := Transact(m, o.value, event.AsPay(), looked);
      GrowsTrans(start, found, st);
      if stored {
        if inserted { FilesNow(found, st, me, m, e); } else { NothingFiled(found, me, m, e); }
        act := Act(act.at, e);
      } else {
        event := null;
      }
    }

    /**
    The transaction of persistTrade, all or nothing: on a first delivery the trade row
    and the decremented order, on a redelivery only a read of the settled flag.
    */
    method Transact(m: TradeMsg, o: OrderRow, pay: Pay, ghost looked: State)
      returns (stored: bool, inserted: bool, settled: bool, ghost e: Event)
      requires Valid() && Idle()
      requires Grows(looked, st) && ParentOf(m) in looked.orders && looked.orders[ParentOf(m)] == o
      requires PayFor(o, m.filled, m.rate) == Some(pay)
      modifies this`st, this`trace
      ensures Onward() && st.calls == old(st).calls && StateAt(trace, |old(trace)|) == old(st)
      ensures Mine() == old(Mine()) + (if stored then [Act(|old(trace)|, e)] else [])
      ensures !stored ==> st == old(st) && trace == old(trace) && (!faulty ==> !Accepts(old(st), m))
      ensures stored ==>
                Accepts(old(st), m) && (inserted <==> KeyOf(m) !in old(st).trades)
                && (settled <==> KeyOf(m) in old(st).trades && old(st).trades[KeyOf(m)].settled)
                && KeyOf(m) in st.trades && HandOf(st, me) == Stored(KeyOf(m), settled, pay)
                && IsPersist(e, me, m) && st == Step(old(st), e) && trace == old(trace) + [e]
    {
      hide Grows, Calc, Parse, PayFor, RowFor, InsertedRow, Decrement, Inv, Fits, StateAt, Acts, Step, Accepts, RawOf;
      stored, inserted, settled, e := false, false, false, Drop(me);
      StateNow(trace);
      GrowsRefl(st);
      var failed := Fails();
      if failed { return; }
      var now: int := *;
      var k, p := KeyOf(m), ParentOf(m);
      var row := InsertedRow(o, m, pay, now);
      LookupStillGood(looked, st, m, now);
      DateIsFree(o, m, pay, now);
      PricedOnce(o, m, pay, now);
      e := Persist(me, m, now);
      if row.None? {
        NotPriced(st, m);
        return;
      }
      var next := st;
      if k in st.trades {
        settled := st.trades[k].settled;
        next := st.(hands := st.hands[me := Stored(k, settled, pay)]);
        Recognised(st, me, m, now, pay);
      } else {
        var left := Decrement(st.orders[p].remaining, RawOf(m));
        TooMuch(st, m, left);
        if !Fits(left) { return; }
        var trades := st.trades[k := row.value];
        var orders := st.orders[p := st.orders[p].(status := m.orderStatus, remaining := left)];
        next := st.(trades := trades, orders := orders, origin := st.origin[k := m],
                    since := st.since[p := (if p in st.since then st.since[p] else []) + [k]],
                    hands := st.hands[me := Stored(k, false, pay)]);
        FirstStored(st, me, m, now, pay, row.value, left);
        inserted := true;
      }
      Commit(next, e);
      stored := true;
    }

    /** Puts down whatever is in hand: the caller moves on, or the process stops. */
    method LetGo()
      requires Valid()
      modifies this`st, this`trace
      ensures Onward() && Idle() && Bookkeeping(old(st), st) && StateAt(trace, |old(trace)|) == old(st)
      ensures trace == old(trace) + [Drop(me)] && Mine() == old(Mine()) + [Act(|old(trace)|, Drop(me))]
      ensures st.trades == old(st).trades && st.acks == old(st).acks && st.calls == old(st).calls
    {
      hide Grows, Bookkeeping;
      ActorStepBookkeeps(st, Drop(me));
      Do(Drop(me));
    }

    /** markSettled: a failing statement is logged and forgotten. */
    method MarkSettled(k: TradeKey) returns (ghost act: Act)
      requires Valid() && HandOf(st, me) == Paid(k) && k in st.trades
      modifies this`st, this`trace
      ensures Onward() && Idle() && Mine() == old(Mine()) + [act] && Closes(act, trace, me, faulty, k)
      ensures k in st.trades && (!faulty ==> st.trades[k].settled)
      ensures Calm() ==> Bookkeeping(old(st), st) && st.trades == old(st).trades[k := RowAfter(old(st).trades[k], None)]
      ensures !shared ==> st.calls == old(st).calls
    {
      hide Grows, Bookkeeping, StateAt, Acts;
      ghost var start := st;
      Interfere();
      ghost var before := st;
      StillStored(start, before, k);
      ActorStepBookkeeps(st, Event.MarkSettled(me));
      var failed := Fails();
      act := Act(|trace|, if failed then Drop(me) else Event.MarkSettled(me));
      if failed { LetGo(); } else { Do(Event.MarkSettled(me)); }
      GrowsTrans(start, before, st);
      StillStored(before, st, k);
    }

    /** Records a refused settlement; at the counter's limit, or on a failing statement, nothing is recorded. */
    method RecordFailure(k: TradeKey, why: string) returns (ghost act: Act)
      requires Valid() && HandOf(st, me) == Refused(k, why) && k in st.trades
      modifies this`st, this`trace
      ensures Onward() && Idle() && Mine() == old(Mine()) + [act]
      ensures (act.e == Event.RecordFailure(me) || act.e == Drop(me))
      ensures Calm() ==>
                Bookkeeping(old(st), st) && st.trades == old(st).trades[k := RowAfter(old(st).trades[k], Some(why))]
      ensures !shared ==> st.calls == old(st).calls
    {
      hide Grows, Bookkeeping, StateAt, Acts, Step;
      ghost var start := st;
      Interfere();
      ghost var before := st;
      ActorStepBookkeeps(st, Event.RecordFailure(me));
      ActorStepBookkeeps(st, Drop(me));
      StillStored(start, before, k);
      FailureSteps(st, me, k, why);
      var failed := Fails();
      failed := failed || st.trades[k].attempts >= MAX_ATTEMPTS;
      act := Act(|trace|, if failed then Drop(me) else Event.RecordFailure(me));
      if failed { LetGo(); } else { Do(Event.RecordFailure(me)); }
      GrowsTrans(start, before, st);
    }

    /** Runs the handler on the trade in hand. Without one there is nothing to run. */
    method CallBack(handler: Handler, event: TradeEvent, k: TradeKey) returns (refusal: Option<string>, ghost act: Act)
      requires Valid() && Due(HandOf(st, me)) == Some((k, event.AsPay())) && k in st.trades
      modifies this`st, this`trace
      ensures Onward() && k in st.trades && Mine() == old(Mine()) + [act] && IsCall(act.e, me, handler, refusal.None?)
      ensures HandOf(st, me) == match refusal case None => Paid(k) case Some(why) => Refused(k, why)
      ensures refusal.Some? ==> handler.Unreliable?
      ensures !handler.NoHandler? ==> Call(k, event.AsPay(), refusal.None?) in st.calls[|old(st).calls|..]
      ensures !handler.NoHandler? ==> CalledAs(old(st).calls, st.calls, handler, k, event.AsPay(), refusal)
      ensures !shared ==>
                st.calls == old(st).calls + (if handler.NoHandler? then []
                    else [Call(k, event.AsPay(), refusal.None?)])
      ensures Calm() ==> Bookkeeping(old(st), st) && st.trades == old(st).trades
    {
      hide Grows, Bookkeeping, StateAt, Acts, CalledAs, Says;
      ghost var start := st;
      Interfere();
      ghost var before := st;
      StillStored(start, before, k);
      if handler.NoHandler? {
        act := Act(|trace|, Waive(me));
        ActorStepBookkeeps(st, Waive(me));
        Do(Waive(me));
        refusal := None;
      } else {
        Obliging(handler, |st.calls|);
        refusal := Says(handler, |st.calls|);
        var why := match refusal case None => "" case Some(text) => text;
        act := Act(|trace|, CallHandler(me, refusal.None?, why));
        ActorStepBookkeeps(st, CallHandler(me, refusal.None?, why));
        Do(CallHandler(me, refusal.None?, why));
        CallAdded(start, before, st, Call(k, event.AsPay(), refusal.None?));
        CalledNow(start, before, st, handler, k, event.AsPay(), refusal);
      }
      GrowsTrans(start, before, st);
      StillStored(before, st, k);
    }

    /**
    settle: runs the handler on the trade in hand and records the outcome. Without a
    handler there is nothing to run and the trade counts as settled.
    */
    method Settle(handler: Handler, event: TradeEvent, k: TradeKey)
      returns (refusal: Option<string>, ghost acts: seq<Act>)
      requires Valid() && Due(HandOf(st, me)) == Some((k, event.AsPay())) && k in st.trades
      modifies this`st, this`trace
      ensures Onward() && Idle() && k in st.trades
      ensures Mine() == old(Mine()) + acts && SettleActs(acts, trace, me, faulty, handler, k, refusal.Some?)
      ensures refusal.Some? ==> handler.Unreliable?
      ensures !handler.NoHandler? ==> Call(k, event.AsPay(), refusal.None?) in st.calls[|old(st).calls|..]
      ensures !handler.NoHandler? ==> CalledAs(old(st).calls, st.calls, handler, k, event.AsPay(), refusal)
      ensures !shared ==>
                st.calls == old(st).calls + (if handler.NoHandler? then []
                    else [Call(k, event.AsPay(), refusal.None?)])
      ensures !faulty && refusal.None? ==> st.trades[k].settled
      ensures Calm() ==>
                Bookkeeping(old(st), st) && st.trades == old(st).trades[k := RowAfter(old(st).trades[k], refusal)]
    {
      hide Grows, Bookkeeping, Due, RowAfter, StateAt, Acts, CalledAs;
      ghost var start := st;
      ghost var call, close;
      refusal, call := CallBack(handler, event, k);
      ghost var called := st;
      if refusal.Some? { close := RecordFailure(k, refusal.value); } else { close := MarkSettled(k); }
      acts := [call, close];
      GrowsTrans(start, called, st);
      StillStored(called, st, k);
      if Calm() { BookkeepingTrans(start, called, st); }
      CallsStay(called, st);
      CallKept(start, called, st);
      if !handler.NoHandler? { CalledLater(start, called, st, handler, k, event.AsPay(), refusal); }
    }

    /** Flags an acked row; a failing statement is logged and forgotten. */
    method FlagAck(k: TradeKey, settled: bool, pay: Pay) returns (ghost acts: seq<Act>)
      requires Valid() && HandOf(st, me) == Acked(k, settled, pay) && k in st.trades
      modifies this`st, this`trace
      ensures Onward() && HandOf(st, me) == Acked(k, settled, pay) && k in st.trades
      ensures Mine() == old(Mine()) + acts && Quiet(acts)
      ensures !faulty ==> st.trades[k].ack
      ensures Calm() ==>
                Bookkeeping(old(st), st) && st.trades == old(st).trades[k := old(st).trades[k].(ack := true)]
    {
      hide Grows, Bookkeeping, Acts, StateAt;
      ghost var start := st;
      acts := [];
      Interfere();
      ghost var before := st;
      StillStored(start, before, k);
      var failed := Fails();
      if failed { return; }
      acts := [Act(|trace|, MarkAck(me))];
      ActorStepBookkeeps(st, MarkAck(me));
      Do(MarkAck(me));
      GrowsTrans(start, before, st);
    }

    /** Sends the ack of a stored trade to the Core. */
    method SendReceipt(k: TradeKey, settled: bool, pay: Pay) returns (open: bool, ghost acts: seq<Act>)
      requires Valid() && HandOf(st, me) == Stored(k, settled, pay) && k in st.trades
      modifies this`st, this`trace
      ensures Onward() && k in st.trades && Mine() == old(Mine()) + acts && Quiet(acts)
      ensures if open then HandOf(st, me) == Acked(k, settled, pay) && k in st.acks else Idle()
      ensures !faulty ==> open
      ensures Calm() ==> Bookkeeping(old(st), st) && st.trades == old(st).trades
    {
      hide Grows, Bookkeeping, Acts, StateAt;
      ghost var start := st;
      Interfere();
      ghost var before := st;
      StillStored(start, before, k);
      var failed := Fails();
      acts := [Act(|trace|, if failed then Drop(me) else SendAck(me))];
      if failed {
        LetGo();
        open := false;
      } else {
        ActorStepBookkeeps(st, SendAck(me));
        Do(SendAck(me));
        open := true;
      }
      GrowsTrans(start, before, st);
      StillStored(before, st, k);
    }

    /** Acks a stored trade to the Core, and only then flags the row. */
    method Acknowledge(k: TradeKey, settled: bool, pay: Pay) returns (open: bool, ghost acts: seq<Act>)
      requires Valid() && HandOf(st, me) == Stored(k, settled, pay) && k in st.trades
      modifies this`st, this`trace
      ensures Onward() && k in st.trades && Mine() == old(Mine()) + acts && Quiet(acts)
      ensures if open then HandOf(st, me) == Acked(k, settled, pay) && k in st.acks else Idle()
      ensures !faulty ==> open && st.trades[k].ack
      ensures Calm() ==>
                Bookkeeping(old(st), st) && st.trades == old(st).trades[k := old(st).trades[k].(ack := true)]
    {
      hide Grows, Bookkeeping, HandOf, Acts;
      ghost var start := st;
      open, acts := SendReceipt(k, settled, pay);
      if !open { return; }
      ghost var sent, flag := st, [];
      flag := FlagAck(k, settled, pay);
      acts := acts + flag;
      GrowsTrans(start, sent, st);
      CallsStay(sent, st);
      if Calm() { BookkeepingTrans(start, sent, st); }
    }

    /** Settles the trade in hand unless it was settled already. */
    method SettleIfDue(handler: Handler, event: TradeEvent, k: TradeKey, settled: bool)
      returns (refusal: Option<string>, ghost rest: seq<Act>)
      requires Valid() && k in st.trades
      requires HandOf(st, me) == Stored(k, settled, event.AsPay()) || HandOf(st, me) == Acked(k, settled, event.AsPay())
      modifies this`st, this`trace
      ensures Onward() && Idle() && k in st.trades && Mine() == old(Mine()) + rest
      ensures if settled then refusal.None? && |rest| == 1 && rest[0].e == Drop(me)
              else SettleActs(rest, trace, me, faulty, handler, k, refusal.Some?)
      ensures refusal.Some? ==> handler.Unreliable?
      ensures !faulty && !settled && refusal.None? ==> st.trades[k].settled
      ensures !shared ==> |st.calls| == |old(st).calls| + (if settled || handler.NoHandler? then 0 else 1)
      ensures Calm() ==> Bookkeeping(old(st), st)
      ensures Calm() ==>
                st.trades == if settled then old(st).trades
                    else old(st).trades[k := RowAfter(old(st).trades[k], refusal)]
    {
      hide Grows, Bookkeeping, Acts, StateAt, SettleActs, RowAfter;
      if settled {
        refusal, rest := None, [Act(|trace|, Drop(me))];
        LetGo();
      } else {
        refusal, rest := Settle(handler, event, k);
      }
    }

    /** The round after the trade has been stored: ack it, then settle it if that is due. */
    method Answer(handler: Handler, event: TradeEvent, k: TradeKey, settled: bool)
      returns (open: bool, ghost sent: seq<Act>, ghost rest: seq<Act>)
      requires Valid() && HandOf(st, me) == Stored(k, settled, event.AsPay()) && k in st.trades
      modifies this`st, this`trace
      ensures Onward() && Idle() && Mine() == old(Mine()) + (sent + rest) && Quiet(sent)
      ensures if settled || !open then Quiet(rest)
              else exists refused :: SettleActs(rest, trace, me, faulty, handler, k, refused)
      ensures !faulty ==> open && ((settled ==> old(st).trades[k].settled) ==> Done(st, k, handler, true))
      ensures Calm() ==> Bookkeeping(old(st), st)
    {
      hide Grows, Bookkeeping, Acts, StateAt, SettleActs, RowAfter, HandOf, Step;
      ghost var start := st;
      open, sent := Acknowledge(k, settled, event.AsPay());
      ghost var acked := st;
      StillStored(start, acked, k);
      rest := [];
      if !open { return; }
      var refusal;
      refusal, rest := SettleIfDue(handler, event, k, settled);
      GrowsTrans(start, acked, st);
      StillStored(acked, st, k);
      CallsStay(acked, st);
      if Calm() { BookkeepingTrans(start, acked, st); }
    }

    /**
    One round of the stream loop: persist, and only then ack, then settle what is not
    settled yet. A trade that could not be stored is not acked, so the Core sends it again.
    Without failing statements a trade that can be stored is handled, whatever others do.
    `acts` are the client's own events of the round.
    */
    method Receive(m: TradeMsg, handler: Handler) returns (open: bool, ghost acts: seq<Act>)
      requires Valid() && Idle()
      modifies this`st, this`trace
      ensures Onward() && Idle()
      ensures Mine() == old(Mine()) + acts && RoundIs(acts, trace, me, m)
      ensures (!faulty && acts != [] ==> Answered(acts, trace, m))
      ensures !faulty ==> open && (Acceptable(old(st), m) && RawOf(m) >= 0 ==> Done(st, KeyOf(m), handler, true))
      ensures Calm() ==> Taken(old(st), st, [m])
    {
      hide Grows, Bookkeeping, Accepts, Acceptable, RawOf, Taken, Inv, Step, Acts, StateAt, SettleActs, RoundIs,
           Answered, Done, Quiet, Filed, HandOf;
      ghost var start := st;
      var k := KeyOf(m);
      var event, inserted, settled;
      ghost var found, act, sent, rest;
      event, inserted, settled, found, act := PersistTrade(m);
      if event == null {
        acts, open := [], true;
        EmptyRound(trace, me, m);
        if Calm() { RefusedCalmly(start, m, trace); }
        return;
      }
      ghost var stored, persisted := st, trace;
      Standing();
      HandTellsTruth(stored, me);
      if Calm() { PersistedCalmly(start, stored, me, m, act.e, old(trace)); }
      open, sent, rest := Answer(handler, event, k, settled);
      GrowsTrans(start, stored, st);
      if Calm() { TakenBook(start, stored, st, [m]); }
      StateStays(persisted, trace, act.at);
      acts := [act] + sent + rest;
      RoundOf(act, sent, rest, trace, me, m, faulty, handler);
    }

    /**
    runTradeStream: `inbox` is what the stream delivered before it ended. The reconnect
    counter goes back to zero exactly when the server accepted the stream. `rounds` are the
    client's own events, message by message.
    */
    method RunTradeStream(accepted: bool, inbox: seq<TradeMsg>, handler: Handler, attempt: nat)
      returns (attempt': nat, ghost rounds: seq<seq<Act>>)
      requires Valid() && Idle()
      modifies this`st, this`trace
      ensures Onward() && Idle()
      ensures attempt' == if accepted then 0 else attempt
      ensures !accepted ==> st == old(st) && trace == old(trace)
      ensures Mine() == old(Mine()) + Flat(rounds) && RoundsAre(rounds, trace, me, faulty, inbox)
      ensures !faulty && accepted ==> |rounds| == |inbox|
      ensures Calm() && accepted ==> Taken(old(st), st, inbox)
      ensures !faulty && accepted ==> AllDone(old(st), st, inbox, handler, true)
    {
      hide Grows, Taken, Inv, HandOf, AllDone, Acts, RoundIs, Answered, Flat;
      ghost var start := st;
      attempt', rounds := attempt, [];
      FlatSnoc([], []);
      GrowsRefl(st);
      if !accepted { return; }
      attempt' := 0;
      NothingTaken(st);
      NoneDone(st, handler, true);
      for i := 0 to |inbox|
        invariant Onward() && Idle()
        invariant |rounds| == i && Mine() == old(Mine()) + Flat(rounds) && RoundsAre(rounds, trace, me, faulty, inbox)
        invariant Calm() ==> Taken(start, st, inbox[..i])
        invariant !faulty ==> AllDone(start, st, inbox[..i], handler, true)
      {
        ghost var before, run := st, trace;
        Standing();
        var open;
        ghost var acts;
        open, acts := Receive(inbox[i], handler);
        assert inbox[..i + 1] == inbox[..i] + [inbox[i]];
        RoundsMore(rounds, run, trace, me, faulty, inbox, acts);
        FlatSnoc(rounds, acts);
        rounds := rounds + [acts];
        if !faulty { DoneThen(start, before, st, inbox[..i], inbox[i], handler, true); }
        GrowsTrans(start, before, st);
        if Calm() { TakenThen(start, before, st, inbox[..i], [inbox[i]]); }
        if !open { return; }
      }
      assert inbox[..|inbox|] == inbox;
    }

    /**
    RetryUnsettled: without a handler nothing happens. Otherwise, without a failing
    statement, every trade stored before the call is settled after it or was refused by the
    handler during it, whatever other actors do meanwhile; no row is skipped.
    */
    method RetryUnsettled(handler: Handler) returns (ok: bool)
      requires Valid() && Idle()
      modifies this`st, this`trace
      ensures Onward() && Idle()
      ensures handler.NoHandler? ==> ok && st == old(st)
      ensures !faulty ==> ok
      ensures !faulty && !handler.NoHandler? ==> forall t :: t in old(st).trades ==> Tried(old(st), st, t, handler)
      ensures Calm() ==> Bookkeeping(old(st), st)
    {
      hide Grows, Inv, Bookkeeping, HandOf, SameFill, TriedBut, Acts, Tried;
      ghost var start := st;
      GrowsRefl(st);
      BookkeepingRefl(st);
      if handler.NoHandler? { return true; }
      Interfere();
      var failed := Fails();
      if failed { return false; }
      var rows := map t | t in st.trades && !st.trades[t].settled :: st.trades[t];
      var todo := rows.Keys;
      ghost var queried := st;
      SettledOrQueued(start, queried, todo, handler);
      GrowsRefl(st);
      while todo != {}
        invariant Onward() && Idle() && Grows(queried, st) && todo <= rows.Keys
        invariant Calm() ==> Bookkeeping(start, st)
        invariant !faulty ==> TriedBut(start, st, todo, handler)
        decreases |todo|
      {
        ghost var before, unsettled := st, todo;
        var k :| k in todo;
        todo := todo - {k};
        RowStays(queried, st, rows, k);
        RetryOne(k, rows[k], handler);
        if !faulty { OneMoreTried(start, before, st, unsettled, k, handler); }
        GrowsTrans(start, before, st);
        GrowsTrans(queried, before, st);
        if Calm() { BookkeepingTrans(start, before, st); }
      }
      if !faulty { NoneLeft(start, st, handler); }
      ok := true;
    }

    /** The event of a stored row under its parent order; none when it cannot be priced. */
    method PriceRow(o: OrderRow, row: TradeRow) returns (event: TradeEvent?)
      ensures event == null ==> StoredPay(o, row).None?
      ensures event != null ==> fresh(event) && StoredPay(o, row) == Some(event.AsPay())
    {
      hide Parse, NumText, Calc, StoredPay;
      RetryPrices(o, row, row);
      event := null;
      if !Readable(o) { return; }
      event := new TradeEvent(NumText(row.filled), NumText(row.rate), o.side, o.pair, o.account.value, row.client,
                              o.fee.fixed);
      var priced := event.Cal();
      if !priced { event := null; }
    }

    /**
    Enriches an unsettled row from the order its ref_id leads to, prices it, and takes it
    up for settlement; nothing but a failing statement makes it skip the row.
    */
    method TakeUp(k: TradeKey, row: TradeRow) returns (event: TradeEvent?)
      requires Valid() && Idle()
      requires k in st.trades && SameFill(row, st.trades[k])
      modifies this`st, this`trace
      ensures Onward() && k in st.trades
      ensures event == null ==> Idle() && faulty
      ensures event != null ==> fresh(event) && HandOf(st, me) == Owed(k, event.AsPay())
      ensures Calm() ==> Bookkeeping(old(st), st)
    {
      hide Grows, Inv, Bookkeeping, Parse, NumText, StoredPay, Calc, SameFill, Acts, StateAt;
      ghost var start := st;
      BookkeepingRefl(st);
      Interfere();
      ghost var looked := st;
      StillStored(start, looked, k);
      event := null;
      var failed := Fails();
      if failed { return; }
      Standing();
      FillKept(start, looked, row, k);
      RetryFinds(st, row, k);
      if p :| p in st.orders && p.ref == row.ref {
        RetryPrices(st.orders[p], row, st.trades[k]);
        event := PriceRow(st.orders[p], row);
        if event == null { return; }
        ActorStepBookkeeps(st, Pick(me, k, p));
        PickedUp(st, me, k, p, event.AsPay());
        hide Step;
        Do(Pick(me, k, p));
        GrowsTrans(start, looked, st);
      }
    }

    /** One turn of the loop of RetryUnsettled. */
    method RetryOne(k: TradeKey, row: TradeRow, handler: Handler)
      requires Valid() && Idle() && !handler.NoHandler?
      requires k in st.trades && SameFill(row, st.trades[k])
      modifies this`st, this`trace
      ensures Onward() && Idle() && k in st.trades
      ensures !faulty ==> Tried(old(st), st, k, handler)
      ensures Calm() ==> Bookkeeping(old(st), st)
    {
      hide Grows, Inv, Bookkeeping, SameFill, Acts, SettleActs;
      ghost var start := st;
      var event := TakeUp(k, row);
      if event == null { return; }
      ghost var picked := st;
      ghost var acts;
      var refusal;
      refusal, acts := Settle(handler, event, k);
      GrowsTrans(start, picked, st);
      CallsFrom(start, picked, st);
      if Calm() { BookkeepingTrans(start, picked, st); }
    }
  }

  // ---------------------------------------------------------------- rounds of a stream

  function Flat(rounds: seq<seq<Act>>): seq<Act> {
    if rounds == [] then [] else Flat(rounds[..|rounds| - 1]) + rounds[|rounds| - 1]
  }

  lemma FlatSnoc(rounds: seq<seq<Act>>, acts: seq<Act>)
    ensures Flat(rounds + [acts]) == Flat(rounds) + acts && Flat([]) == []
  {
    assert (rounds + [acts])[..|rounds|] == rounds;
  }

  ghost predicate RoundsAre(rounds: seq<seq<Act>>, trace: seq<Event>, a: nat, faulty: bool, inbox: seq<TradeMsg>) {
    |rounds| <= |inbox|
    && forall i :: 0 <= i < |rounds| ==>
         RoundIs(rounds[i], trace, a, inbox[i]) && (!faulty && rounds[i] != [] ==> Answered(rounds[i], trace, inbox[i]))
  }

  lemma RoundStays(acts: seq<Act>, trace: seq<Event>, longer: seq<Event>, a: nat, m: TradeMsg)
    requires RoundIs(acts, trace, a, m) && trace <= longer
    ensures RoundIs(acts, longer, a, m) && (Answered(acts, trace, m) ==> Answered(acts, longer, m))
  {
    if acts != [] { StateStays(trace, longer, acts[0].at); }
    hide StateAt, Asked;
  }

  lemma RoundsMore(rounds: seq<seq<Act>>, trace: seq<Event>, longer: seq<Event>, a: nat, faulty: bool,
                   inbox: seq<TradeMsg>, acts: seq<Act>)
    requires RoundsAre(rounds, trace, a, faulty, inbox) && trace <= longer && |rounds| < |inbox|
    requires var m := inbox[|rounds|];
             RoundIs(acts, longer, a, m) && (!faulty && acts != [] ==> Answered(acts, longer, m))
    ensures RoundsAre(rounds + [acts], longer, a, faulty, inbox)
  {
    hide RoundIs, Answered;
    forall i | 0 <= i < |rounds|
      ensures RoundIs(rounds[i], longer, a, inbox[i])
      ensures (!faulty && rounds[i] != [] ==> Answered(rounds[i], longer, inbox[i]))
    {
      RoundStays(rounds[i], trace, longer, a, inbox[i]);
    }
  }

  // ---------------------------------------------------------------- a pass over the unsettled rows

  /** The trade is settled, or a handler that may refuse has refused it in between. */
  ghost predicate Tried(s: State, u: State, t: TradeKey, handler: Handler) {
    t in u.trades && |s.calls| <= |u.calls|
    && (u.trades[t].settled || (handler.Unreliable? && exists pay :: Call(t, pay, false) in u.calls[|s.calls|..]))
  }

  ghost predicate TriedBut(s: State, u: State, rest: set<TradeKey>, handler: Handler) {
    forall t :: t in s.trades ==> t in u.trades && (t in rest || Tried(s, u, t, handler))
  }

  lemma NoneLeft(s: State, u: State, handler: Handler)
    requires TriedBut(s, u, {}, handler)
    ensures forall t :: t in s.trades ==> Tried(s, u, t, handler)
  {
    hide Tried;
  }

  lemma SettledOrQueued(s: State, u: State, todo: set<TradeKey>, handler: Handler)
    requires Grows(s, u) && todo == set t | t in u.trades && !u.trades[t].settled
    ensures TriedBut(s, u, todo, handler)
  {
  }

  lemma CallsFrom(s: State, u: State, v: State)
    requires Grows(s, u) && Grows(u, v)
    ensures forall c :: c in v.calls[|u.calls|..] ==> c in v.calls[|s.calls|..]
  {
    hide SameTerms, SameFill;
    assert v.calls[|s.calls|..] == v.calls[|s.calls|..|u.calls|] + v.calls[|u.calls|..];
  }

  /** Calls added later, or counted from an earlier point, are still there. */
  lemma TriedLater(r: State, s: State, u: State, v: State, t: TradeKey, handler: Handler)
    requires Grows(r, s) && Grows(s, u) && Grows(u, v) && Tried(s, u, t, handler)
    ensures Tried(r, v, t, handler)
  {
    StillStored(u, v, t);
    CallKept(s, u, v);
    GrowsTrans(s, u, v);
    CallsFrom(r, s, v);
    hide Grows;
  }

  lemma OneMoreTried(s: State, u: State, v: State, rest: set<TradeKey>, k: TradeKey, handler: Handler)
    requires Grows(s, u) && Grows(u, v) && TriedBut(s, u, rest, handler) && Tried(u, v, k, handler)
    ensures TriedBut(s, v, rest - {k}, handler)
  {
    GrowsRefl(s);
    GrowsRefl(v);
    hide Grows, Tried;
    forall t | t in s.trades ensures t in v.trades && (t in rest - {k} || Tried(s, v, t, handler)) {
      StillStored(u, v, t);
      if t == k { TriedLater(s, u, v, v, t, handler); } else if t !in rest { TriedLater(s, s, u, v, t, handler); }
    }
  }

  lemma RowStays(s: State, u: State, rows: map<TradeKey, TradeRow>, k: TradeKey)
    requires Grows(s, u) && k in rows && k in s.trades && s.trades[k] == rows[k]
    ensures k in u.trades && SameFill(rows[k], u.trades[k])
  {
  }

  lemma FillKept(s: State, u: State, row: TradeRow, k: TradeKey)
    requires Grows(s, u) && k in s.trades && SameFill(row, s.trades[k])
    ensures k in u.trades && SameFill(row, u.trades[k])
  {
    hide SameTerms;
  }

  lemma RetryFinds(s: State, row: TradeRow, k: TradeKey)
    requires Inv(s) && k in s.trades && SameFill(row, s.trades[k])
    ensures row.ref == s.trades[k].ref && exists p :: p in s.orders && p.ref == row.ref
    ensures forall p :: p in s.orders && p.ref == row.ref ==> StoredPay(s.orders[p], s.trades[k]).Some?
  {
    hide Inv, StoredPay;
    RetryNeverSkips(s, k);
  }

  /** Pricing the row as it was read and as it is now are the same. */
  lemma RetryPrices(o: OrderRow, row: TradeRow, now: TradeRow)
    requires SameFill(row, now)
    ensures StoredPay(o, row) == StoredPay(o, now)
    ensures StoredPay(o, row) ==
              if !Readable(o) then None else
              match Calc(NumText(row.filled), NumText(row.rate), o.side, o.fee.fixed)
              case None => None
              case Some(r) => Some(Pay(o.side, o.pair, o.account.value, row.client, r.settlement, r.fee))
  {
    hide Calc, NumText;
  }

  lemma PickedUp(s: State, a: nat, k: TradeKey, p: OrderKey, pay: Pay)
    requires HandOf(s, a) == Free && k in s.trades && p in s.orders && p.ref == s.trades[k].ref
    requires StoredPay(s.orders[p], s.trades[k]) == Some(pay)
    ensures var u := Step(s, Pick(a, k, p)); HandOf(u, a) == Owed(k, pay) && u.trades == s.trades && u.calls == s.calls
  {
    hide StoredPay;
  }

  lemma RefusedCalmly(s: State, m: TradeMsg, trace: seq<Event>)
    requires s == Protocol.After(trace) && !Accepts(s, m)
    ensures Pulled(s, s, [m], 0) && Taken(s, s, [m])
  {
    Protocol.Reachable(trace);
    hide Accepts, Pulled;
    RefusedPulled(s, m);
    assert Taken(s, s, [m]);
  }

  lemma PersistedCalmly(s: State, u: State, a: nat, m: TradeMsg, e: Event, trace: seq<Event>)
    requires s == Protocol.After(trace) && HandOf(s, a) == Free && Accepts(s, m)
    requires IsPersist(e, a, m) && u == Step(s, e)
    ensures Pulled(s, u, [m], if KeyOf(m) in s.trades then 0 else 1) && Taken(s, u, [m])
    ensures HandOf(u, a).Stored?
    ensures (KeyOf(m) in s.trades ==> HandOf(u, a).settled == s.trades[KeyOf(m)].settled && u.trades == s.trades)
  {
    assert e == Persist(a, m, e.now);
    PersistedHand(s, u, a, m, e.now);
    hide *;
    Protocol.Reachable(trace);
    PersistPulled(s, e);
    IsTaken(s, u, [m], if KeyOf(m) in s.trades then 0 else 1);
  }

  lemma PersistedHand(s: State, u: State, a: nat, m: TradeMsg, now: int)
    requires HandOf(s, a) == Free && Accepts(s, m) && u == Step(s, Persist(a, m, now))
    ensures HandOf(u, a).Stored?
    ensures (KeyOf(m) in s.trades ==> HandOf(u, a).settled == s.trades[KeyOf(m)].settled && u.trades == s.trades)
  {
    hide RowFor, PayFor, Decrement;
  }

  /** The settled rows. */
  function SettledKeys(s: State): set<TradeKey> { set t | t in s.trades && s.trades[t].settled }

  /** Storing or recognising a trade settles nothing, and reports what the row says. */
  lemma PersistedSettled(s: State, u: State, a: nat, m: TradeMsg, e: Event)
    requires HandOf(s, a) == Free && Accepts(s, m) && IsPersist(e, a, m) && u == Step(s, e)
    ensures SettledKeys(u) == SettledKeys(s) && HandOf(u, a).Stored?
    ensures (HandOf(u, a).settled <==> KeyOf(m) in SettledKeys(s))
  {
    assert e == Persist(a, m, e.now);
    PersistedHand(s, u, a, m, e.now);
    if KeyOf(m) !in s.trades {
      NewRowUnflagged(s, e);
      DeliveredHand(s, u, a, m, e.now);
      hide Step, FirstDelivery, Accepts, HandOf;
    }
  }

  /**
  A first delivery has filed its row with no flag set, and taken its fill off the parent
  order, which now has the status the Core sent; no other row or order has changed.
  */
  ghost predicate Filed(s: State, u: State, m: TradeMsg, now: int) {
    var t, p := KeyOf(m), ParentOf(m);
    && t in u.trades && p in u.orders && p in s.orders
    && Files(u.trades[t], t, p, s.orders[p], m, now) && Unflagged(u.trades[t])
    && u.trades == s.trades[t := u.trades[t]]
    && u.orders == s.orders[p := s.orders[p].(status := m.orderStatus,
         remaining := Max(s.orders[p].remaining - Quantities.TakenBy(RawOf(m)), 0))]
  }

  lemma FilesNow(s: State, u: State, a: nat, m: TradeMsg, e: Event)
    requires Inv(s) && HandOf(s, a) == Free && Accepts(s, m) && KeyOf(m) !in s.trades
    requires IsPersist(e, a, m) && u == Step(s, e)
    ensures Filed(s, u, m, e.now)
  {
    hide *;
    IsFirst(s, a, m, e);
    InvParts(s);
    DeliveryHistory(s, e);
    DeliveredOrder(s, e);
    DeliveredRow(s, e);
    Quantities.DecrementTakes(s.orders[ParentOf(m)].remaining, RawOf(m));
    RowForIs(s.orders[ParentOf(m)], m, e.now, u.trades[KeyOf(m)]);
    IsFiled(s, u, m, e.now);
  }

  lemma IsFirst(s: State, a: nat, m: TradeMsg, e: Event)
    requires HandOf(s, a) == Free && Accepts(s, m) && KeyOf(m) !in s.trades && IsPersist(e, a, m)
    ensures FirstDelivery(s, e) && e.Persist? && e.msg == m
  {
    hide Accepts, HandOf;
  }

  lemma IsFiled(s: State, u: State, m: TradeMsg, now: int)
    requires ParentOf(m) in s.orders && KeyOf(m) in u.trades && KeyOf(m) !in s.trades
    requires u.trades.Keys == s.trades.Keys + {KeyOf(m)} && forall t :: t in s.trades ==> u.trades[t] == s.trades[t]
    requires Files(u.trades[KeyOf(m)], KeyOf(m), ParentOf(m), s.orders[ParentOf(m)], m, now)
    requires Unflagged(u.trades[KeyOf(m)])
    requires u.orders == s.orders[ParentOf(m) := s.orders[ParentOf(m)].(status := m.orderStatus,
               remaining := Max(s.orders[ParentOf(m)].remaining - Quantities.TakenBy(RawOf(m)), 0))]
    ensures Filed(s, u, m, now)
  {
    hide Files, Quantities.TakenBy, RawOf;
    assert u.trades == s.trades[KeyOf(m) := u.trades[KeyOf(m)]];
  }

  lemma NothingFiled(s: State, a: nat, m: TradeMsg, e: Event)
    requires HandOf(s, a) == Free && Accepts(s, m) && KeyOf(m) in s.trades && IsPersist(e, a, m)
    ensures Step(s, e).trades == s.trades && Step(s, e).orders == s.orders
  {
    hide PayFor, RowFor, Decrement, Fits;
  }

  lemma DeliveredHand(s: State, u: State, a: nat, m: TradeMsg, now: int)
    requires HandOf(s, a) == Free && Accepts(s, m) && KeyOf(m) !in s.trades && u == Step(s, Persist(a, m, now))
    ensures !HandOf(u, a).settled && KeyOf(m) in u.trades && u.trades == s.trades[KeyOf(m) := u.trades[KeyOf(m)]]
  {
    hide RowFor, PayFor, Decrement;
  }

  lemma SettledAfter(s: State, u: State, k: TradeKey, refusal: Option<string>)
    requires k in s.trades && k !in SettledKeys(s) && u.trades == s.trades[k := RowAfter(s.trades[k], refusal)]
    ensures SettledKeys(u) == SettledKeys(s) + (if refusal.None? then {k} else {})
  {
  }

  /** An actor told that a trade is settled holds a settled trade. */
  lemma HandTellsTruth(s: State, a: nat)
    requires Inv(s)
    ensures var h := HandOf(s, a); h.Stored? && h.settled ==> h.key in s.trades && s.trades[h.key].settled
  {
    hide OrdersOk, TradesOk, SinceOk, RemainingOk;
    if HandOf(s, a).Stored? { assert HandOk(s, HandOf(s, a)); }
  }

  lemma StillStored(s: State, u: State, k: TradeKey)
    requires Grows(s, u) && k in s.trades
    ensures k in u.trades && (s.trades[k].settled ==> u.trades[k].settled) && (s.trades[k].ack ==> u.trades[k].ack)
  {
  }

  lemma CallsStay(s: State, u: State)
    requires Grows(s, u)
    ensures forall c :: c in s.calls ==> c in u.calls
    ensures s.acks <= u.acks
  {
  }

  lemma Unpriced(s: State, m: TradeMsg)
    requires ParentOf(m) in s.orders ==> PayFor(s.orders[ParentOf(m)], m.filled, m.rate).None?
    ensures !Accepts(s, m)
  {
    hide PayFor, Decrement;
  }

  /** Between the lookup and the transaction the order stays, with the terms that were read. */
  lemma LookupStillGood(looked: State, s: State, m: TradeMsg, now: int)
    requires Grows(looked, s) && ParentOf(m) in looked.orders
    ensures ParentOf(m) in s.orders
    ensures var o, p := looked.orders[ParentOf(m)], s.orders[ParentOf(m)];
            p.side == o.side && RowFor(p, m, now) == RowFor(o, m, now) && RowFor(p, m, 0) == RowFor(o, m, 0)
            && PayFor(p, m.filled, m.rate) == PayFor(o, m.filled, m.rate)
  {
    RowForTerms(looked.orders[ParentOf(m)], s.orders[ParentOf(m)], m, now);
    RowForTerms(looked.orders[ParentOf(m)], s.orders[ParentOf(m)], m, 0);
    hide RowFor, PayFor;
  }

  lemma FailureSteps(s: State, a: nat, k: TradeKey, why: string)
    requires HandOf(s, a) == Refused(k, why) && k in s.trades
    ensures s.trades[k].attempts < MAX_ATTEMPTS ==>
              var u := Step(s, Event.RecordFailure(a));
              HandOf(u, a) == Free && u.calls == s.calls && u.trades == s.trades[k := RowAfter(s.trades[k], Some(why))]
    ensures s.trades[k].attempts >= MAX_ATTEMPTS ==> s.trades == s.trades[k := RowAfter(s.trades[k], Some(why))]
  {
  }

  lemma PricedOnce(o: OrderRow, m: TradeMsg, pay: Pay, now: int)
    requires PayFor(o, m.filled, m.rate) == Some(pay)
    ensures RowFor(o, m, now) == InsertedRow(o, m, pay, now) && RowFor(o, m, 0) == InsertedRow(o, m, pay, 0)
  {
    hide PayFor, InsertedRow;
  }

  lemma NotPriced(s: State, m: TradeMsg)
    requires ParentOf(m) in s.orders ==> RowFor(s.orders[ParentOf(m)], m, 0).None?
    ensures !Accepts(s, m)
  {
    hide RowFor, Decrement, Fits, RawOf;
  }

  lemma TooMuch(s: State, m: TradeMsg, left: int)
    requires ParentOf(m) in s.orders && KeyOf(m) !in s.trades
    requires left == Decrement(s.orders[ParentOf(m)].remaining, RawOf(m))
    ensures !Fits(left) ==> !Accepts(s, m)
  {
    hide RowFor, Decrement, Fits, RawOf;
  }

  /** The statements of a redelivery amount to the persist step. */
  lemma Recognised(s: State, a: nat, m: TradeMsg, now: int, pay: Pay)
    requires HandOf(s, a) == Free && KeyOf(m) in s.trades && ParentOf(m) in s.orders
    requires RowFor(s.orders[ParentOf(m)], m, 0).Some? && PayFor(s.orders[ParentOf(m)], m.filled, m.rate) == Some(pay)
    ensures Accepts(s, m)
    ensures Step(s, Persist(a, m, now)) == s.(hands := s.hands[a := Stored(KeyOf(m), s.trades[KeyOf(m)].settled, pay)])
  {
    hide RowFor, PayFor, Decrement, Fits, RawOf;
  }

  /** And so do those of a first delivery. */
  lemma FirstStored(s: State, a: nat, m: TradeMsg, now: int, pay: Pay, row: TradeRow, left: int)
    requires HandOf(s, a) == Free && KeyOf(m) !in s.trades && ParentOf(m) in s.orders
    requires RowFor(s.orders[ParentOf(m)], m, 0).Some? && RowFor(s.orders[ParentOf(m)], m, now) == Some(row)
    requires PayFor(s.orders[ParentOf(m)], m.filled, m.rate) == Some(pay)
    requires left == Decrement(s.orders[ParentOf(m)].remaining, RawOf(m)) && Fits(left)
    ensures Accepts(s, m)
    ensures var k, p := KeyOf(m), ParentOf(m);
            Step(s, Persist(a, m, now)) ==
              s.(trades := s.trades[k := row],
                  orders := s.orders[p := s.orders[p].(status := m.orderStatus, remaining := left)],
                 origin := s.origin[k := m],
                 since := s.since[p := (if p in s.since then s.since[p] else []) + [k]],
                 hands := s.hands[a := Stored(k, false, pay)])
  {
    hide RowFor, PayFor, Decrement, Fits, RawOf;
  }

  lemma DateIsFree(o: OrderRow, m: TradeMsg, pay: Pay, now: int)
    ensures InsertedRow(o, m, pay, now).Some? == InsertedRow(o, m, pay, 0).Some?
  {
    hide Parse, Numeric;
  }

  lemma RunOne(s: State, e: Event)
    ensures Run(s, [e]) == Step(s, e)
  {
    hide Step;
    assert [e][..|[e]| - 1] == [];
  }

  lemma Snoc(trace: seq<Event>, e: Event)
    ensures Protocol.After(trace + [e]) == Step(Protocol.After(trace), e)
  {
    RunConcat(Init(), trace, [e]);
    RunOne(Run(Init(), trace), e);
    hide Step, Run;
  }

  lemma Append(trace: seq<Event>, more: seq<Event>)
    ensures Protocol.After(trace + more) == Run(Protocol.After(trace), more)
  {
    RunConcat(Init(), trace, more);
    hide Run;
  }
}
