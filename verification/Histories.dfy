/**
A run as one of its actors lived it: its own events with the places they took in the run,
and the state each place found.
*/
module Histories {
  import opened Options
  import opened Store
  import opened Invariants
  import opened Ledger
  import Protocol

  function ActorOf(e: Event): Option<nat> {
    if OrderEvent(e) then None else Some(e.actor)
  }

  /** The events of `evs` that actor `a` does not take part in. */
  function Others(evs: seq<Event>, a: nat): (theirs: seq<Event>)
    ensures forall e :: e in theirs ==> ActorOf(e) != Some(a)
  {
    if evs == [] then [] else
    var rest := Others(evs[1..], a);
    if ActorOf(evs[0]) == Some(a) then rest else [evs[0]] + rest
  }

  // ---------------------------------------------------------------- places

  /** What the event in place `n` of a run finds; the end of the run for the last place of all. */
  ghost function StateAt(trace: seq<Event>, n: nat): State
    requires n <= |trace|
  {
    Protocol.After(trace[..n])
  }

  lemma StateNow(trace: seq<Event>)
    ensures StateAt(trace, |trace|) == Protocol.After(trace)
  {
    assert trace[..|trace|] == trace;
  }

  /** A place finds the same state however the run goes on. */
  lemma StateStays(trace: seq<Event>, longer: seq<Event>, n: nat)
    requires trace <= longer && n <= |trace|
    ensures StateAt(longer, n) == StateAt(trace, n)
  {
    assert longer[..n] == trace[..n];
  }

  lemma StateNext(trace: seq<Event>, n: nat)
    requires n < |trace|
    ensures StateAt(trace, n + 1) == Step(StateAt(trace, n), trace[n])
  {
    hide Step;
    assert trace[..n + 1][..n] == trace[..n];
  }

  lemma {:induction false} StatesGrow(trace: seq<Event>, i: nat, j: nat)
    requires i <= j <= |trace|
    ensures Inv(StateAt(trace, i)) && Inv(StateAt(trace, j)) && Grows(StateAt(trace, i), StateAt(trace, j))
    decreases j
  {
    hide Step, Inv, Grows, Protocol.After;
    Protocol.Reachable(trace[..i]);
    Protocol.Reachable(trace[..j]);
    if i == j {
      GrowsRefl(StateAt(trace, i));
    } else {
      StatesGrow(trace, i, j - 1);
      StateNext(trace, j - 1);
      StepInv(StateAt(trace, j - 1), trace[j - 1]);
      GrowsTrans(StateAt(trace, i), StateAt(trace, j - 1), StateAt(trace, j));
    }
  }

  // ---------------------------------------------------------------- first deliveries

  /** The event in place `j` first delivers trade `k`. */
  ghost predicate StoresAt(trace: seq<Event>, j: nat, k: TradeKey)
    requires j < |trace|
  {
    trace[j].Persist? && KeyOf(trace[j].msg) == k && FirstDelivery(StateAt(trace, j), trace[j])
  }

  /** The row of trade `t` is the one that the event in place `j`, its first delivery, filed under its parent order. */
  ghost predicate FiledAt(s: State, trace: seq<Event>, j: nat, t: TradeKey)
    requires j < |trace|
  {
    && StoresAt(trace, j, t)
    && var m, p := trace[j].msg, ParentOf(trace[j].msg);
       t in s.trades && p in s.orders && Files(s.trades[t], t, p, s.orders[p], m, trace[j].now)
  }

  /** After any run every row of the table still says what its first delivery, and the parent order, said. */
  lemma {:induction false} RowsAreFiled(trace: seq<Event>, t: TradeKey)
    requires t in Protocol.After(trace).trades
    ensures exists j :: 0 <= j < |trace| && FiledAt(Protocol.After(trace), trace, j, t)
  {
    hide *;
    if trace == [] {
      EmptyAtFirst();
    } else {
      var n := |trace| - 1;
      var front, e := trace[..n], trace[n];
      var s, u := StateAt(trace, n), Protocol.After(trace);
      StatesGrow(trace, n, n + 1);
      StateNext(trace, n);
      StateNow(trace);
      BeforeLast(trace);
      TradesAfter(s, e);
      if t in s.trades {
        RowsAreFiled(front, t);
        var j :| 0 <= j < n && FiledAt(s, front, j, t);
        StillFiled(s, u, front, trace, j, t);
      } else {
        FirstIsPersist(s, e);
        NowFiled(trace, n, t);
      }
    }
  }

  lemma EmptyAtFirst()
    ensures Protocol.After([]).trades == map[]
  {
  }

  lemma BeforeLast(trace: seq<Event>)
    requires trace != []
    ensures StateAt(trace, |trace| - 1) == Protocol.After(trace[..|trace| - 1])
  {
  }

  lemma NowFiled(trace: seq<Event>, n: nat, t: TradeKey)
    requires n < |trace| && FirstDelivery(StateAt(trace, n), trace[n]) && Inv(StateAt(trace, n))
    requires trace[n].Persist? && t == KeyOf(trace[n].msg)
    ensures FiledAt(Step(StateAt(trace, n), trace[n]), trace, n, t)
  {
    InvParts(StateAt(trace, n));
    DeliveryFiles(StateAt(trace, n), trace[n]);
    hide Step, Inv, Files, StateAt, OrdersOk, FirstDelivery;
  }

  lemma StillFiled(s: State, u: State, trace: seq<Event>, longer: seq<Event>, j: nat, t: TradeKey)
    requires Grows(s, u) && j < |trace| && trace <= longer && FiledAt(s, trace, j, t)
    ensures FiledAt(u, longer, j, t)
  {
    StateStays(trace, longer, j);
    FilesKept(s, u, t, ParentOf(trace[j].msg), trace[j].msg, trace[j].now);
    hide Grows, Files, StateAt, FirstDelivery;
  }

  // ---------------------------------------------------------------- own events

  /** An event and its place. */
  datatype Act = Act(at: nat, e: Event)

  /** The events of actor `a` over a run, in order. */
  function Acts(trace: seq<Event>, a: nat): seq<Act> {
    if trace == [] then [] else
    var n := |trace| - 1;
    Acts(trace[..n], a) + (if ActorOf(trace[n]) == Some(a) then [Act(n, trace[n])] else [])
  }

  lemma ActsOne(trace: seq<Event>, e: Event, a: nat)
    ensures Acts(trace + [e], a) == Acts(trace, a) + (if ActorOf(e) == Some(a) then [Act(|trace|, e)] else [])
  {
    assert (trace + [e])[..|trace|] == trace;
  }

  lemma {:induction false} OthersAddNone(trace: seq<Event>, theirs: seq<Event>, a: nat)
    requires forall e :: e in theirs ==> ActorOf(e) != Some(a)
    ensures Acts(trace + theirs, a) == Acts(trace, a)
  {
    hide ActorOf;
    if theirs == [] {
      assert trace + theirs == trace;
    } else {
      var front, e := theirs[..|theirs| - 1], theirs[|theirs| - 1];
      assert trace + theirs == (trace + front) + [e] && e in theirs;
      OthersAddNone(trace, front, a);
      ActsOne(trace + front, e, a);
    }
  }

  /** The list holds exactly the actor's events, each with its place, in order. */
  lemma {:induction false} ActsAre(trace: seq<Event>, a: nat)
    ensures forall x :: x in Acts(trace, a) ==> x.at < |trace| && trace[x.at] == x.e && ActorOf(x.e) == Some(a)
    ensures forall j :: 0 <= j < |trace| && ActorOf(trace[j]) == Some(a) ==> Act(j, trace[j]) in Acts(trace, a)
    ensures forall i, j :: 0 <= i < j < |Acts(trace, a)| ==> Acts(trace, a)[i].at < Acts(trace, a)[j].at
  {
    hide ActorOf;
    if trace != [] {
      var n := |trace| - 1;
      var front := trace[..n];
      ActsAre(front, a);
      assert trace == front + [trace[n]];
      forall j | 0 <= j < |trace| && ActorOf(trace[j]) == Some(a) ensures Act(j, trace[j]) in Acts(trace, a) {
        if j < n { assert front[j] == trace[j]; }
      }
      forall i, j | 0 <= i < j < |Acts(trace, a)| ensures Acts(trace, a)[i].at < Acts(trace, a)[j].at {
        assert Acts(trace, a)[i] == Acts(front, a)[i] && Acts(front, a)[i] in Acts(front, a);
        if j < |Acts(front, a)| { assert Acts(trace, a)[j] == Acts(front, a)[j]; }
      }
    }
  }

  /** The actor's events from a place on are those it did not have there yet. */
  lemma {:induction false} ActsSince(trace: seq<Event>, n: nat, a: nat)
    requires n <= |trace|
    ensures Acts(trace[..n], a) <= Acts(trace, a)
    ensures forall x :: x in Acts(trace, a)[|Acts(trace[..n], a)|..] <==> x in Acts(trace, a) && x.at >= n
  {
    hide ActorOf;
    ActsAre(trace, a);
    if n == |trace| {
      assert trace[..n] == trace;
    } else {
      var last := |trace| - 1;
      var front := trace[..last];
      assert front[..n] == trace[..n];
      ActsSince(front, n, a);
      var before, all, less := Acts(trace[..n], a), Acts(trace, a), Acts(front, a);
      var tail := if ActorOf(trace[last]) == Some(a) then [Act(last, trace[last])] else [];
      assert all == less + tail;
      assert all[|before|..] == less[|before|..] + tail;
    }
  }
}
