/**
The trade subscription over any number of reconnects: SubscribeTrades of go/v1/trade.go.
*/
module Subscriptions {
  import opened Store
  import opened Invariants
  import opened Backoff
  import opened Pulls
  import opened Histories
  import opened Clients

  /**
  One stream from open to end: whether the server accepted it, what it delivered, the
  error it ended with, and whether the context ended with it or during the wait after it.
  */
  datatype Session = Session(accepted: bool, inbox: seq<TradeMsg>, end: CallError, cancelled: bool,
      cancelledWaiting: bool)

  datatype Ending = StillRunning | ContextEnded | StreamFailed(error: CallError)

  /** Reconnect counter when session `i` has ended: failed opens since the last accepted one. */
  function FailedOpens(sessions: seq<Session>, i: nat): nat
    requires i < |sessions|
  {
    if sessions[i].accepted || i == 0 then 0 else FailedOpens(sessions, i - 1) + 1
  }

  /** Everything delivered, over all accepted sessions. */
  function Inboxes(sessions: seq<Session>): seq<TradeMsg> {
    if sessions == [] then [] else
    var s := sessions[|sessions| - 1];
    Inboxes(sessions[..|sessions| - 1]) + (if s.accepted then s.inbox else [])
  }

  /**
  Each wait is the backoff of its counter, between half the cap and the cap for delays whose
  doubling stays within 64 bits.
  */
  predicate Paced(sessions: seq<Session>, waits: seq<int>, base: int, max: int) {
    && |waits| <= |sessions|
    && (forall i :: 0 <= i < |waits| ==> Waits(waits[i], FailedOpens(sessions, i), base, max))
    && (0 <= base && 0 <= max <= TWO62 ==>
          forall i :: 0 <= i < |waits| ==>
            Cap(FailedOpens(sessions, i), base, max) / 2 <= waits[i] <= Cap(FailedOpens(sessions, i), base, max))
  }

  lemma PacedMore(sessions: seq<Session>, waits: seq<int>, base: int, max: int, delay: int)
    requires Paced(sessions, waits, base, max) && |waits| < |sessions|
    requires 0 <= base && 0 <= max <= TWO62 ==>
              var cap := Cap(FailedOpens(sessions, |waits|), base, max); cap / 2 <= delay <= cap
    requires Waits(delay, FailedOpens(sessions, |waits|), base, max)
    ensures Paced(sessions, waits + [delay], base, max)
  {
    hide Cap, FailedOpens, Waits;
  }

  predicate GoesOn(s: Session) { !s.cancelled && StreamRetryable(s.end) && !s.cancelledWaiting }

  /**
  SubscribeTrades: reconnects after every retryable end, waiting a backoff that starts
  over once a stream is accepted. However the Core spreads, repeats and redelivers trades
  over the streams, without failing statements every trade that can be stored ends up
  handled; undisturbed, the tables hold what one pull of everything delivered would leave.
  */
  method SubscribeTrades(c: Client, sessions: seq<Session>, handler: Handler, base: int, max: int)
    returns (ending: Ending, used: nat, waits: seq<int>)
    requires c.Valid() && c.Idle() && Int64(base) && Int64(max)
    modifies c`st, c`trace
    ensures c.Onward() && c.Idle()
    ensures used <= |sessions| && forall i :: 0 <= i < used - 1 ==> GoesOn(sessions[i])
    ensures match ending
            case StillRunning =>
              used == |sessions| && |waits| == used && forall i :: 0 <= i < used ==> GoesOn(sessions[i])
            case ContextEnded => 0 < used && (sessions[used - 1].cancelled || sessions[used - 1].cancelledWaiting)
            case StreamFailed(e) =>
              0 < used && e == sessions[used - 1].end && !StreamRetryable(e) && !sessions[used - 1].cancelled
    ensures Paced(sessions, waits, base, max)
    ensures !c.faulty ==> AllDone(old(c.st), c.st, Inboxes(sessions[..used]), handler, true)
    ensures c.Calm() ==> Taken(old(c.st), c.st, Inboxes(sessions[..used]))
  {
    hide Grows, HandOf, Cap, Inv, Taken, Inboxes, AllDone, StreamRetryable, FailedOpens, Paced, Waits, Flat, Acts,
         RoundsAre;
    ghost var start := c.st;
    GrowsRefl(start);
    NothingTaken(start);
    NoneDone(start, handler, true);
    NoInboxes();
    PacedNone(sessions, base, max);
    var attempt := 0;
    ending, used, waits := StillRunning, 0, [];
    while used < |sessions|
      invariant c.Onward() && c.Idle() && used <= |sessions| && |waits| == used
      invariant attempt == if used == 0 then 0 else FailedOpens(sessions, used - 1) + 1
      invariant forall i :: 0 <= i < used ==> GoesOn(sessions[i])
      invariant Paced(sessions, waits, base, max)
      invariant !c.faulty ==> AllDone(start, c.st, Inboxes(sessions[..used]), handler, true)
      invariant c.Calm() ==> Taken(start, c.st, Inboxes(sessions[..used]))
    {
      ghost var before := c.st;
      var s := sessions[used];
      FailedOpensAt(sessions, used);
      ghost var rounds;
      attempt, rounds := c.RunTradeStream(s.accepted, s.inbox, handler, attempt);
      assert sessions[..used + 1][..used] == sessions[..used];
      if !c.faulty { SessionHandled(start, before, c.st, sessions[..used + 1], handler); }
      if c.Calm() { SessionJoined(start, before, c.st, sessions[..used + 1]); }
      GrowsTrans(start, before, c.st);
      used := used + 1;
      if s.cancelled { ending := ContextEnded; return; }
      if !StreamRetryable(s.end) { ending := StreamFailed(s.end); return; }
      var delay := BackoffDelay(attempt, base, max);
      PacedMore(sessions, waits, base, max, delay);
      waits := waits + [delay];
      attempt := attempt + 1;
      if s.cancelledWaiting { ending := ContextEnded; return; }
    }
  }

  lemma FailedOpensAt(sessions: seq<Session>, i: nat)
    requires i < |sessions|
    ensures FailedOpens(sessions, i) == if sessions[i].accepted || i == 0 then 0 else FailedOpens(sessions, i - 1) + 1
  {
  }

  lemma PacedNone(sessions: seq<Session>, base: int, max: int)
    ensures Paced(sessions, [], base, max)
  {
  }

  lemma NoInboxes()
    ensures Inboxes([]) == []
  {
  }

  lemma SessionJoined(s: State, u: State, v: State, sessions: seq<Session>)
    requires sessions != [] && Taken(s, u, Inboxes(sessions[..|sessions| - 1]))
    requires var last := sessions[|sessions| - 1]; if last.accepted then Taken(u, v, last.inbox) else v == u
    ensures Taken(s, v, Inboxes(sessions))
  {
    var front, last := Inboxes(sessions[..|sessions| - 1]), sessions[|sessions| - 1];
    hide Taken;
    if last.accepted { TakenThen(s, u, v, front, last.inbox); } else { assert Inboxes(sessions) == front; }
  }

  lemma SessionHandled(s: State, u: State, v: State, sessions: seq<Session>, handler: Handler)
    requires sessions != [] && Grows(s, u) && Grows(u, v)
    requires AllDone(s, u, Inboxes(sessions[..|sessions| - 1]), handler, true)
    requires var last := sessions[|sessions| - 1]; if last.accepted then AllDone(u, v, last.inbox, handler, true)
        else v == u
    ensures AllDone(s, v, Inboxes(sessions), handler, true)
  {
    var front, last := Inboxes(sessions[..|sessions| - 1]), sessions[|sessions| - 1];
    hide AllDone, Grows;
    if last.accepted { DoneJoin(s, u, v, front, last.inbox, handler, true); }
        else { assert Inboxes(sessions) == front; }
  }
}
