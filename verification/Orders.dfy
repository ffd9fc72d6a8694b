/**
The order-row writes of go/v1/order.go: SubmitOrder, CancelOrder and the order event
stream.
*/
module Orders {
  import opened Options
  import opened Errors
  import opened Decimals
  import opened Clock
  import opened Store
  import opened Invariants
  import opened Submits
  import opened Clients
  import Slots

  // ---------------------------------------------------------------- SubmitOrder

  const ANY := 0
  const RETAIL := 1
  const TREASURY := 3
  const LIMIT := 1
  const MARKET := 2

  datatype SubmitParams = SubmitParams(
    side: int, segment: int, partner: string, client: string, pair: string, quantity: string, limitRate: string,
    minQuantity: string, account: Option<string>, fee: FeeColumn, orderType: int, counterparty: int)

  /** A checked submit: what is stored, and the smallest trade asked for, in millionths. */
  datatype Ticket = Ticket(draft: Draft, minQuantity: Option<int>)

  /** A six-place decimal in millionths, or the error of checkDecimal. */
  function ExactMillionths(text: string): Result<int, SdkError> {
    match CheckDecimal(text) case Ok(d) => Ok(d / MICRO) case Err(_) => Err(BadDecimal)
  }

  /** Parameter checks and decimal checks, in the order the source makes them. */
  function Checked(p: Option<SubmitParams>): Result<Ticket, SdkError> {
    if p.None? || p.value.client == "" then Err(ClientIDRequired) else
    var p := p.value;
    if p.partner == "" then Err(PartnerIDRequired) else
    if p.segment < RETAIL || p.segment > TREASURY then Err(SegmentRequired) else
    var orderType := if p.orderType == 0 then LIMIT else p.orderType;
    if orderType != LIMIT && orderType != MARKET then Err(InvalidOrderType) else
    if orderType == LIMIT && p.limitRate == "" then Err(LimitRateRequired) else
    if p.counterparty != ANY && p.counterparty != TREASURY then Err(InvalidCounterpartySegment) else
    if p.counterparty == TREASURY && p.segment != TREASURY then Err(TreasuryCounterpartyOnly) else
    match ExactMillionths(p.quantity)
    case Err(e) => Err(e)
    case Ok(quantity) =>
      match (if orderType == MARKET then Ok(0) else ExactMillionths(p.limitRate))
      case Err(e) => Err(e)
      case Ok(rate) =>
        match (if p.minQuantity == "" || orderType == MARKET then Ok(0) else ExactMillionths(p.minQuantity))
        case Err(e) => Err(e)
        case Ok(least) =>
          Ok(Ticket(Draft(p.partner, p.client, p.side, p.pair, orderType, quantity,
                          if orderType == MARKET then None else Some(rate), p.account, p.fee),
                    if p.minQuantity == "" || orderType == MARKET then None else Some(least)))
  }

  /**
  A submit passes its checks exactly when nothing required is missing (segments run from 1
  to 3, treasury; order types are 1, limit, and 2, market) and every decimal
  that will be stored is one that storage keeps; what is stored then is the caller's own
  value, unrounded.
  */
  lemma CheckedIff(p: SubmitParams)
    ensures Checked(Some(p)).Ok? <==>
              p.client != "" && p.partner != "" && 1 <= p.segment <= 3 && 0 <= p.orderType <= 2
              && (p.counterparty == 0 || (p.counterparty == 3 && p.segment == 3))
              && CheckDecimal(p.quantity).Ok?
              && (p.orderType != 2 ==>
                    p.limitRate != "" && CheckDecimal(p.limitRate).Ok?
                        && (p.minQuantity != "" ==> CheckDecimal(p.minQuantity).Ok?))
    ensures Checked(Some(p)).Ok? ==>
              var t := Checked(Some(p)).value;
              (forall at :: Holds(RowOfDraft(t.draft, at), p, at))
              && (t.minQuantity.Some? <==> p.orderType != MARKET && p.minQuantity != "")
              && (t.minQuantity.Some? ==> Parse(p.minQuantity) == Some(t.minQuantity.value * MICRO))
  {
    hide Parse;
    ExactMillionthsRead(p.quantity);
    ExactMillionthsRead(p.limitRate);
    ExactMillionthsRead(p.minQuantity);
    hide ExactMillionths, CheckDecimal;
  }

  /** The columns that nothing rewrites hold what the caller submitted, decimals unrounded. */
  predicate Holds(o: OrderRow, p: SubmitParams, at: int) {
    && o.submittedAt == at && o.partner == p.partner && o.client == p.client && o.side == p.side && o.pair == p.pair
    && o.orderType == (if p.orderType == 0 then LIMIT else p.orderType)
    && o.account == p.account && o.fee == p.fee
    && Parse(p.quantity) == Some(o.quantity * MICRO)
    && match o.limitRate case None => p.orderType == MARKET
       case Some(rate) => p.orderType != MARKET && Parse(p.limitRate) == Some(rate * MICRO)
  }

  /** Each error names a check that fails. */
  lemma ErrorsAreTrue(p: SubmitParams)
    ensures Checked(Some(p)).Err? ==>
              match Checked(Some(p)).error
              case ClientIDRequired => p.client == ""
              case PartnerIDRequired => p.partner == ""
              case SegmentRequired => !(RETAIL <= p.segment <= TREASURY)
              case InvalidOrderType => p.orderType !in {0, LIMIT, MARKET}
              case LimitRateRequired => p.orderType in {0, LIMIT} && p.limitRate == ""
              case InvalidCounterpartySegment => p.counterparty !in {ANY, TREASURY}
              case TreasuryCounterpartyOnly => p.counterparty == TREASURY != p.segment
              case BadDecimal =>
                CheckDecimal(p.quantity).Err?
                || (p.orderType != MARKET && (CheckDecimal(p.limitRate).Err?
                        || (p.minQuantity != "" && CheckDecimal(p.minQuantity).Err?)))
              case _ => false
  {
    hide CheckDecimal;
  }

  /** Every decimal that is stored fits its column. */
  predicate ColumnsTake(p: SubmitParams) {
    && Parse(p.quantity).Some? && InRange(Parse(p.quantity).value)
    && (p.orderType != MARKET ==>
          Parse(p.limitRate).Some? && InRange(Parse(p.limitRate).value)
          && (p.minQuantity != "" ==> Parse(p.minQuantity).Some? && InRange(Parse(p.minQuantity).value)))
  }

  /** An order of the day, less than a minute old, that holds what is submitted now, account and fee aside. */
  ghost predicate Repeats(orders: map<OrderKey, OrderRow>, p: SubmitParams, now: int) {
    exists k :: k in orders && k.day == LocalDay(now) && now - orders[k].submittedAt < 60_000_000
                && Holds(orders[k].(account := p.account, fee := p.fee), p, orders[k].submittedAt)
  }

  lemma ExactFits(u: int)
    ensures InRange(u * MICRO) <==> Fits(u)
  {
  }

  lemma TicketTaken(p: SubmitParams)
    requires Checked(Some(p)).Ok?
    ensures TicketFits(Checked(Some(p)).value) <==> ColumnsTake(p)
  {
    CheckedIff(p);
    var t := Checked(Some(p)).value;
    ExactFits(t.draft.quantity);
    if t.draft.limitRate.Some? { ExactFits(t.draft.limitRate.value); }
    if t.minQuantity.Some? { ExactFits(t.minQuantity.value); }
    assert Holds(RowOfDraft(t.draft, 0), p, 0);
    hide Parse, Checked, InRange, Fits, CheckDecimal;
  }

  lemma SameAsSubmitted(o: OrderRow, p: SubmitParams)
    requires Checked(Some(p)).Ok?
    ensures SameTicket(o, Checked(Some(p)).value.draft) <==>
              Holds(o.(account := p.account, fee := p.fee), p, o.submittedAt)
  {
    CheckedIff(p);
    var d := Checked(Some(p)).value.draft;
    assert Holds(RowOfDraft(d, 0), p, 0);
    hide Parse, Checked, CheckDecimal;
    SameOrElse(o, p, d);
  }

  /** What two drafts of one submit hold is the same. */
  lemma SameOrElse(o: OrderRow, p: SubmitParams, d: Draft)
    requires Holds(RowOfDraft(d, 0), p, 0)
    ensures SameTicket(o, d) <==> Holds(o.(account := p.account, fee := p.fee), p, o.submittedAt)
  {
    hide Parse;
  }

  /** The probe finds exactly such an order. */
  lemma RecentTwinIs(orders: map<OrderKey, OrderRow>, p: SubmitParams, now: int)
    requires Checked(Some(p)).Ok?
    ensures RecentTwin(orders, Checked(Some(p)).value.draft, now) <==> Repeats(orders, p, now)
  {
    forall o { SameAsSubmitted(o, p); }
    hide Checked, SameTicket, Holds, LocalDay;
  }

  lemma ExactMillionthsRead(text: string)
    ensures ExactMillionths(text).Ok? <==> CheckDecimal(text).Ok?
    ensures ExactMillionths(text).Ok? ==> Parse(text) == Some(ExactMillionths(text).value * MICRO)
  {
    hide Parse;
    if CheckDecimal(text).Ok? { StorageIsExactOnSixPlaces(CheckDecimal(text).value); }
  }

  datatype SubmitRequest = SubmitRequest(ref: int, day: int, params: SubmitParams)

  datatype SubmitReply = SubmitReply(status: int, orderId: int)

  datatype SubmitResult = SubmitResult(ref: int, day: int, status: int, orderId: int)

  predicate TicketFits(t: Ticket) { Insertable(t.draft) && (t.minQuantity.Some? ==> Fits(t.minQuantity.value)) }

  /** How the local half of a submit ended on an undisturbed database. */
  ghost predicate Placed(s: State, u: State, t: Ticket, r: Result<OrderKey, SdkError>, probe: int, at: int) {
    if RecentTwin(s.orders, t.draft, probe) then r == Err(DuplicateOrder) && u == s
    else if !TicketFits(t) then r == Err(DatabaseFailed) && u == s
    else r == Ok(OrderKey(LocalDay(at), s.nextRef)) && u == Step(s, Insert(t.draft, at))
  }

  lemma SerialMore(trace: seq<Event>, e: Event)
    requires Serial(trace) && Probed(Protocol.After(trace), e)
    ensures Serial(trace + [e])
  {
    hide Probed;
    assert Protocol.Front(trace + [e]) == trace && Protocol.Last(trace + [e]) == e;
  }

  lemma InsertProbed(s: State, d: Draft, probe: int, at: int)
    requires s.clock <= probe <= at && !RecentTwin(s.orders, d, probe)
    ensures Probed(s, Insert(d, at))
  {
    hide RecentTwin;
  }

  lemma OtherProbed(s: State, e: Event)
    requires !e.Insert?
    ensures Probed(s, e)
  {
  }

  /** The duplicate probe and the insert, two statements; the database picks the reference and the day. */
  method Place(c: Client, t: Ticket) returns (r: Result<OrderKey, SdkError>, ghost probe: int, ghost at: int)
    requires c.Valid()
    modifies c`st, c`trace
    ensures c.Onward() && HandOf(c.st, c.me) == old(HandOf(c.st, c.me))
    ensures r.Ok? ==>
              r.value !in old(c.st).orders && r.value in c.st.orders
                  && SameTerms(c.st.orders[r.value], RowOfDraft(t.draft, at))
    ensures !c.shared && Serial(old(c.trace)) ==> Serial(c.trace)
    ensures c.Calm() ==> old(c.st).clock <= probe <= at && Placed(old(c.st), c.st, t, r, probe, at)
  {
    hide Grows, Inv, Serial, RecentTwin, Fits, LocalDay, Probed;
    ghost var start, trace := c.st, c.trace;
    c.Interfere();
    var now: int :| c.st.clock <= now;
    probe, at := now, now;
    var failed := c.Fails();
    if failed { return Err(DatabaseFailed), now, now; }
    if RecentTwin(c.st.orders, t.draft, now) { return Err(DuplicateOrder), now, now; }
    ghost var probed := c.st;
    c.Interfere();
    GrowsTrans(start, probed, c.st);
    ghost var inserting := c.st;
    var later: int :| now <= later;
    at := later;
    failed := c.Fails();
    if failed || !TicketFits(t) { return Err(DatabaseFailed), now, later; }
    var k := OrderKey(LocalDay(later), c.st.nextRef);
    c.Standing();
    NewReference(start, inserting, k);
    if !c.shared {
      InsertProbed(inserting, t.draft, now, later);
      if Serial(trace) { SerialMore(trace, Insert(t.draft, later)); }
    }
    c.Do(Insert(t.draft, later));
    GrowsTrans(start, inserting, c.st);
    r := Ok(k);
  }

  lemma NewReference(s: State, u: State, k: OrderKey)
    requires Inv(u) && Grows(s, u) && k.ref == u.nextRef
    ensures k !in s.orders && k !in u.orders
  {
    hide TradesOk, RemainingOk, SinceOk, FlagsOk, SameFill;
  }

  /** What the Core's answer to a submit makes of the order's row. Unknown is 0, pending 1 and duplicate 10. */
  predicate Reflects(o: OrderRow, p: OrderRow, status: int, orderId: int) {
    && SameTerms(o, p) && p.remaining == o.remaining
    && (status == 0 || status == 10 ==> p == o)
    && (status == 1 ==> p.status == o.status && p.orderId == if orderId == 0 then o.orderId else Some(orderId))
    && (status != 0 && status != 1 && status != 10 ==>
          p.status == status && p.orderId == if orderId == 0 then None else Some(orderId))
  }

  /** Only the named order is written, and only in its status and the Core's id. */
  predicate Reflected(s: State, u: State, k: OrderKey, status: int, orderId: int) {
    && u.orders.Keys == s.orders.Keys && u == s.(orders := u.orders)
    && (forall j :: j in s.orders && j != k ==> u.orders[j] == s.orders[j])
    && (k in s.orders ==> Reflects(s.orders[k], u.orders[k], status, orderId))
  }

  /** The reply, in any state: whatever has moved the order on meanwhile stays. */
  lemma ReplyReflects(s: State, k: OrderKey, status: int, orderId: int)
    ensures Reflected(s, Step(s, Reply(k, status, orderId)), k, status, orderId)
  {
  }

  /**
  What a submit that reached the Core leaves: one more order, filed under a new reference,
  holding what was submitted, open in full, with the Core's answer reflected.
  */
  predicate Submitted(s: State, u: State, k: OrderKey, p: SubmitParams, at: int, reply: Option<SubmitReply>) {
    && k == OrderKey(LocalDay(at), s.nextRef) && k !in s.orders && u.orders.Keys == s.orders.Keys + {k}
    && (forall j :: j in s.orders ==> u.orders[j] == s.orders[j]) && u.trades == s.trades
    && var o := u.orders[k];
       Holds(o, p, at) && o.remaining == o.quantity
       && match reply case None => o.status == 1 && o.orderId == None
          case Some(a) => Reflects(o.(status := 1, orderId := None), o, a.status, a.orderId)
  }

  lemma InsertSubmits(s: State, p: SubmitParams, at: int)
    requires OrdersOk(s) && Checked(Some(p)).Ok? && TicketFits(Checked(Some(p)).value)
    ensures Submitted(s, Step(s, Insert(Checked(Some(p)).value.draft, at)), OrderKey(LocalDay(at), s.nextRef), p, at,
                      None)
  {
    CheckedIff(p);
    assert OrderKey(LocalDay(at), s.nextRef) !in s.orders;
    assert Holds(RowOfDraft(Checked(Some(p)).value.draft, at), p, at);
    hide Checked, LocalDay, Holds, Fits, OrdersOk, CheckDecimal;
  }

  lemma ReplySubmits(s: State, u: State, k: OrderKey, p: SubmitParams, at: int, a: SubmitReply)
    requires Submitted(s, u, k, p, at, None)
    ensures Submitted(s, Step(u, Reply(k, a.status, a.orderId)), k, p, at, Some(a))
  {
    ReplyReflects(u, k, a.status, a.orderId);
    hide Step, LocalDay, Parse;
  }

  /** Reflects the Core's answer in the order row; a failing statement is logged and forgotten. */
  method Reflect(c: Client, k: OrderKey, reply: SubmitReply)
    requires c.Valid()
    modifies c`st, c`trace
    ensures c.Onward() && HandOf(c.st, c.me) == old(HandOf(c.st, c.me))
    ensures !c.shared && Serial(old(c.trace)) ==> Serial(c.trace)
    ensures c.Calm() ==> c.st == Step(old(c.st), Reply(k, reply.status, reply.orderId))
  {
    hide Grows, Serial, Probed;
    ghost var start := c.st;
    c.Interfere();
    ghost var before := c.st;
    OtherProbed(before, Reply(k, reply.status, reply.orderId));
    if Serial(c.trace) { SerialMore(c.trace, Reply(k, reply.status, reply.orderId)); }
    var failed := c.Fails();
    if failed { return; }
    c.Do(Reply(k, reply.status, reply.orderId));
    GrowsTrans(start, before, c.st);
  }

  /**
  SubmitOrder: check, probe for a recent equal order, insert, ask the Core, reflect its
  answer. Alone on the database it runs from probe to insert undisturbed, so the run stays
  serial; a stored order is filed under a reference no order had before.
  */
  method SubmitOrder(c: Client, p: Option<SubmitParams>, core: SubmitRequest -> Option<SubmitReply>)
    returns (r: Result<SubmitResult, SdkError>, ghost placed: Result<OrderKey, SdkError>, ghost probe: int,
        ghost at: int)
    requires c.Valid()
    modifies c`st, c`trace
    ensures c.Onward() && HandOf(c.st, c.me) == old(HandOf(c.st, c.me))
    ensures Checked(p).Err? ==> r == Err(Checked(p).error) && c.st == old(c.st)
    ensures !c.shared && Serial(old(c.trace)) ==> Serial(c.trace)
    ensures Checked(p).Ok? && placed.Err? ==> r == Err(placed.error)
    ensures Checked(p).Ok? && placed.Ok? ==>
              placed.value !in old(c.st).orders && placed.value in c.st.orders
              && SameTerms(c.st.orders[placed.value], RowOfDraft(Checked(p).value.draft, at))
              && Holds(c.st.orders[placed.value], p.value, at)
              && r == match core(SubmitRequest(placed.value.ref, placed.value.day, p.value))
                      case None => Err(CoreFailed)
                      case Some(a) => Ok(SubmitResult(placed.value.ref, placed.value.day, a.status, a.orderId))
    ensures c.Calm() && Checked(p).Ok? ==>
              old(c.st).clock <= probe <= at
              && if Repeats(old(c.st).orders, p.value, probe) then placed == Err(DuplicateOrder) && c.st == old(c.st)
                 else if !ColumnsTake(p.value) then placed == Err(DatabaseFailed) && c.st == old(c.st)
                 else placed.Ok? && Submitted(old(c.st), c.st, placed.value, p.value, at,
                                              core(SubmitRequest(placed.value.ref, placed.value.day, p.value)))
  {
    hide Grows, Checked, Serial, Placed, SameTerms, HandOf, Step, RowOfDraft, Holds, Repeats, ColumnsTake, Submitted,
         RecentTwin, TicketFits;
    ghost var start, trace := c.st, c.trace;
    GrowsRefl(start);
    placed, probe, at := Err(DatabaseFailed), 0, 0;
    var checked := Checked(p);
    if checked.Err? { r := Err(checked.error); return; }
    ghost var when, then';
    var key;
    PresentParams(p);
    key, when, then' := Place(c, checked.value);
    placed, probe, at := key, when, then';
    if c.Calm() { PlacedAsAsked(start, c.st, p.value, key, when, then', trace); }
    if key.Err? { r := Err(key.error); return; }
    r := Err(CoreFailed);
    HeldTerms(p.value, at, c.st.orders[key.value]);
    var k := key.value;
    var reply := core(SubmitRequest(k.ref, k.day, p.value));
    if reply.None? { return; }
    ghost var sent := c.st;
    Reflect(c, k, reply.value);
    GrowsTrans(start, sent, c.st);
    TermsKept(sent, c.st, k, RowOfDraft(checked.value.draft, at));
    HeldTerms(p.value, at, c.st.orders[k]);
    if c.Calm() { ReplySubmits(start, sent, k, p.value, at, reply.value); }
    r := Ok(SubmitResult(k.ref, k.day, reply.value.status, reply.value.orderId));
  }

  lemma PresentParams(p: Option<SubmitParams>)
    requires Checked(p).Ok?
    ensures p.Some?
  {
  }

  /** What the probe and the insert make of a checked submit, in the caller's terms. */
  lemma PlacedAsAsked(s: State, u: State, p: SubmitParams, r: Result<OrderKey, SdkError>, probe: int, at: int,
                      trace: seq<Event>)
    requires s == Protocol.After(trace) && Checked(Some(p)).Ok? && Placed(s, u, Checked(Some(p)).value, r, probe, at)
    ensures if Repeats(s.orders, p, probe) then r == Err(DuplicateOrder) && u == s
            else if !ColumnsTake(p) then r == Err(DatabaseFailed) && u == s
            else r.Ok? && Submitted(s, u, r.value, p, at, None)
  {
    RecentTwinIs(s.orders, p, probe);
    TicketTaken(p);
    Protocol.Reachable(trace);
    InvParts(s);
    hide Inv, OrdersOk, TradesOk, SinceOk, RemainingOk, FlagsOk, Checked, RecentTwin, Repeats, ColumnsTake, Submitted,
         TicketFits, Step;
    if TicketFits(Checked(Some(p)).value) { InsertSubmits(s, p, at); }
  }

  lemma HeldTerms(p: SubmitParams, at: int, o: OrderRow)
    requires Checked(Some(p)).Ok? && SameTerms(o, RowOfDraft(Checked(Some(p)).value.draft, at))
    ensures Holds(o, p, at)
  {
    CheckedIff(p);
    assert Holds(RowOfDraft(Checked(Some(p)).value.draft, at), p, at);
    hide Checked, Parse, CheckDecimal;
  }

  lemma TermsKept(s: State, u: State, k: OrderKey, row: OrderRow)
    requires Grows(s, u) && k in s.orders && SameTerms(s.orders[k], row)
    ensures k in u.orders && SameTerms(u.orders[k], row)
  {
    hide SameFill;
  }

  // ---------------------------------------------------------------- CancelOrder

  /** The value a remaining_quantity text becomes in its column; absent when the UPDATE fails on it. */
  function Column(text: string): Option<int> {
    match Parse(text) case None => None case Some(d) => Numeric(d)
  }

  /** A text the UPDATE takes: it parses, and is not so large that it overflows the column. */
  predicate Writable(text: string) { Parse(text).Some? && InRange(Parse(text).value) }

  lemma ColumnIs(text: string, u: int)
    ensures Column(text).Some? <==> Writable(text)
    ensures Column(text) == Some(u) <==> Parse(text).Some? && KeptAs(Parse(text).value, u)
  {
    if Parse(text).Some? { NumericIs(Parse(text).value, u); }
    hide Parse, Numeric, KeptAs, InRange;
  }

  /** A value of six places is stored as it is. */
  lemma ExactTextKept(text: string, u: int)
    requires Parse(text) == Some(u * MICRO) && Fits(u)
    ensures Writable(text) && forall v :: KeptAs(Parse(text).value, v) <==> v == u
  {
    ExactFits(u);
    forall v { NumericIs(u * MICRO, v); }
    hide Parse, KeptAs, InRange, Numeric;
  }

  /**
  One absolute write: a text the UPDATE fails on, or an order that is not there, leaves
  everything as it was; otherwise that order alone has the status, and the quantity as the
  column keeps it, and its account of fills starts afresh.
  */
  ghost predicate Overwritten(s: State, u: State, k: OrderKey, status: int, text: string) {
    if k !in s.orders || !Writable(text) then u == s else
    k in u.orders && KeptAs(Parse(text).value, u.orders[k].remaining)
    && u == s.(orders := s.orders[k := s.orders[k].(status := status, remaining := u.orders[k].remaining)],
               base := s.base[k := u.orders[k].remaining], since := s.since[k := []])
  }

  lemma WriteOverwrites(s: State, day: int, ref: int, status: int, text: string)
    ensures Overwritten(s, AfterWrite(s, Some(day), ref, status, text), OrderKey(day, ref), status, text)
  {
    if Writable(text) { ColumnIs(text, if Column(text).Some? then Column(text).value else 0); }
    ColumnIs(text, 0);
    KeptFits(text);
    hide Parse, Numeric, NearestAway, Column, Writable, Fits;
  }

  lemma KeptFits(text: string)
    ensures Column(text).Some? ==> Fits(Column(text).value)
  {
    hide Parse, HalfAway;
  }

  datatype CancelParams = CancelParams(partner: string, client: string, orderId: int, orderDay: string)

  datatype CancelReply = CancelReply(success: bool, status: int, remaining: string, ref: int)

  function CancelError(p: Option<CancelParams>): Option<SdkError> {
    if p.None? || p.value.client == "" then Some(ClientIDRequired)
    else if p.value.partner == "" then Some(PartnerIDRequired)
    else if p.value.orderId == 0 then Some(OrderIDRequired)
    else if p.value.orderDay == "" then Some(OrderDayRequired)
    else None
  }

  /** What an absolute write makes of the tables; nothing on values the statement fails on, or on no row. */
  function AfterWrite(s: State, day: Option<int>, ref: int, status: int, remaining: string): State {
    if day.None? || Column(remaining).None? then s
    else Step(s, Overwrite(OrderKey(day.value, ref), status, Column(remaining).value))
  }

  /** One absolute write; a failing statement is ignored. */
  method Write(c: Client, day: Option<int>, ref: int, status: int, remaining: string)
    requires c.Valid()
    modifies c`st, c`trace
    ensures c.Onward() && HandOf(c.st, c.me) == old(HandOf(c.st, c.me))
    ensures c.Calm() ==> c.st == AfterWrite(old(c.st), day, ref, status, remaining)
  {
    hide Grows, Parse, Numeric;
    ghost var start := c.st;
    c.Interfere();
    ghost var before := c.st;
    var failed := c.Fails();
    if failed || day.None? || Column(remaining).None? { return; }
    c.Do(Overwrite(OrderKey(day.value, ref), status, Column(remaining).value));
    GrowsTrans(start, before, c.st);
  }

  /** CancelOrder: only a successful cancellation that names its order writes the row. */
  method CancelOrder(c: Client, p: Option<CancelParams>, core: CancelParams -> Option<CancelReply>)
    returns (r: Result<CancelReply, SdkError>)
    requires c.Valid()
    modifies c`st, c`trace
    ensures c.Onward() && HandOf(c.st, c.me) == old(HandOf(c.st, c.me))
    ensures r == match CancelError(p)
                 case Some(e) => Err(e)
                 case None => match core(p.value) case None => Err(CoreFailed) case Some(a) => Ok(a)
    ensures r.Err? || !r.value.success || r.value.ref == 0 ==> c.st == old(c.st)
    ensures c.Calm() && r.Ok? && r.value.success && r.value.ref != 0 ==>
              var day := Slots.ParseDay(p.value.orderDay);
              if day.None? then c.st == old(c.st)
              else Overwritten(old(c.st), c.st, OrderKey(day.value, r.value.ref), r.value.status, r.value.remaining)
  {
    hide Grows, AfterWrite, HandOf, Overwritten, Slots.ParseDay;
    GrowsRefl(c.st);
    ghost var start := c.st;
    var bad := CancelError(p);
    if bad.Some? { return Err(bad.value); }
    var reply := core(p.value);
    if reply.None? { return Err(CoreFailed); }
    var a := reply.value;
    if a.success && a.ref != 0 {
      var day := Slots.ParseDay(p.value.orderDay);
      Write(c, day, a.ref, a.status, a.remaining);
      NoDay(start, a.ref, a.status, a.remaining);
      if day.Some? { WriteOverwrites(start, day.value, a.ref, a.status, a.remaining); }
    }
    return Ok(a);
  }

  lemma NoDay(s: State, ref: int, status: int, text: string)
    ensures AfterWrite(s, None, ref, status, text) == s
  {
  }

  /** Each error names a parameter that is missing. */
  lemma CancelErrorsAreTrue(p: CancelParams)
    ensures CancelError(Some(p)).None? <==> p.client != "" && p.partner != "" && p.orderId != 0 && p.orderDay != ""
    ensures match CancelError(Some(p))
            case Some(ClientIDRequired) => p.client == ""
            case Some(PartnerIDRequired) => p.partner == ""
            case Some(OrderIDRequired) => p.orderId == 0
            case Some(OrderDayRequired) => p.orderDay == ""
            case Some(_) => false
            case None => true
  {
  }

  // ---------------------------------------------------------------- order events

  datatype OrderMsg = OrderMsg(ref: int, day: int, status: int, remaining: string)

  /** The message reaches a row: it names an order that exists and carries a value the column takes. */
  predicate Applies(s: State, m: OrderMsg) {
    m.ref > 0 && OrderKey(m.day, m.ref) in s.orders && Writable(m.remaining)
  }

  function EventWrite(s: State, m: OrderMsg): State {
    if m.ref > 0 then AfterWrite(s, Some(m.day), m.ref, m.status, m.remaining) else s
  }

  /** What a list of order events makes of the tables, one after the other. */
  function EventWrites(s: State, inbox: seq<OrderMsg>): State {
    if inbox == [] then s else EventWrite(EventWrites(s, inbox[..|inbox| - 1]), inbox[|inbox| - 1])
  }

  /**
  runOrderEventStream: every event is handed on, written or not. The reconnect counter
  goes back to zero exactly when the server accepted the stream.
  */
  method RunOrderEventStream(c: Client, accepted: bool, inbox: seq<OrderMsg>, attempt: nat)
    returns (attempt': nat, handed: seq<OrderMsg>)
    requires c.Valid()
    modifies c`st, c`trace
    ensures c.Onward() && HandOf(c.st, c.me) == old(HandOf(c.st, c.me))
    ensures if accepted then attempt' == 0 && handed == inbox
        else attempt' == attempt && handed == [] && c.st == old(c.st)
    ensures c.Calm() && accepted ==> c.st == EventWrites(old(c.st), inbox)
    ensures c.Calm() && accepted ==>
              c.st.orders.Keys == old(c.st).orders.Keys && c.st.trades == old(c.st).trades
              && forall k :: k in c.st.orders ==>
                   Ends(old(c.st).orders[k], c.st.orders[k], LastFor(old(c.st), inbox, k))
  {
    hide Grows, AfterWrite, HandOf, Ends, LastFor;
    ghost var start := c.st;
    GrowsRefl(start);
    handed := [];
    if !accepted { return attempt, []; }
    attempt' := 0;
    for i := 0 to |inbox|
      invariant c.Onward() && HandOf(c.st, c.me) == old(HandOf(c.st, c.me)) && handed == inbox[..i]
      invariant c.Calm() ==> c.st == EventWrites(start, inbox[..i])
    {
      var m := inbox[i];
      assert inbox[..i + 1][..i] == inbox[..i];
      ghost var before := c.st;
      if m.ref > 0 { Write(c, Some(m.day), m.ref, m.status, m.remaining); GrowsTrans(start, before, c.st); }
      handed := handed + [m];
    }
    assert inbox[..|inbox|] == inbox;
    EventsTouchOrders(start, inbox);
    forall k | k in start.orders
      ensures EventWrites(start, inbox).orders.Keys == start.orders.Keys
      ensures Ends(start.orders[k], EventWrites(start, inbox).orders[k], LastFor(start, inbox, k))
    {
      LastEventWins(start, inbox, k);
    }
  }

  lemma {:induction false} EventsTouchOrders(s: State, inbox: seq<OrderMsg>)
    ensures EventWrites(s, inbox).orders.Keys == s.orders.Keys && EventWrites(s, inbox).trades == s.trades
  {
    hide Column, Fits;
    if inbox != [] { EventsTouchOrders(s, inbox[..|inbox| - 1]); }
  }

  /** The last event of the list that reaches an order. */
  function LastFor(s: State, inbox: seq<OrderMsg>, k: OrderKey): (last: Option<OrderMsg>)
    ensures last.Some? ==>
              Applies(s, last.value) && OrderKey(last.value.day, last.value.ref) == k && last.value in inbox
  {
    if inbox == [] then None else
    var m := inbox[|inbox| - 1];
    if Applies(s, m) && OrderKey(m.day, m.ref) == k then Some(m) else LastFor(s, inbox[..|inbox| - 1], k)
  }

  lemma OneWrite(s: State, m: OrderMsg, k: OrderKey)
    requires k in s.orders
    ensures EventWrite(s, m).orders.Keys == s.orders.Keys
    ensures Ends(s.orders[k], EventWrite(s, m).orders[k],
                 if Applies(s, m) && OrderKey(m.day, m.ref) == k then Some(m) else None)
  {
    WriteOverwrites(s, m.day, m.ref, m.status, m.remaining);
    hide Parse, AfterWrite, InRange, KeptAs;
  }

  /** The row has the status of an event and its quantity as the column keeps it; without an event it is untouched. */
  predicate Ends(o: OrderRow, p: OrderRow, last: Option<OrderMsg>) {
    match last
    case None => p == o
    case Some(m) =>
      p == o.(status := m.status, remaining := p.remaining)
      && Parse(m.remaining).Some? && KeptAs(Parse(m.remaining).value, p.remaining)
  }

  lemma EndsThen(o: OrderRow, p: OrderRow, q: OrderRow, last: Option<OrderMsg>, m: Option<OrderMsg>)
    requires Ends(o, p, last) && Ends(p, q, m)
    ensures Ends(o, q, if m.Some? then m else last)
  {
    hide Parse, KeptAs;
  }

  /** An event's quantity determines what is stored. */
  lemma EndsOnce(o: OrderRow, p: OrderRow, q: OrderRow, last: Option<OrderMsg>)
    requires Ends(o, p, last) && Ends(o, q, last)
    ensures p == q
  {
    if last.Some? {
      NumericIs(Parse(last.value.remaining).value, p.remaining);
      NumericIs(Parse(last.value.remaining).value, q.remaining);
    }
    hide Parse, KeptAs, Numeric;
  }

  /** Each order ends with the status and quantity of the last event that reaches it, and is otherwise untouched. */
  lemma {:induction false} LastEventWins(s: State, inbox: seq<OrderMsg>, k: OrderKey)
    requires k in s.orders
    ensures EventWrites(s, inbox).orders.Keys == s.orders.Keys
    ensures Ends(s.orders[k], EventWrites(s, inbox).orders[k], LastFor(s, inbox, k))
  {
    hide Writable, EventWrite, Parse, KeptAs;
    if inbox != [] {
      var front, m := inbox[..|inbox| - 1], inbox[|inbox| - 1];
      LastEventWins(s, front, k);
      var u := EventWrites(s, front);
      OneWrite(u, m, k);
      EndsThen(s.orders[k], u.orders[k], EventWrite(u, m).orders[k], LastFor(s, front, k),
               if Applies(u, m) && OrderKey(m.day, m.ref) == k then Some(m) else None);
    }
  }

  lemma {:induction false} LastOfBoth(s: State, a: seq<OrderMsg>, b: seq<OrderMsg>, k: OrderKey)
    ensures LastFor(s, a + b, k) == if LastFor(s, b, k).Some? then LastFor(s, b, k) else LastFor(s, a, k)
  {
    hide Applies;
    if b == [] {
      assert a + b == a;
    } else {
      assert (a + b)[..|a + b| - 1] == a + b[..|b| - 1];
      LastOfBoth(s, a, b[..|b| - 1], k);
    }
  }

  /** A reconnect that replays the events from some point on changes no order. */
  lemma ReplayIsHarmless(s: State, a: seq<OrderMsg>, b: seq<OrderMsg>, k: OrderKey)
    requires k in s.orders
    ensures EventWrites(s, a + b).orders.Keys == EventWrites(s, a + b + b).orders.Keys
    ensures k in EventWrites(s, a + b).orders && EventWrites(s, a + b + b).orders[k] == EventWrites(s, a + b).orders[k]
  {
    LastEventWins(s, a + b, k);
    LastEventWins(s, a + b + b, k);
    LastOfBoth(s, a, b, k);
    LastOfBoth(s, a + b, b, k);
    hide EventWrites, LastFor, Column, Ends;
    EndsOnce(s.orders[k], EventWrites(s, a + b).orders[k], EventWrites(s, a + b + b).orders[k],
             LastFor(s, a + b, k));
  }
}
