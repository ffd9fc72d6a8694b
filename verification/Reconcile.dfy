/**
Reconciliation as it runs: Reconcile, ReconcileDiff, ReconcileRepair and localTrades of
go/v1/reconcile.go.
*/
module Reconciliation {
  import opened Options
  import opened Errors
  import opened Decimals
  import opened Clock
  import opened Calendar
  import opened Store
  import opened Invariants
  import opened Checksums
  import opened Slots
  import opened Hours
  import opened Clients
  import opened Recovery
  import opened Histories

  datatype ReconcileParams = ReconcileParams(partner: string, day: string, hour: int)

  datatype SumRequest = SumRequest(partner: string, day: string, from: string, to: string)

  /** The Core's side of Reconciliation: its checksums for a window, or no answer. */
  type CoreSums = SumRequest -> Option<CoreResponse>

  datatype ReconcileResult = ReconcileResult(day: string, hour: int, compared: Comparison, localTrades: int,
      matched: bool, done: bool)

  /** The window of the parameters, or the error of the checks before it. */
  function Scope(p: Option<ReconcileParams>): Result<Window, SdkError> {
    if p.None? || p.value.partner == "" then Err(PartnerIDRequired) else WindowOf(p.value.day, p.value.hour)
  }

  function DayOf(p: ReconcileParams): int { match ParseDay(p.day) case Some(d) => d case None => 0 }

  function SumsFor(p: ReconcileParams, w: Window): SumRequest { SumRequest(p.partner, p.day, w.from, w.to) }

  /** Everything the SDK key traded in the window. */
  function TradesFor(p: ReconcileParams, w: Window): TradesRequest {
    TradesRequest(p.partner, p.day, w.from, w.to, true)
  }

  /**
  Both requests name the partner, the day and the hour's bounds, from start to end, as
  texts of the very instants the local queries are bounded by; the trades are those of all
  the key's partners.
  */
  lemma AsksForTheHour(p: ReconcileParams, w: Window)
    requires Scope(Some(p)) == Ok(w)
    ensures ParseDate(p.day).Some? && DayOf(p) == DayNumber(ParseDate(p.day).value) && 0 <= p.hour < 24
    ensures Local(SlotStart(DayOf(p), p.hour)) >= 0 && Local(SlotStart(DayOf(p), p.hour + 1)) >= 0
    ensures var from, to := TimestampText(SlotStart(DayOf(p), p.hour)), TimestampText(SlotStart(DayOf(p), p.hour + 1));
            from == p.day + " " + Padded(p.hour, 2) + ":00:00" && to == EndText(ParseDate(p.day).value, p.hour)
            && SumsFor(p, w) == SumRequest(p.partner, p.day, from, to)
            && TradesFor(p, w) == TradesRequest(p.partner, p.day, from, to, true)
  {
    WindowTexts(p.day, p.hour);
    hide ParseDate, TimestampText, EndText, Padded, SlotStart, Local, DayNumber, WindowAt;
  }

  /** Each error of the checks names a parameter that is wrong. */
  lemma ScopeErrorsAreTrue(p: ReconcileParams)
    ensures match Scope(Some(p))
            case Ok(_) => p.partner != "" && 0 <= p.hour <= 23 && ParseDay(p.day).Some?
            case Err(PartnerIDRequired) => p.partner == ""
            case Err(InvalidHour) => !(0 <= p.hour <= 23)
            case Err(InvalidDay) => ParseDay(p.day).None?
            case Err(_) => false
  {
    hide ParseDay, WindowAt;
  }

  // ---------------------------------------------------------------- the local aggregate

  /** The tuples of some rows. */
  function Rows(trades: map<TradeKey, TradeRow>, ks: set<TradeKey>): set<Tuple>
    requires ks <= trades.Keys
  {
    set t | t in ks :: TupleOf(t, trades[t])
  }

  /** One more row: its tuple is new, so it adds its hash to every XOR and one to the count. */
  lemma RowsMore(trades: map<TradeKey, TradeRow>, ks: set<TradeKey>, k: TradeKey, day: int)
    requires ks <= trades.Keys && k in trades && k !in ks && k.day == day && forall t :: t in ks ==> t.day == day
    ensures |Rows(trades, ks + {k})| == |Rows(trades, ks)| + 1
    ensures forall f ::
              XorOver(f, Rows(trades, ks + {k})) == Xor(XorOver(f, Rows(trades, ks)), f(TupleOf(k, trades[k])))
  {
    hide Xor, XorOver;
    assert TupleOf(k, trades[k]) !in Rows(trades, ks);
    assert Rows(trades, ks + {k}) == Rows(trades, ks) + {TupleOf(k, trades[k])};
    forall f ensures XorOver(f, Rows(trades, ks + {k})) == Xor(XorOver(f, Rows(trades, ks)), f(TupleOf(k, trades[k]))) {
      XorAdd(f, Rows(trades, ks), TupleOf(k, trades[k]));
    }
  }

  /** The aggregate query: both XORs and the row count, read in whatever order the rows come. */
  method Aggregate(trades: map<TradeKey, TradeRow>, day: int, hour: int, h1: int -> Hash, h2: string -> Hash)
    returns (v1: Hash, v2: Hash, count: int)
    ensures v1 == XorOver(V1(h1), HourRows(trades, day, hour))
    ensures v2 == XorOver(V2(h2), HourRows(trades, day, hour))
    ensures count == |HourRows(trades, day, hour)|
  {
    hide Xor, XorOver, InHour, TupleText, Rows, TupleOf;
    var todo := HourKeys(trades, day, hour);
    InDay(trades, day, hour);
    ghost var read: set<TradeKey> := {};
    v1, v2, count := 0, 0, 0;
    NoRows(trades, V1(h1), V2(h2));
    while todo != {}
      invariant todo !! read && todo + read == HourKeys(trades, day, hour)
      invariant v1 == XorOver(V1(h1), Rows(trades, read)) && v2 == XorOver(V2(h2), Rows(trades, read))
      invariant count == |Rows(trades, read)|
      decreases |todo|
    {
      var k :| k in todo;
      todo := todo - {k};
      RowsMore(trades, read, k, day);
      var t := TupleOf(k, trades[k]);
      v1 := Xor(v1, V1(h1)(t));
      v2 := Xor(v2, V2(h2)(t));
      count := count + 1;
      read := read + {k};
    }
    assert read == HourKeys(trades, day, hour);
    AllRows(trades, day, hour);
  }

  lemma AllRows(trades: map<TradeKey, TradeRow>, day: int, hour: int)
    ensures HourKeys(trades, day, hour) <= trades.Keys
    ensures Rows(trades, HourKeys(trades, day, hour)) == HourRows(trades, day, hour)
  {
    hide InHour, TupleOf;
  }

  lemma NoRows(trades: map<TradeKey, TradeRow>, f: Tuple -> Hash, g: Tuple -> Hash)
    ensures Rows(trades, {}) == {} && XorOver(f, {}) == 0 && XorOver(g, {}) == 0
  {
  }

  lemma InDay(trades: map<TradeKey, TradeRow>, day: int, hour: int)
    ensures forall t :: t in HourKeys(trades, day, hour) ==> t.day == day && t in trades
  {
  }

  // ---------------------------------------------------------------- Reconcile

  /** Later contents of the reconciliations table: rows stay, and a closed hour stays closed. */
  predicate Sticky(a: map<(int, int), RecRow>, b: map<(int, int), RecRow>) {
    forall k :: k in a ==> k in b && (a[k].done ==> b[k].done)
  }

  /** The upsert: is_done is taken over from the stored row. */
  method Record(c: Client, day: int, hour: int, matched: bool) returns (failed: bool, done: bool)
    modifies c`recs
    ensures Sticky(old(c.recs), c.recs)
    ensures !c.faulty ==> !failed
    ensures !failed ==> (matched ==> done) && ((day, hour) in old(c.recs) && old(c.recs)[(day, hour)].done ==> done)
    ensures !failed ==> (day, hour) in c.recs && c.recs[(day, hour)] == RecRow(matched, done)
    ensures !c.shared ==>
              if failed then c.recs == old(c.recs)
              else done == (matched || ((day, hour) in old(c.recs) && old(c.recs)[(day, hour)].done))
                   && c.recs == old(c.recs)[(day, hour) := RecRow(matched, done)]
  {
    if c.shared {
      var theirs: map<(int, int), RecRow> := *;
      if Sticky(c.recs, theirs) { c.recs := theirs; }
    }
    done := false;
    failed := c.Fails();
    if failed { return; }
    var k := (day, hour);
    done := matched || (k in c.recs && c.recs[k].done);
    c.recs := c.recs[k := RecRow(matched, done)];
  }

  /** What a check that reached its end says of the rows it read. */
  ghost predicate Checks(r: ReconcileResult, trades: map<TradeKey, TradeRow>, p: ReconcileParams, w: Window,
                         h1: int -> Hash, h2: string -> Hash, core: CoreSums) {
    var rows, resp := HourRows(trades, DayOf(p), p.hour), core(SumsFor(p, w));
    && r.day == p.day && r.hour == p.hour && resp.Some?
    && r.compared == CompareWith(h1, h2, rows, resp.value)
    && r.matched == r.compared.matched && r.localTrades == |rows|
  }

  /**
  Reconcile: compares one hour and records the outcome. `seen` is the state the aggregate
  query read. Trades and orders are not touched.
  */
  method Reconcile(c: Client, p: Option<ReconcileParams>, h1: int -> Hash, h2: string -> Hash, core: CoreSums)
    returns (r: Result<ReconcileResult, SdkError>, ghost seen: State, ghost mark: nat)
    requires c.Valid()
    modifies c`st, c`trace, c`recs
    ensures c.Onward() && HandOf(c.st, c.me) == old(HandOf(c.st, c.me)) && Sticky(old(c.recs), c.recs)
    ensures Grows(old(c.st), seen) && Grows(seen, c.st)
    ensures |old(c.trace)| <= mark <= |c.trace| && seen == StateAt(c.trace, mark)
    ensures c.Mine() == old(c.Mine()) == Acts(c.trace[..mark], c.me)
    ensures !c.shared ==> c.st == old(c.st) && c.trace == old(c.trace) && seen == c.st
    ensures !c.shared && r.Err? ==> c.recs == old(c.recs)
    ensures Scope(p).Err? ==> r == Err(Scope(p).error)
    ensures Scope(p).Ok? && core(SumsFor(p.value, Scope(p).value)).None? ==> r.Err?
    ensures Scope(p).Ok? && core(SumsFor(p.value, Scope(p).value)).Some? && !c.faulty ==> r.Ok?
    ensures r.Ok? ==>
              p.Some? && Scope(p).Ok? && Checks(r.value, seen.trades, p.value, Scope(p).value, h1, h2, core)
              && (r.value.matched ==> r.value.done)
              && (DayOf(p.value), p.value.hour) in c.recs
              && c.recs[(DayOf(p.value), p.value.hour)] == RecRow(r.value.matched, r.value.done)
    ensures !c.shared && r.Ok? ==>
              var k := (DayOf(p.value), p.value.hour);
              c.recs == old(c.recs)[k := RecRow(r.value.matched, r.value.matched
                  || (k in old(c.recs) && old(c.recs)[k].done))]
  {
    hide Grows, WindowOf, ParseDay, HandOf, HourRows, XorOver, V1, V2, StateAt, Acts;
    GrowsRefl(c.st);
    seen, mark := c.st, |c.trace|;
    StateNow(c.trace);
    assert c.trace[..mark] == c.trace;
    var w := Scope(p);
    if w.Err? { r := Err(w.error); return; }
    ghost var start := c.st;
    c.Interfere();
    seen, mark := c.st, |c.trace|;
    StateNow(c.trace);
    assert c.trace[..mark] == c.trace;
    GrowsRefl(seen);
    r := Err(DatabaseFailed);
    var failed := c.Fails();
    if failed { return; }
    var v1, v2, count := Aggregate(c.st.trades, DayOf(p.value), p.value.hour, h1, h2);
    var resp := core(SumsFor(p.value, w.value));
    if resp.None? { r := Err(CoreFailed); return; }
    var compared := CompareChecksums(v1, v2, count, resp.value);
    ghost var trace := c.trace;
    c.Interfere();
    GrowsTrans(start, seen, c.st);
    assert c.trace[..mark] == trace;
    StateStays(trace, c.trace, mark);
    var done;
    failed, done := Record(c, DayOf(p.value), p.value.hour, compared.matched);
    if failed { return; }
    r := Ok(ReconcileResult(p.value.day, p.value.hour, compared, count, compared.matched, done));
  }

  // ---------------------------------------------------------------- ReconcileDiff

  /** localTrades: one pass over the hour's rows, keyed by both ids. */
  method LocalTrades(trades: map<TradeKey, TradeRow>, day: int, hour: int) returns (local: LocalBook)
    ensures IsLocalBook(local, trades, day, hour)
  {
    hide LocalOf, InHour;
    var todo := HourKeys(trades, day, hour);
    InDay(trades, day, hour);
    local := map[];
    while todo != {}
      invariant todo <= HourKeys(trades, day, hour)
      invariant forall i :: i in local ==>
                  var t := TradeKey(i.tradeId, i.orderId, day);
                  t in HourKeys(trades, day, hour) && t !in todo && local[i] == LocalOf(t, trades[t])
      invariant forall t :: t in HourKeys(trades, day, hour) && t !in todo ==> Ids(t.tradeId, t.orderId) in local
      decreases |todo|
    {
      var k :| k in todo;
      todo := todo - {k};
      local := local[Ids(k.tradeId, k.orderId) := LocalOf(k, trades[k])];
    }
  }

  /** The order in which a map is walked does not change what is listed. */
  lemma {:induction false} PicksOf(ids: set<Ids>, i: Ids, local: LocalBook)
    requires ids <= local.Keys && i in ids
    ensures multiset(Picks(ids, local)) == multiset(Picks(ids - {i}, local)) + multiset{local[i]}
    decreases |ids|
  {
    var j :| j in ids && Picks(ids, local) == Picks(ids - {j}, local) + [local[j]];
    if j != i {
      PicksOf(ids - {j}, i, local);
      PicksOf(ids - {i}, j, local);
      assert ids - {j} - {i} == ids - {i} - {j};
    }
  }

  lemma ListsMore(listed: seq<LocalTrade>, ids: set<Ids>, i: Ids, local: LocalBook)
    requires i in local && i !in ids && ids <= local.Keys && Lists(listed, ids, local)
    ensures Lists(listed + [local[i]], ids + {i}, local)
  {
    hide Picks;
    PicksOf(ids + {i}, i, local);
    assert ids + {i} - {i} == ids;
  }

  /** The walk over the Core's list: missing locally, mismatched, unsettled, and the ids seen. */
  method WalkCore(core: seq<TradeMsg>, local: LocalBook)
    returns (missing: seq<TradeMsg>, mismatched: seq<Mismatch>, unsettled: seq<LocalTrade>, seen: set<Ids>)
    ensures missing == MissingLocally(core, local) && mismatched == Mismatched(core, local)
    ensures unsettled == Unsettled(core, local)
    ensures forall i :: i in seen <==> exists m :: m in core && IdsOf(m) == i
  {
    hide CompareTrade;
    missing, mismatched, unsettled, seen := [], [], [], {};
    for n := 0 to |core|
      invariant missing == MissingLocally(core[..n], local) && mismatched == Mismatched(core[..n], local)
      invariant unsettled == Unsettled(core[..n], local)
      invariant forall i :: i in seen <==> exists m :: m in core[..n] && IdsOf(m) == i
    {
      var m := core[n];
      assert core[..n + 1][..n] == core[..n] && core[..n + 1] == core[..n] + [m];
      SeenMore(core[..n], m, seen);
      seen := seen + {IdsOf(m)};
      if IdsOf(m) !in local {
        missing := missing + [m];
      } else {
        var fields := CompareTrade(m, local[IdsOf(m)]);
        if |fields| > 0 { mismatched := mismatched + [Mismatch(IdsOf(m), fields, m, local[IdsOf(m)])]; }
        if !local[IdsOf(m)].settled { unsettled := unsettled + [local[IdsOf(m)]]; }
      }
    }
    assert core[..|core|] == core;
  }

  lemma SeenMore(front: seq<TradeMsg>, m: TradeMsg, seen: set<Ids>)
    requires forall i :: i in seen <==> exists x :: x in front && IdsOf(x) == i
    ensures forall i :: i in seen + {IdsOf(m)} <==> exists x :: x in front + [m] && IdsOf(x) == i
  {
    forall i ensures i in seen + {IdsOf(m)} <==> exists x :: x in front + [m] && IdsOf(x) == i {
      if i in seen {
        var x :| x in front && IdsOf(x) == i;
        assert x in front + [m];
      } else if i == IdsOf(m) {
        assert m in front + [m];
      }
    }
  }

  /** The two walks of ReconcileDiff. */
  method Classify(core: seq<TradeMsg>, local: LocalBook) returns (d: TradeDiff)
    ensures IsDiff(d, core, local)
    ensures forall rows, day :: BookOf(local, rows, day) ==> Explains(d, core, rows, day)
  {
    hide MissingLocally, Mismatched, Unsettled, Picks, BookOf, Explains;
    var missing, mismatched, unsettled, seen := WalkCore(core, local);
    var remote: seq<LocalTrade> := [];
    var todo := local.Keys;
    ghost var listed: set<Ids> := {};
    NoneListed(local);
    while todo != {}
      invariant todo <= local.Keys && listed <= local.Keys && todo !! listed
      invariant listed == set i | i in local && i !in todo && i !in seen
      invariant Lists(remote, listed, local)
      decreases |todo|
    {
      var i :| i in todo;
      todo := todo - {i};
      if i !in seen {
        ListsMore(remote, listed, i, local);
        remote := remote + [local[i]];
        listed := listed + {i};
      }
    }
    assert listed == Unlisted(core, local);
    d := TradeDiff(|core|, |local|, missing, remote, mismatched, unsettled);
    forall rows, day | BookOf(local, rows, day) ensures Explains(d, core, rows, day) {
      BookExplains(d, core, local, rows, day);
    }
  }

  lemma NoneListed(local: LocalBook)
    ensures Lists([], {}, local)
  {
  }

  /**
  ReconcileDiff: classifies every trade of the hour. `seen` is the state the local query
  read. It writes nothing.
  */
  method ReconcileDiff(c: Client, p: Option<ReconcileParams>, core: CoreTrades)
    returns (r: Result<TradeDiff, SdkError>, ghost seen: State, ghost local: LocalBook)
    requires c.Valid()
    modifies c`st, c`trace
    ensures c.Onward() && HandOf(c.st, c.me) == old(HandOf(c.st, c.me)) && seen == c.st
    ensures !c.shared ==> c.st == old(c.st) && c.trace == old(c.trace)
    ensures Scope(p).Err? ==> r == Err(Scope(p).error)
    ensures Scope(p).Ok? && core(TradesFor(p.value, Scope(p).value)).None? ==> r == Err(CoreFailed)
    ensures Scope(p).Ok? && core(TradesFor(p.value, Scope(p).value)).Some? && !c.faulty ==> r.Ok?
    ensures r.Ok? ==>
              Scope(p).Ok? && core(TradesFor(p.value, Scope(p).value)).Some?
              && IsLocalBook(local, seen.trades, DayOf(p.value), p.value.hour)
              && IsDiff(r.value, core(TradesFor(p.value, Scope(p).value)).value, local)
              && Explains(r.value, core(TradesFor(p.value, Scope(p).value)).value,
                          HourOf(seen.trades, DayOf(p.value), p.value.hour), DayOf(p.value))
  {
    hide Grows, WindowOf, ParseDay, HandOf, IsDiff, IsLocalBook, Explains, HourOf, BookOf;
    GrowsRefl(c.st);
    seen, local := c.st, map[];
    var w := Scope(p);
    if w.Err? { return Err(w.error), c.st, map[]; }
    var raw := core(TradesFor(p.value, w.value));
    if raw.None? { return Err(CoreFailed), c.st, map[]; }
    c.Interfere();
    seen := c.st;
    var failed := c.Fails();
    if failed { return Err(DatabaseFailed), c.st, map[]; }
    var book := LocalTrades(c.st.trades, DayOf(p.value), p.value.hour);
    local := book;
    var d := Classify(raw.value, book);
    DiffExplains(d, raw.value, book, c.st.trades, DayOf(p.value), p.value.hour);
    r := Ok(d);
  }
}
