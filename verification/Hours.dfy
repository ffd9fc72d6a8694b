/**
One hour of trades on both sides: the rows the checksum covers, the comparison trade by
trade, and why the comparison explains every mismatch. go/v1/reconcile.go.
*/
module Hours {
  import opened Options
  import opened Decimals
  import opened Clock
  import opened Store
  import opened Checksums

  // ---------------------------------------------------------------- the two sides

  /** The WHERE clause of both local queries. */
  predicate InHour(t: TradeKey, row: TradeRow, day: int, hour: int) {
    t.day == day && InSlot(row.executedAt, day, hour)
  }

  function HourKeys(trades: map<TradeKey, TradeRow>, day: int, hour: int): set<TradeKey> {
    set t | t in trades && InHour(t, trades[t], day, hour)
  }

  function TupleOf(t: TradeKey, row: TradeRow): Tuple { Tuple(t.tradeId, t.orderId, row.side, row.filled, row.rate) }

  /** The local rows as the checksum sees them. */
  function HourRows(trades: map<TradeKey, TradeRow>, day: int, hour: int): set<Tuple> {
    set t | t in HourKeys(trades, day, hour) :: TupleOf(t, trades[t])
  }

  /** COUNT(*): within a day no two rows share both ids. */
  lemma {:induction false} RowCount(trades: map<TradeKey, TradeRow>, ks: set<TradeKey>, day: int)
    requires ks <= trades.Keys && forall t :: t in ks ==> t.day == day
    ensures |set t | t in ks :: TupleOf(t, trades[t])| == |ks|
    decreases |ks|
  {
    if ks != {} {
      var k :| k in ks;
      var rest := ks - {k};
      RowCount(trades, rest, day);
      var all, less := (set t | t in ks :: TupleOf(t, trades[t])), (set t | t in rest :: TupleOf(t, trades[t]));
      assert TupleOf(k, trades[k]) !in less;
      assert all == less + {TupleOf(k, trades[k])};
    }
  }

  lemma HourCount(trades: map<TradeKey, TradeRow>, day: int, hour: int)
    ensures |HourRows(trades, day, hour)| == |HourKeys(trades, day, hour)|
  {
    RowCount(trades, HourKeys(trades, day, hour), day);
  }

  /** The millionths a decimal text of the Core stands for in its own NUMERIC(28,6) columns. */
  function Millionths(text: string): int {
    match Parse(text) case Some(d) => d / MICRO case None => 0
  }

  function CoreTuple(m: TradeMsg): Tuple {
    Tuple(m.tradeId, m.orderId, m.side, Millionths(m.filled), Millionths(m.rate))
  }

  /** The Core's rows behind the list it returns. */
  function CoreRows(core: seq<TradeMsg>): set<Tuple> { set m | m in core :: CoreTuple(m) }

  /** tradeKey: a trade within one day. */
  datatype Ids = Ids(tradeId: int, orderId: int)

  function IdsOf(m: TradeMsg): Ids { Ids(m.tradeId, m.orderId) }

  /** The Core never lists a trade twice. */
  predicate Distinct(core: seq<TradeMsg>) { forall i, j :: 0 <= i < j < |core| ==> IdsOf(core[i]) != IdsOf(core[j]) }

  // ---------------------------------------------------------------- trade by trade

  /** A local row as localTrades reads it, its decimals as column text. */
  datatype LocalTrade = LocalTrade(
    tradeId: int, orderId: int, ref: int, side: int, filled: string, rate: string,
    tradeType: int, ack: bool, settled: bool, attempts: int, settleError: string)

  function LocalOf(t: TradeKey, row: TradeRow): LocalTrade {
    LocalTrade(t.tradeId, t.orderId, row.ref, row.side, NumText(row.filled), NumText(row.rate),
               row.tradeType, row.ack, row.settled, row.attempts,
               match row.settleError case Some(e) => e case None => "")
  }

  type LocalBook = map<Ids, LocalTrade>

  /** What localTrades returns for an hour. */
  ghost predicate IsLocalBook(local: LocalBook, trades: map<TradeKey, TradeRow>, day: int, hour: int) {
    && (forall i :: i in local ==>
          var t := TradeKey(i.tradeId, i.orderId, day);
          t in HourKeys(trades, day, hour) && local[i] == LocalOf(t, trades[t]))
    && (forall t :: t in HourKeys(trades, day, hour) ==> Ids(t.tradeId, t.orderId) in local)
  }

  /** compareTrade: the names of the fields that differ. */
  function CompareTrade(core: TradeMsg, local: LocalTrade): seq<string> {
    (if core.ref != local.ref then ["ref_id"] else []) +
    (if core.side != local.side then ["side"] else []) +
    (if !SameDecimal(core.filled, local.filled) then ["filled_quantity"] else []) +
    (if !SameDecimal(core.rate, local.rate) then ["execution_rate"] else []) +
    (if core.tradeType != 0 && local.tradeType != 0 && core.tradeType != local.tradeType then ["trade_type"] else [])
  }

  /** No field is named exactly when both sides hold the same order, side and values and no conflicting type. */
  lemma NoFieldsIff(m: TradeMsg, t: TradeKey, row: TradeRow)
    ensures CompareTrade(m, LocalOf(t, row)) == [] <==>
              m.ref == row.ref && m.side == row.side
              && Parse(m.filled) == Some(row.filled * MICRO) && Parse(m.rate) == Some(row.rate * MICRO)
              && (m.tradeType == 0 || row.tradeType == 0 || m.tradeType == row.tradeType)
  {
    SameDecimalOfColumn(m.filled, row.filled);
    SameDecimalOfColumn(m.rate, row.rate);
    hide Parse, NumText, SameDecimal;
  }

  /** The names a comparison can give, in the order it gives them. */
  const FIELDS: seq<string> := ["ref_id", "side", "filled_quantity", "execution_rate", "trade_type"]

  /** The value behind a name differs; a type that either side did not report does not. */
  predicate Differs(name: string, m: TradeMsg, row: TradeRow) {
    || (name == "ref_id" && m.ref != row.ref)
    || (name == "side" && m.side != row.side)
    || (name == "filled_quantity" && Parse(m.filled) != Some(row.filled * MICRO))
    || (name == "execution_rate" && Parse(m.rate) != Some(row.rate * MICRO))
    || (name == "trade_type" && m.tradeType != 0 && row.tradeType != 0 && m.tradeType != row.tradeType)
  }

  /** Exactly the names of the values that differ, each once, in that order. */
  ghost predicate Names(fields: seq<string>, m: TradeMsg, row: TradeRow) {
    && (forall name :: name in fields <==> name in FIELDS && Differs(name, m, row))
    && (forall i, j :: 0 <= i < j < |fields| ==> Rank(fields[i]) < Rank(fields[j]))
  }

  function Rank(name: string): nat {
    if name == FIELDS[0] then 0 else if name == FIELDS[1] then 1 else if name == FIELDS[2] then 2
    else if name == FIELDS[3] then 3 else 4
  }

  /** The comparison names exactly the values that differ. */
  lemma FieldsNamed(m: TradeMsg, t: TradeKey, row: TradeRow)
    ensures Names(CompareTrade(m, LocalOf(t, row)), m, row)
  {
    SameDecimalOfColumn(m.filled, row.filled);
    SameDecimalOfColumn(m.rate, row.rate);
    hide Parse, NumText, SameDecimal;
    var fields := CompareTrade(m, LocalOf(t, row));
    forall name ensures name in fields <==> name in FIELDS && Differs(name, m, row) { }
  }

  datatype Mismatch = Mismatch(ids: Ids, fields: seq<string>, core: TradeMsg, local: LocalTrade)

  datatype TradeDiff = TradeDiff(
    coreTrades: nat, localTrades: nat, missingLocally: seq<TradeMsg>, missingRemotely: seq<LocalTrade>,
    mismatched: seq<Mismatch>, unsettled: seq<LocalTrade>)
  {
    predicate Divergent() { |missingLocally| > 0 || |missingRemotely| > 0 || |mismatched| > 0 }
  }

  // The three slices filled by the walk over the Core's list, in its order.

  function MissingLocally(core: seq<TradeMsg>, local: LocalBook): seq<TradeMsg> {
    if core == [] then [] else
    var m := core[|core| - 1];
    MissingLocally(core[..|core| - 1], local) + (if IdsOf(m) !in local then [m] else [])
  }

  function Mismatched(core: seq<TradeMsg>, local: LocalBook): seq<Mismatch> {
    if core == [] then [] else
    var m := core[|core| - 1];
    Mismatched(core[..|core| - 1], local) +
    (if IdsOf(m) in local && |CompareTrade(m, local[IdsOf(m)])| > 0
     then [Mismatch(IdsOf(m), CompareTrade(m, local[IdsOf(m)]), m, local[IdsOf(m)])] else [])
  }

  function Unsettled(core: seq<TradeMsg>, local: LocalBook): seq<LocalTrade> {
    if core == [] then [] else
    var m := core[|core| - 1];
    Unsettled(core[..|core| - 1], local) +
    (if IdsOf(m) in local && !local[IdsOf(m)].settled then [local[IdsOf(m)]] else [])
  }

  /** Local trades the Core did not list. */
  function Unlisted(core: seq<TradeMsg>, local: LocalBook): (ids: set<Ids>)
    ensures ids <= local.Keys
  {
    set i | i in local && forall m :: m in core ==> IdsOf(m) != i
  }

  /** The last slice is filled by walking a map: any order, each trade once. */
  ghost predicate Lists(trades: seq<LocalTrade>, ids: set<Ids>, local: LocalBook)
    requires ids <= local.Keys
  {
    multiset(trades) == multiset(Picks(ids, local))
  }

  ghost function Picks(ids: set<Ids>, local: LocalBook): (p: seq<LocalTrade>)
    requires ids <= local.Keys
    ensures |p| == |ids|
    decreases |ids|
  {
    if ids == {} then [] else
    var i :| i in ids;
    Picks(ids - {i}, local) + [local[i]]
  }

  ghost predicate IsDiff(d: TradeDiff, core: seq<TradeMsg>, local: LocalBook) {
    && d.coreTrades == |core| && d.localTrades == |local|
    && d.missingLocally == MissingLocally(core, local)
    && d.mismatched == Mismatched(core, local)
    && d.unsettled == Unsettled(core, local)
    && Lists(d.missingRemotely, Unlisted(core, local), local)
  }

  // ---------------------------------------------------------------- what a diff says of the tables

  /** The local row with the two ids of a trade of the Core, if the hour has one. */
  function RowKey(m: TradeMsg, day: int): TradeKey { TradeKey(m.tradeId, m.orderId, day) }

  predicate Mentioned(t: TradeKey, core: seq<TradeMsg>) { exists m :: m in core && RowKey(m, t.day) == t }

  /** `l` shows the row's columns, the decimals as texts of the same value. */
  predicate Shows(l: LocalTrade, t: TradeKey, row: TradeRow) {
    && l.tradeId == t.tradeId && l.orderId == t.orderId && l.ref == row.ref && l.side == row.side
    && Parse(l.filled) == Some(row.filled * MICRO) && Parse(l.rate) == Some(row.rate * MICRO)
    && l.tradeType == row.tradeType && l.ack == row.ack && l.settled == row.settled && l.attempts == row.attempts
    && l.settleError == match row.settleError case Some(why) => why case None => ""
  }

  lemma LocalShows(t: TradeKey, row: TradeRow)
    ensures Shows(LocalOf(t, row), t, row)
  {
    ParseOfNumText(row.filled);
    ParseOfNumText(row.rate);
    hide Parse, NumText;
  }

  /** Missing locally: exactly the Core's trades whose ids no row of the hour has. */
  ghost predicate MissingIs(missing: seq<TradeMsg>, core: seq<TradeMsg>, hour: map<TradeKey, TradeRow>, day: int) {
    && (forall m :: m in missing <==> m in core && RowKey(m, day) !in hour)
    && (Distinct(core) ==> Distinct(missing))
  }

  /** The record of one disagreement: both copies, and the names of exactly the values that differ. */
  ghost predicate Disagrees(x: Mismatch, core: seq<TradeMsg>, hour: map<TradeKey, TradeRow>, day: int) {
    && x.core in core && x.ids == IdsOf(x.core) && RowKey(x.core, day) in hour
    && Shows(x.local, RowKey(x.core, day), hour[RowKey(x.core, day)])
    && x.fields != [] && Names(x.fields, x.core, hour[RowKey(x.core, day)])
  }

  /** Mismatched: one such record for each of the Core's trades whose row holds another value. */
  ghost predicate MismatchedIs(mismatched: seq<Mismatch>, core: seq<TradeMsg>, hour: map<TradeKey, TradeRow>,
                               day: int) {
    && (forall x :: x in mismatched ==> Disagrees(x, core, hour, day))
    && (forall m, name :: m in core && RowKey(m, day) in hour && Differs(name, m, hour[RowKey(m, day)]) ==>
          exists x :: x in mismatched && x.core == m)
    && (Distinct(core) ==> forall i, j :: 0 <= i < j < |mismatched| ==> mismatched[i].ids != mismatched[j].ids)
  }

  function ShownIds(l: LocalTrade): Ids { Ids(l.tradeId, l.orderId) }

  predicate Once(ls: seq<LocalTrade>) { forall i, j :: 0 <= i < j < |ls| ==> ShownIds(ls[i]) != ShownIds(ls[j]) }

  /** The slice shows exactly the rows of the hour with the keys `ts`. */
  ghost predicate ShowsAll(ls: seq<LocalTrade>, ts: set<TradeKey>, hour: map<TradeKey, TradeRow>) {
    && (forall l :: l in ls ==> exists t :: t in ts && t in hour && Shows(l, t, hour[t]))
    && (forall t :: t in ts ==> t in hour && exists l :: l in ls && Shows(l, t, hour[t]))
  }

  function NotYetSettled(core: seq<TradeMsg>, hour: map<TradeKey, TradeRow>): set<TradeKey> {
    set t | t in hour && Mentioned(t, core) && !hour[t].settled
  }

  function NotMentioned(core: seq<TradeMsg>, hour: map<TradeKey, TradeRow>): set<TradeKey> {
    set t | t in hour && !Mentioned(t, core)
  }

  /** The rows of an hour. */
  function HourOf(trades: map<TradeKey, TradeRow>, day: int, hour: int): (rows: map<TradeKey, TradeRow>)
    ensures rows.Keys == HourKeys(trades, day, hour)
  {
    map t | t in HourKeys(trades, day, hour) :: trades[t]
  }

  /**
  A diff of the Core's list with the rows of the hour: which trades each slice holds, and
  that it holds each once.
  */
  ghost predicate Explains(d: TradeDiff, core: seq<TradeMsg>, hour: map<TradeKey, TradeRow>, day: int) {
    && d.coreTrades == |core| && d.localTrades == |hour|
    && MissingIs(d.missingLocally, core, hour, day)
    && MismatchedIs(d.mismatched, core, hour, day)
    && ShowsAll(d.unsettled, NotYetSettled(core, hour), hour)
    && (Distinct(core) ==> Once(d.unsettled))
    && ShowsAll(d.missingRemotely, NotMentioned(core, hour), hour) && Once(d.missingRemotely)
  }

  /** The book is the hour's rows under their ids. */
  ghost predicate BookOf(local: LocalBook, hour: map<TradeKey, TradeRow>, day: int) {
    && (forall t :: t in hour ==> t.day == day)
    && (forall i :: i in local <==> TradeKey(i.tradeId, i.orderId, day) in hour)
    && (forall i :: i in local ==>
          local[i] == LocalOf(TradeKey(i.tradeId, i.orderId, day), hour[TradeKey(i.tradeId, i.orderId, day)]))
  }

  lemma LocalBookIs(local: LocalBook, trades: map<TradeKey, TradeRow>, day: int, hour: int)
    requires IsLocalBook(local, trades, day, hour)
    ensures BookOf(local, HourOf(trades, day, hour), day)
  {
    hide LocalOf, InSlot;
  }

  lemma {:induction false} MissingFound(core: seq<TradeMsg>, local: LocalBook)
    ensures forall m :: m in MissingLocally(core, local) <==> m in core && IdsOf(m) !in local
    ensures Distinct(core) ==> Distinct(MissingLocally(core, local))
  {
    if core != [] {
      var front, m := core[..|core| - 1], core[|core| - 1];
      assert core == front + [m];
      MissingFound(front, local);
      if Distinct(core) { LastIsNew(front, m); }
    }
  }

  /** In a list without repeated ids the last ids are new. */
  lemma LastIsNew(front: seq<TradeMsg>, m: TradeMsg)
    requires Distinct(front + [m])
    ensures Distinct(front) && forall x :: x in front ==> IdsOf(x) != IdsOf(m)
  {
    var all := front + [m];
    assert forall i :: 0 <= i < |front| ==> all[i] == front[i];
    assert all[|front|] == m;
  }

  lemma {:induction false} MismatchedFound(core: seq<TradeMsg>, local: LocalBook)
    ensures forall x :: x in Mismatched(core, local) <==>
              x.core in core && x.ids == IdsOf(x.core) && x.ids in local && x.local == local[x.ids]
              && x.fields == CompareTrade(x.core, x.local) && |x.fields| > 0
    ensures Distinct(core) ==> forall i, j :: 0 <= i < j < |Mismatched(core, local)| ==>
              Mismatched(core, local)[i].ids != Mismatched(core, local)[j].ids
  {
    hide CompareTrade;
    if core != [] {
      var front, m := core[..|core| - 1], core[|core| - 1];
      assert core == front + [m];
      MismatchedFound(front, local);
      if Distinct(core) { LastIsNew(front, m); }
    }
  }

  lemma {:induction false} UnsettledFound(core: seq<TradeMsg>, local: LocalBook)
    requires forall i :: i in local ==> ShownIds(local[i]) == i
    ensures forall l :: l in Unsettled(core, local) ==>
              !l.settled && ShownIds(l) in local && local[ShownIds(l)] == l
              && exists m :: m in core && IdsOf(m) == ShownIds(l)
    ensures forall m :: m in core && IdsOf(m) in local && !local[IdsOf(m)].settled ==>
              local[IdsOf(m)] in Unsettled(core, local)
    ensures Distinct(core) ==> Once(Unsettled(core, local))
  {
    if core != [] {
      var front, m := core[..|core| - 1], core[|core| - 1];
      assert core == front + [m];
      UnsettledFound(front, local);
      if Distinct(core) { LastIsNew(front, m); }
    }
  }

  lemma {:induction false} PicksFound(ids: set<Ids>, local: LocalBook)
    requires ids <= local.Keys && forall i :: i in local ==> ShownIds(local[i]) == i
    ensures forall l :: l in Picks(ids, local) <==> ShownIds(l) in ids && local[ShownIds(l)] == l
    ensures Once(Picks(ids, local))
    decreases |ids|
  {
    if ids != {} {
      var i :| i in ids && Picks(ids, local) == Picks(ids - {i}, local) + [local[i]];
      PicksFound(ids - {i}, local);
    }
  }

  /** A list with the same elements, each as often, names no trade twice either. */
  lemma {:induction false} OnceInAnyOrder(a: seq<LocalTrade>, b: seq<LocalTrade>)
    requires multiset(a) == multiset(b) && Once(b)
    ensures Once(a)
  {
    forall i, j | 0 <= i < j < |a| ensures ShownIds(a[i]) != ShownIds(a[j]) {
      assert a[i] in multiset(a) && a[j] in multiset(a);
      assert a[i] in b && a[j] in b;
      if a[i] == a[j] {
        Twice(a, i, j);
        OnlyOnce(b, a[i]);
      }
    }
  }

  lemma Twice(a: seq<LocalTrade>, i: nat, j: nat)
    requires i < j < |a| && a[i] == a[j]
    ensures multiset(a)[a[i]] >= 2
  {
    assert a == a[..i] + [a[i]] + a[i + 1..j] + [a[j]] + a[j + 1..];
  }

  lemma {:induction false} OnlyOnce(b: seq<LocalTrade>, l: LocalTrade)
    requires Once(b)
    ensures multiset(b)[l] <= 1
  {
    if b != [] {
      var front, x := b[..|b| - 1], b[|b| - 1];
      assert b == front + [x];
      OnlyOnce(front, l);
      if x == l { assert l !in front; assert multiset(front)[l] == 0; }
    }
  }

  lemma BookShows(local: LocalBook, hour: map<TradeKey, TradeRow>, day: int)
    requires BookOf(local, hour, day)
    ensures |local| == |hour|
    ensures forall i :: i in local ==>
              var t := TradeKey(i.tradeId, i.orderId, day);
              t in hour && Shows(local[i], t, hour[t]) && ShownIds(local[i]) == i && local[i].settled == hour[t].settled
  {
    forall i | i in local
      ensures var t := TradeKey(i.tradeId, i.orderId, day);
              t in hour && Shows(local[i], t, hour[t]) && ShownIds(local[i]) == i && local[i].settled == hour[t].settled
    {
      LocalShows(TradeKey(i.tradeId, i.orderId, day), hour[TradeKey(i.tradeId, i.orderId, day)]);
      hide Shows;
    }
    hide LocalOf, Shows;
    SameKeys(local.Keys, hour.Keys, day);
    assert |local.Keys| == |local| && |hour.Keys| == |hour|;
  }

  lemma {:induction false} SameKeys(ids: set<Ids>, ts: set<TradeKey>, day: int)
    requires forall t :: t in ts ==> t.day == day
    requires forall i :: i in ids <==> TradeKey(i.tradeId, i.orderId, day) in ts
    ensures |ids| == |ts|
    decreases |ids|
  {
    if ids == {} {
      forall t ensures t !in ts { assert t in ts ==> Ids(t.tradeId, t.orderId) in ids; }
      assert ts == {};
    } else {
      var i :| i in ids;
      SameKeys(ids - {i}, ts - {TradeKey(i.tradeId, i.orderId, day)}, day);
    }
  }

  lemma MissingExplained(core: seq<TradeMsg>, local: LocalBook, hour: map<TradeKey, TradeRow>, day: int)
    requires BookOf(local, hour, day)
    ensures MissingIs(MissingLocally(core, local), core, hour, day)
  {
    MissingFound(core, local);
    hide MissingLocally, LocalOf, Distinct;
  }

  lemma NamesNone(fields: seq<string>, m: TradeMsg, row: TradeRow, name: string)
    requires Names(fields, m, row) && Differs(name, m, row)
    ensures fields != []
  {
    assert name in FIELDS;
    hide Parse;
    assert name in fields;
  }

  lemma MismatchedExplained(core: seq<TradeMsg>, local: LocalBook, hour: map<TradeKey, TradeRow>, day: int)
    requires BookOf(local, hour, day)
    ensures MismatchedIs(Mismatched(core, local), core, hour, day)
  {
    MismatchedFound(core, local);
    hide Mismatched, CompareTrade, Names, Differs, BookOf, Shows;
    forall x | x in Mismatched(core, local) ensures Disagrees(x, core, hour, day) {
      hide MismatchedIs;
      EntryDisagrees(x, core, local, hour, day);
    }
    forall m, name | m in core && RowKey(m, day) in hour && Differs(name, m, hour[RowKey(m, day)])
      ensures exists x :: x in Mismatched(core, local) && x.core == m
    {
      hide MismatchedIs;
      var i := IdsOf(m);
      DifferenceFound(m, name, local, hour, day);
      assert Mismatch(i, CompareTrade(m, local[i]), m, local[i]) in Mismatched(core, local);
    }
  }

  lemma EntryDisagrees(x: Mismatch, core: seq<TradeMsg>, local: LocalBook, hour: map<TradeKey, TradeRow>, day: int)
    requires BookOf(local, hour, day) && x.core in core && x.ids == IdsOf(x.core) && x.ids in local
    requires x.local == local[x.ids] && x.fields == CompareTrade(x.core, x.local) && |x.fields| > 0
    ensures Disagrees(x, core, hour, day)
  {
    var t := RowKey(x.core, day);
    assert t in hour && x.local == LocalOf(t, hour[t]);
    LocalShows(t, hour[t]);
    FieldsNamed(x.core, t, hour[t]);
    hide LocalOf, CompareTrade, Shows, Names;
  }

  lemma DifferenceFound(m: TradeMsg, name: string, local: LocalBook, hour: map<TradeKey, TradeRow>, day: int)
    requires BookOf(local, hour, day) && RowKey(m, day) in hour && Differs(name, m, hour[RowKey(m, day)])
    ensures IdsOf(m) in local && |CompareTrade(m, local[IdsOf(m)])| > 0
  {
    var t := RowKey(m, day);
    assert IdsOf(m) in local && local[IdsOf(m)] == LocalOf(t, hour[t]);
    FieldsNamed(m, t, hour[t]);
    hide LocalOf, CompareTrade;
    NamesNone(CompareTrade(m, local[IdsOf(m)]), m, hour[t], name);
  }

  lemma MentionedIds(core: seq<TradeMsg>)
    ensures forall t :: Mentioned(t, core) <==> exists m :: m in core && IdsOf(m) == Ids(t.tradeId, t.orderId)
  {
    forall t ensures Mentioned(t, core) <==> exists m :: m in core && IdsOf(m) == Ids(t.tradeId, t.orderId) {
      if m :| m in core && IdsOf(m) == Ids(t.tradeId, t.orderId) { assert RowKey(m, t.day) == t; }
    }
  }

  /** The slice holds exactly the entries of the book under some ids. */
  ghost predicate Entries(ls: seq<LocalTrade>, ids: set<Ids>, local: LocalBook)
    requires ids <= local.Keys
  {
    (forall l :: l in ls ==> ShownIds(l) in ids && local[ShownIds(l)] == l) && forall i :: i in ids ==> local[i] in ls
  }

  /** Then it shows the rows those ids stand for. */
  lemma EntriesShow(ls: seq<LocalTrade>, ids: set<Ids>, local: LocalBook, ts: set<TradeKey>,
                    hour: map<TradeKey, TradeRow>, day: int)
    requires ids <= local.Keys && Entries(ls, ids, local) && ts <= hour.Keys && forall t :: t in ts ==> t.day == day
    requires forall i :: i in ids <==> TradeKey(i.tradeId, i.orderId, day) in ts
    requires forall i :: i in ids ==>
               var t := TradeKey(i.tradeId, i.orderId, day); t in hour && Shows(local[i], t, hour[t])
    ensures ShowsAll(ls, ts, hour)
  {
    hide Shows;
    forall l | l in ls ensures exists t :: t in ts && t in hour && Shows(l, t, hour[t]) {
      var t := TradeKey(l.tradeId, l.orderId, day);
      assert t in ts && Shows(local[ShownIds(l)], t, hour[t]);
    }
    forall t | t in ts ensures t in hour && exists l :: l in ls && Shows(l, t, hour[t]) {
      var i := Ids(t.tradeId, t.orderId);
      assert TradeKey(i.tradeId, i.orderId, day) == t;
      assert local[i] in ls;
    }
  }

  function UnsettledIds(core: seq<TradeMsg>, local: LocalBook): (ids: set<Ids>)
    ensures ids <= local.Keys
  {
    set i | i in local && !local[i].settled && exists m :: m in core && IdsOf(m) == i
  }

  lemma UnsettledEntries(core: seq<TradeMsg>, local: LocalBook)
    requires forall i :: i in local ==> ShownIds(local[i]) == i
    ensures Entries(Unsettled(core, local), UnsettledIds(core, local), local)
    ensures Distinct(core) ==> Once(Unsettled(core, local))
  {
    UnsettledFound(core, local);
    hide Unsettled, Distinct, Once;
  }

  lemma UnsettledKeys(core: seq<TradeMsg>, local: LocalBook, hour: map<TradeKey, TradeRow>, day: int)
    requires BookOf(local, hour, day)
    ensures forall i ::
              i in UnsettledIds(core, local) <==> TradeKey(i.tradeId, i.orderId, day) in NotYetSettled(core, hour)
  {
    BookShows(local, hour, day);
    MentionedIds(core);
    hide LocalOf, Shows, Mentioned;
    forall i
      ensures i in UnsettledIds(core, local) <==> TradeKey(i.tradeId, i.orderId, day) in NotYetSettled(core, hour)
    {
      var t := TradeKey(i.tradeId, i.orderId, day);
      assert Ids(t.tradeId, t.orderId) == i;
    }
  }

  lemma UnsettledExplained(core: seq<TradeMsg>, local: LocalBook, hour: map<TradeKey, TradeRow>, day: int)
    requires BookOf(local, hour, day)
    ensures ShowsAll(Unsettled(core, local), NotYetSettled(core, hour), hour)
    ensures Distinct(core) ==> Once(Unsettled(core, local))
  {
    BookShows(local, hour, day);
    UnsettledKeys(core, local, hour, day);
    UnsettledEntries(core, local);
    hide Unsettled, LocalOf, Distinct, Shows, Mentioned, Once, UnsettledIds, Entries, ShowsAll;
    assert forall t :: t in NotYetSettled(core, hour) ==> t in hour;
    hide NotYetSettled;
    EntriesShow(Unsettled(core, local), UnsettledIds(core, local), local, NotYetSettled(core, hour), hour, day);
  }

  lemma UnlistedExplained(remote: seq<LocalTrade>, core: seq<TradeMsg>, local: LocalBook,
                          hour: map<TradeKey, TradeRow>, day: int)
    requires BookOf(local, hour, day) && Lists(remote, Unlisted(core, local), local)
    ensures ShowsAll(remote, NotMentioned(core, hour), hour) && Once(remote)
  {
    BookShows(local, hour, day);
    hide Shows;
    UnlistedEntries(remote, core, local);
    MentionedIds(core);
    hide Lists, LocalOf, Mentioned, Once, Entries, ShowsAll;
    EntriesShow(remote, Unlisted(core, local), local, NotMentioned(core, hour), hour, day);
  }

  lemma UnlistedEntries(remote: seq<LocalTrade>, core: seq<TradeMsg>, local: LocalBook)
    requires Lists(remote, Unlisted(core, local), local) && forall i :: i in local ==> ShownIds(local[i]) == i
    ensures Entries(remote, Unlisted(core, local), local) && Once(remote)
  {
    var ids := Unlisted(core, local);
    PicksFound(ids, local);
    OnceInAnyOrder(remote, Picks(ids, local));
    hide Picks, Once, Unlisted;
    forall l ensures l in remote <==> l in Picks(ids, local) {
      assert l in multiset(remote) <==> l in multiset(Picks(ids, local));
    }
  }

  /** A diff of the Core's list with the book of the hour explains the hour. */
  lemma DiffExplains(d: TradeDiff, core: seq<TradeMsg>, local: LocalBook, trades: map<TradeKey, TradeRow>, day: int,
                     hour: int)
    requires IsDiff(d, core, local) && IsLocalBook(local, trades, day, hour)
    ensures Explains(d, core, HourOf(trades, day, hour), day)
  {
    hide *;
    LocalBookIs(local, trades, day, hour);
    BookExplains(d, core, local, HourOf(trades, day, hour), day);
  }

  lemma BookExplains(d: TradeDiff, core: seq<TradeMsg>, local: LocalBook, rows: map<TradeKey, TradeRow>, day: int)
    requires IsDiff(d, core, local) && BookOf(local, rows, day)
    ensures Explains(d, core, rows, day)
  {
    hide BookOf, MissingLocally, Mismatched, Unsettled, Lists, MissingIs, MismatchedIs, ShowsAll, Once, Distinct,
         NotYetSettled, NotMentioned;
    BookShows(local, rows, day);
    MissingExplained(core, local, rows, day);
    MismatchedExplained(core, local, rows, day);
    UnsettledExplained(core, local, rows, day);
    UnlistedExplained(d.missingRemotely, core, local, rows, day);
  }

  lemma {:induction false} NoneMissing(core: seq<TradeMsg>, local: LocalBook)
    ensures MissingLocally(core, local) == [] <==> forall m :: m in core ==> IdsOf(m) in local
    ensures MissingLocally(core, local) == [] ==>
              (Mismatched(core, local) == [] <==>
               forall m :: m in core ==> IdsOf(m) in local && CompareTrade(m, local[IdsOf(m)]) == [])
  {
    if core != [] {
      var front, m := core[..|core| - 1], core[|core| - 1];
      NoneMissing(front, local);
      assert core == front + [m];
      hide CompareTrade;
    }
  }

  lemma NoneUnlisted(core: seq<TradeMsg>, local: LocalBook)
    ensures |Unlisted(core, local)| == 0 <==> forall i :: i in local ==> exists m :: m in core && IdsOf(m) == i
  {
    if |Unlisted(core, local)| == 0 {
      forall i | i in local ensures exists m :: m in core && IdsOf(m) == i {
        assert i !in Unlisted(core, local);
      }
    }
  }

  /** A diff that is not divergent says exactly that the two sides list the same trades and agree on each. */
  lemma NotDivergentIff(d: TradeDiff, core: seq<TradeMsg>, local: LocalBook)
    requires IsDiff(d, core, local)
    ensures !d.Divergent() <==> SidesAgree(core, local)
  {
    hide CompareTrade, MissingLocally, Mismatched, Unsettled, Unlisted, Picks;
    NoneMissing(core, local);
    NoneUnlisted(core, local);
    assert |d.missingRemotely| == |multiset(d.missingRemotely)| == |multiset(Picks(Unlisted(core, local), local))| ==
        |Unlisted(core, local)|;
  }

  lemma AgreedTuple(m: TradeMsg, t: TradeKey, row: TradeRow)
    requires CompareTrade(m, LocalOf(t, row)) == [] && IdsOf(m) == Ids(t.tradeId, t.orderId)
    ensures CoreTuple(m) == TupleOf(t, row)
  {
    NoFieldsIff(m, t, row);
    hide Parse, CompareTrade, NumText;
  }

  /** The two sides list the same trades and agree on each. */
  ghost predicate SidesAgree(core: seq<TradeMsg>, local: LocalBook) {
    && (forall m :: m in core ==> IdsOf(m) in local && CompareTrade(m, local[IdsOf(m)]) == [])
    && (forall i :: i in local ==> exists m :: m in core && IdsOf(m) == i)
  }

  lemma CoreIsLocal(core: seq<TradeMsg>, local: LocalBook, trades: map<TradeKey, TradeRow>, day: int, hour: int,
                    m: TradeMsg)
    requires SidesAgree(core, local) && IsLocalBook(local, trades, day, hour) && m in core
    ensures CoreTuple(m) in HourRows(trades, day, hour)
  {
    hide CompareTrade, CoreTuple, InHour, LocalOf;
    var t := TradeKey(m.tradeId, m.orderId, day);
    assert t in HourKeys(trades, day, hour) && local[IdsOf(m)] == LocalOf(t, trades[t]);
    AgreedTuple(m, t, trades[t]);
  }

  lemma LocalIsCore(core: seq<TradeMsg>, local: LocalBook, trades: map<TradeKey, TradeRow>, day: int, hour: int,
                    t: TradeKey)
    requires SidesAgree(core, local) && IsLocalBook(local, trades, day, hour) && t in HourKeys(trades, day, hour)
    ensures t in trades && TupleOf(t, trades[t]) in CoreRows(core)
  {
    hide CompareTrade, CoreTuple, LocalOf;
    var i := Ids(t.tradeId, t.orderId);
    assert i in local && t == TradeKey(i.tradeId, i.orderId, day);
    var m :| m in core && IdsOf(m) == i;
    AgreedTuple(m, t, trades[t]);
  }

  lemma CoreWithin(core: seq<TradeMsg>, local: LocalBook, trades: map<TradeKey, TradeRow>, day: int, hour: int)
    requires SidesAgree(core, local) && IsLocalBook(local, trades, day, hour)
    ensures CoreRows(core) <= HourRows(trades, day, hour)
  {
    hide CoreTuple, HourRows, IsLocalBook, SidesAgree;
    forall m | m in core ensures CoreTuple(m) in HourRows(trades, day, hour) {
      CoreIsLocal(core, local, trades, day, hour, m);
    }
  }

  lemma HourWithin(core: seq<TradeMsg>, local: LocalBook, trades: map<TradeKey, TradeRow>, day: int, hour: int)
    requires SidesAgree(core, local) && IsLocalBook(local, trades, day, hour)
    ensures HourRows(trades, day, hour) <= CoreRows(core)
  {
    hide CoreRows, InHour, TupleOf, IsLocalBook, SidesAgree;
    forall t | t in HourKeys(trades, day, hour) ensures TupleOf(t, trades[t]) in CoreRows(core) {
      LocalIsCore(core, local, trades, day, hour, t);
    }
  }

  /** Sides that a diff finds no fault with have the same checksum rows. */
  lemma NotDivergentSameRows(d: TradeDiff, core: seq<TradeMsg>, local: LocalBook, trades: map<TradeKey, TradeRow>,
                             day: int, hour: int)
    requires IsDiff(d, core, local) && IsLocalBook(local, trades, day, hour) && !d.Divergent()
    ensures CoreRows(core) == HourRows(trades, day, hour)
  {
    hide *;
    NotDivergentIff(d, core, local);
    CoreWithin(core, local, trades, day, hour);
    HourWithin(core, local, trades, day, hour);
  }

  /**
  Whatever the hash functions and whichever version the Core speaks: when the Core's
  checksum covers the list it returns, an hour that does not match is divergent.
  */
  lemma MismatchIsExplained(h1: int -> Hash, h2: string -> Hash, modern: bool, d: TradeDiff, core: seq<TradeMsg>,
                            local: LocalBook, trades: map<TradeKey, TradeRow>, day: int, hour: int)
    requires IsDiff(d, core, local) && IsLocalBook(local, trades, day, hour)
    requires !CompareWith(h1, h2, HourRows(trades, day, hour), Report(h1, h2, CoreRows(core), modern)).matched
    ensures d.Divergent()
  {
    hide *;
    if !d.Divergent() {
      NotDivergentSameRows(d, core, local, trades, day, hour);
      EqualSetsMatch(h1, h2, CoreRows(core), modern);
    }
  }

  lemma CoreRowsSnoc(front: seq<TradeMsg>, m: TradeMsg)
    ensures CoreRows(front + [m]) == CoreRows(front) + {CoreTuple(m)}
  {
    hide CoreTuple;
    assert forall x :: x in front + [m] <==> x in front || x == m;
  }

  lemma FreshTuple(front: seq<TradeMsg>, m: TradeMsg)
    requires Distinct(front + [m])
    ensures CoreTuple(m) !in CoreRows(front)
  {
    hide Millionths;
    forall x | x in front ensures CoreTuple(x) != CoreTuple(m) {
      var i :| 0 <= i < |front| && front[i] == x;
      assert (front + [m])[i] == x && (front + [m])[|front|] == m;
    }
  }

  /** The Core's count is the length of its list. */
  lemma {:induction false} CoreCount(core: seq<TradeMsg>)
    requires Distinct(core)
    ensures |CoreRows(core)| == |core|
  {
    if core == [] {
      assert CoreRows(core) == {};
    } else {
      var front, m := core[..|core| - 1], core[|core| - 1];
      assert core == front + [m];
      CoreCount(front);
      CoreRowsSnoc(front, m);
      FreshTuple(front, m);
      hide CoreRows, CoreTuple;
    }
  }
}
