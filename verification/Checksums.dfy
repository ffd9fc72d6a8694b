/**
The reconciliation checksum: the text each trade contributes, the XOR over an hour, and
what a match of checksum and count does and does not say.

The two hash functions belong to the database and are parameters; only the lemmas that
say so assume anything about them.
*/
module Checksums {
  import opened Options
  import opened Decimals

  type Hash = bv64

  /** The columns of one trade that enter the version 2 checksum. */
  datatype Tuple = Tuple(tradeId: int, orderId: int, side: int, filled: int, rate: int)

  // ---------------------------------------------------------------- the hashed text

  /** trade_id || ':' || order_id || ':' || side || ':' || filled_quantity || ':' || execution_rate */
  function TupleText(t: Tuple): string {
    IntText(t.tradeId) + ":" + (IntText(t.orderId) + ":"
        + (IntText(t.side) + ":" + (NumText(t.filled) + ":" + NumText(t.rate))))
  }

  /** The text before the first colon and the text after it. */
  function Cut(s: string): Option<(string, string)> {
    var i := IndexOf(s, ':');
    if i < |s| then Some((s[..i], s[i + 1..])) else None
  }

  function ParseInt(s: string): Option<int> {
    var digits := if s != "" && s[0] == '-' then s[1..] else s;
    if digits == "" || !AllDigits(digits) then None else Some(Signed(s[0] == '-', Value(digits)))
  }

  function ParseColumn(s: string): Option<int> {
    match Parse(s)
    case None => None
    case Some(d) => Some(d / MICRO)
  }

  /** Reads a hashed text back into the tuple it was made from. */
  function ParseTuple(s: string): Option<Tuple> {
    match Cut(s)
    case None => None
    case Some((a, s1)) =>
      match Cut(s1)
      case None => None
      case Some((b, s2)) =>
        match Cut(s2)
        case None => None
        case Some((c, s3)) =>
          match Cut(s3)
          case None => None
          case Some((d, e)) =>
            match (ParseInt(a), ParseInt(b), ParseInt(c), ParseColumn(d), ParseColumn(e))
            case (Some(tradeId), Some(orderId), Some(side), Some(filled), Some(rate)) =>
              Some(Tuple(tradeId, orderId, side, filled, rate))
            case _ => None
  }

  lemma CutJoined(a: string, b: string)
    requires ':' !in a
    ensures Cut(a + ":" + b) == Some((a, b))
  {
    IndexAfter(a, ':', b);
    var s := a + ":" + b;
    assert s[..|a|] == a && s[|a| + 1..] == b;
  }

  lemma IntTextReads(i: int)
    ensures ParseInt(IntText(i)) == Some(i) && ':' !in IntText(i)
  {
    var digits := Digits(Abs(i));
    ValueOfDigits(Abs(i));
    DigitsHaveNo(digits, ':');
    assert IntText(i) == (if i < 0 then "-" else "") + digits;
    hide Digits, Value, IntText;
    SignedReads(i < 0, digits);
  }

  lemma SignedReads(negative: bool, digits: string)
    requires digits != "" && AllDigits(digits)
    ensures ParseInt((if negative then "-" else "") + digits) == Some(Signed(negative, Value(digits)))
  {
    hide Value;
    if negative {
      assert ("-" + digits)[1..] == digits;
    } else {
      assert "" + digits == digits;
    }
  }

  lemma NumTextReads(u: int)
    ensures ParseColumn(NumText(u)) == Some(u) && ':' !in NumText(u)
  {
    ParseOfNumText(u);
    DigitsHaveNo(Digits(Abs(u) / MILLION), ':');
    DigitsHaveNo(Padded(Abs(u) % MILLION, 6), ':');
    hide Parse, Digits, Padded;
  }

  /** The parser inverts the rendering. */
  lemma TupleTextReads(t: Tuple)
    ensures ParseTuple(TupleText(t)) == Some(t)
  {
    var s3 := NumText(t.filled) + ":" + NumText(t.rate);
    var s2 := IntText(t.side) + ":" + s3;
    var s1 := IntText(t.orderId) + ":" + s2;
    IntTextReads(t.tradeId);
    IntTextReads(t.orderId);
    IntTextReads(t.side);
    NumTextReads(t.filled);
    NumTextReads(t.rate);
    CutJoined(IntText(t.tradeId), s1);
    CutJoined(IntText(t.orderId), s2);
    CutJoined(IntText(t.side), s3);
    CutJoined(NumText(t.filled), NumText(t.rate));
    hide IntText, NumText, Cut, ParseInt, ParseColumn;
  }

  /** Different tuples are hashed from different texts. */
  lemma TupleTextInjective(t: Tuple, u: Tuple)
    requires TupleText(t) == TupleText(u)
    ensures t == u
  {
    TupleTextReads(t);
    TupleTextReads(u);
    hide *;
  }

  // ---------------------------------------------------------------- XOR over a set

  function Xor(a: Hash, b: Hash): Hash { a ^ b }

  lemma XorSwap(a: Hash, b: Hash, c: Hash)
    ensures Xor(a, Xor(b, c)) == Xor(b, Xor(a, c))
  {
  }

  lemma XorAssoc(a: Hash, b: Hash, c: Hash)
    ensures Xor(a, Xor(b, c)) == Xor(Xor(a, b), c)
  {
  }

  lemma XorComm(a: Hash, b: Hash)
    ensures Xor(a, b) == Xor(b, a)
  {
  }

  lemma XorUnit(a: Hash)
    ensures Xor(a, 0) == a
  {
  }

  lemma XorSelf(a: Hash)
    ensures Xor(a, a) == 0
  {
  }

  lemma XorCancel(i: Hash, a: Hash, b: Hash)
    ensures Xor(Xor(i, a), Xor(i, b)) == Xor(a, b)
  {
    hide Xor;
    XorComm(i, a);
    XorAssoc(a, i, Xor(i, b));
    XorAssoc(i, i, b);
    XorSelf(i);
    XorComm(0, b);
    XorUnit(b);
  }

  lemma XorZero(a: Hash, b: Hash)
    ensures a == b <==> Xor(a, b) == 0
    ensures Xor(a, 0) == a && Xor(a, b) == Xor(b, a)
  {
    hide Xor;
    XorComm(a, b);
    XorUnit(a);
    XorSelf(a);
    XorSelf(b);
    XorAssoc(a, b, b);
    XorComm(0, b);
    XorUnit(b);
  }

  /** bit_xor over the rows of an hour; the empty hour gives 0. */
  ghost function XorOver(f: Tuple -> Hash, s: set<Tuple>): Hash
    decreases |s|
  {
    if s == {} then 0 else
    var t :| t in s;
    Xor(f(t), XorOver(f, s - {t}))
  }

  /** The aggregate does not depend on the order the rows are visited in. */
  lemma {:induction false} XorPick(f: Tuple -> Hash, s: set<Tuple>, t: Tuple)
    requires t in s
    ensures XorOver(f, s) == Xor(f(t), XorOver(f, s - {t}))
    decreases |s|
  {
    hide Xor;
    var u :| u in s && XorOver(f, s) == Xor(f(u), XorOver(f, s - {u}));
    if u != t {
      XorPick(f, s - {u}, t);
      XorPick(f, s - {t}, u);
      assert s - {u} - {t} == s - {t} - {u};
      XorSwap(f(t), f(u), XorOver(f, s - {u} - {t}));
    }
  }

  lemma XorAdd(f: Tuple -> Hash, s: set<Tuple>, t: Tuple)
    requires t !in s
    ensures XorOver(f, s + {t}) == Xor(XorOver(f, s), f(t))
  {
    hide Xor, XorOver;
    XorPick(f, s + {t}, t);
    assert s + {t} - {t} == s;
    XorZero(f(t), XorOver(f, s));
  }

  lemma {:induction false} XorDisjoint(f: Tuple -> Hash, a: set<Tuple>, b: set<Tuple>)
    requires a !! b
    ensures XorOver(f, a + b) == Xor(XorOver(f, a), XorOver(f, b))
    decreases |b|
  {
    hide Xor;
    if b == {} {
      assert a + b == a;
      XorZero(XorOver(f, a), 0);
    } else {
      var t :| t in b;
      XorDisjoint(f, a, b - {t});
      XorPick(f, b, t);
      XorPick(f, a + b, t);
      assert a + b - {t} == a + (b - {t});
      XorSwap(f(t), XorOver(f, a), XorOver(f, b - {t}));
    }
  }

  /** Two checksums differ by the checksum of the rows on which the sides differ: common rows cancel. */
  lemma XorSymmetricDifference(f: Tuple -> Hash, a: set<Tuple>, b: set<Tuple>)
    ensures Xor(XorOver(f, a), XorOver(f, b)) == XorOver(f, (a - b) + (b - a))
  {
    hide Xor, XorOver;
    XorDisjoint(f, a * b, a - b);
    XorDisjoint(f, a * b, b - a);
    XorDisjoint(f, a - b, b - a);
    assert a * b + (a - b) == a && a * b + (b - a) == b;
    XorCancel(XorOver(f, a * b), XorOver(f, a - b), XorOver(f, b - a));
  }

  // ---------------------------------------------------------------- the two versions

  /** hashint8(trade_id) # hashint8(order_id), widened to BIGINT. */
  function V1(h1: int -> Hash): Tuple -> Hash { (t: Tuple) => Xor(h1(t.tradeId), h1(t.orderId)) }

  /** hashtextextended of the tuple text. */
  function V2(h2: string -> Hash): Tuple -> Hash { (t: Tuple) => h2(TupleText(t)) }

  /** The Core's answer; the newer fields are optional and zero is a value. */
  datatype CoreResponse = CoreResponse(hashCheck: Hash, hashV2: Option<Hash>, tradeCount: Option<int>)

  datatype Comparison = Comparison(local: Hash, remote: Hash, version: int, remoteTrades: int, matched: bool)

  /** compareChecksums: presence of both newer fields decides which version is compared. */
  function CompareChecksums(localV1: Hash, localV2: Hash, localTrades: int, resp: CoreResponse): Comparison {
    if resp.hashV2.None? || resp.tradeCount.None? then
      Comparison(localV1, resp.hashCheck, 1, -1, localV1 == resp.hashCheck)
    else
      Comparison(localV2, resp.hashV2.value, 2, resp.tradeCount.value,
                 localV2 == resp.hashV2.value && localTrades == resp.tradeCount.value)
  }

  /**
  Which checksums are compared: the tuple checksums and the counts when the Core sent both
  newer fields, whatever their values, and the id checksums otherwise.
  */
  lemma ComparesWhatWasSent(localV1: Hash, localV2: Hash, localTrades: int, resp: CoreResponse)
    ensures var c := CompareChecksums(localV1, localV2, localTrades, resp);
            if resp.hashV2.Some? && resp.tradeCount.Some? then
              c.version == 2 && c.local == localV2 && Some(c.remote) == resp.hashV2
              && Some(c.remoteTrades) == resp.tradeCount
              && (c.matched <==> c.local == c.remote && c.remoteTrades == localTrades)
            else
              c.version == 1 && c.local == localV1 && c.remote == resp.hashCheck && c.remoteTrades == -1
              && (c.matched <==> c.local == c.remote)
  {
  }

  /** The comparison of a local set of rows against an answer. */
  ghost function CompareWith(h1: int -> Hash, h2: string -> Hash, rows: set<Tuple>, resp: CoreResponse): Comparison {
    CompareChecksums(XorOver(V1(h1), rows), XorOver(V2(h2), rows), |rows|, resp)
  }

  /** What a Core holding `rows` answers; an older one sends only the id checksum. */
  ghost function Report(h1: int -> Hash, h2: string -> Hash, rows: set<Tuple>, modern: bool): CoreResponse {
    CoreResponse(XorOver(V1(h1), rows),
                 if modern then Some(XorOver(V2(h2), rows)) else None,
                 if modern then Some(|rows|) else None)
  }

  /** A version 2 match says exactly this much: equal counts, and the differing rows cancel. */
  lemma MatchIff(h1: int -> Hash, h2: string -> Hash, local: set<Tuple>, core: set<Tuple>)
    ensures CompareWith(h1, h2, local, Report(h1, h2, core, true)).matched <==>
              |local| == |core| && XorOver(V2(h2), (local - core) + (core - local)) == 0
  {
    hide Xor, XorOver, V1, V2;
    XorSymmetricDifference(V2(h2), local, core);
    XorZero(XorOver(V2(h2), local), XorOver(V2(h2), core));
  }

  /** Equal sets always match, at either version. */
  lemma EqualSetsMatch(h1: int -> Hash, h2: string -> Hash, rows: set<Tuple>, modern: bool)
    ensures CompareWith(h1, h2, rows, Report(h1, h2, rows, modern)).matched
  {
  }

  /** Version 2 sees every pure loss or surplus, whatever the hash: the counts differ. */
  lemma LossIsSeen(h1: int -> Hash, h2: string -> Hash, local: set<Tuple>, core: set<Tuple>)
    requires local < core || core < local
    ensures !CompareWith(h1, h2, local, Report(h1, h2, core, true)).matched
  {
    if local < core { SubsetIsSmaller(local, core); } else { SubsetIsSmaller(core, local); }
  }

  lemma SubsetIsSmaller(a: set<Tuple>, b: set<Tuple>)
    requires a < b
    ensures |a| < |b|
  {
    assert b == a + (b - a);
    assert |b - a| > 0;
  }

  /**
  Hours that differ in exactly one row's values are hashed from different texts, and match
  exactly when the hash collides on those two texts.
  */
  lemma OneChangedRowIsSeen(h1: int -> Hash, h2: string -> Hash, local: set<Tuple>, core: set<Tuple>, t: Tuple,
                            u: Tuple)
    requires local - core == {t} && core - local == {u}
    ensures TupleText(t) != TupleText(u)
    ensures CompareWith(h1, h2, local, Report(h1, h2, core, true)).matched <==> h2(TupleText(t)) == h2(TupleText(u))
  {
    hide Xor, TupleText, CompareWith, Report;
    MatchIff(h1, h2, local, core);
    SameSizes(local, core);
    assert t in local - core && u in core - local;
    if TupleText(t) == TupleText(u) { TupleTextInjective(t, u); assert false; }
    XorDisjoint(V2(h2), {t}, {u});
    XorSingle(V2(h2), t);
    XorSingle(V2(h2), u);
    XorZero(h2(TupleText(t)), h2(TupleText(u)));
  }

  lemma SameSizes(a: set<Tuple>, b: set<Tuple>)
    requires |a - b| == |b - a|
    ensures |a| == |b|
  {
    assert a == a * b + (a - b) && b == a * b + (b - a);
  }

  lemma XorSingle(f: Tuple -> Hash, t: Tuple)
    ensures XorOver(f, {t}) == f(t)
  {
    hide Xor;
    XorPick(f, {t}, t);
    assert {t} - {t} == {};
    XorZero(f(t), 0);
  }

  /** Version 1 compares nothing but the XOR of the ids. */
  lemma V1Compares(h1: int -> Hash, h2: string -> Hash, local: set<Tuple>, core: set<Tuple>)
    ensures CompareWith(h1, h2, local, Report(h1, h2, core, false)).matched <==>
              XorOver(V1(h1), local) == XorOver(V1(h1), core)
  {
    hide Xor, XorOver, V1, V2;
  }

  /** Version 1 cannot see a row whose two ids are equal. */
  lemma V1BlindToEqualIds(h1: int -> Hash, h2: string -> Hash, rows: set<Tuple>, t: Tuple)
    requires t !in rows && t.tradeId == t.orderId
    ensures CompareWith(h1, h2, rows, Report(h1, h2, rows + {t}, false)).matched
  {
    hide Xor, XorOver, V2, CompareWith, Report;
    V1Compares(h1, h2, rows, rows + {t});
    XorAdd(V1(h1), rows, t);
    XorZero(h1(t.tradeId), h1(t.orderId));
    XorZero(XorOver(V1(h1), rows), 0);
  }

  /** ... nor a pair of rows with the ids swapped. */
  lemma V1BlindToSwappedPair(h1: int -> Hash, h2: string -> Hash, rows: set<Tuple>, t: Tuple, u: Tuple)
    requires t !in rows && u !in rows && t != u && t.tradeId == u.orderId && t.orderId == u.tradeId
    ensures CompareWith(h1, h2, rows, Report(h1, h2, rows + {t} + {u}, false)).matched
  {
    hide Xor, XorOver, V2, CompareWith, Report;
    V1Compares(h1, h2, rows, rows + {t} + {u});
    XorAdd(V1(h1), rows, t);
    XorAdd(V1(h1), rows + {t}, u);
    var x, f := XorOver(V1(h1), rows), V1(h1)(t);
    XorZero(h1(t.tradeId), h1(t.orderId));
    XorAssoc(x, f, f);
    XorZero(f, f);
    XorZero(x, 0);
  }

  /** ... nor a changed side, quantity or rate. */
  lemma V1BlindToValues(h1: int -> Hash, h2: string -> Hash, rows: set<Tuple>, t: Tuple, u: Tuple)
    requires t !in rows && u !in rows && t.tradeId == u.tradeId && t.orderId == u.orderId
    ensures CompareWith(h1, h2, rows + {t}, Report(h1, h2, rows + {u}, false)).matched
  {
    hide Xor, XorOver, V2, CompareWith, Report;
    V1Compares(h1, h2, rows + {t}, rows + {u});
    XorAdd(V1(h1), rows, t);
    XorAdd(V1(h1), rows, u);
  }
}
