/** Rolling trade windows with incrementally maintained sums (market_data/state.py:86-123). */
module Rolling {
  import opened Wrappers
  import opened Models

  /** A trade as the accumulator keeps it, with the time it was received; `value` is its price times quantity. */
  datatype Row = Row(receivedNs: int, price: real, quantity: real, takerSide: TakerSide, value: real)

  function RowOf(receivedNs: int, trade: Payload): Row
    requires trade.BinanceAggTrade?
  {
    Row(receivedNs, trade.price, trade.quantity, trade.takerSide, trade.price * trade.quantity)
  }

  datatype Sums = Sums(buy: real, sell: real, total: real, notional: real)

  const ZERO := Sums(0.0, 0.0, 0.0, 0.0)

  function Plus(s: Sums, row: Row): Sums {
    Sums(if row.takerSide == BUY then s.buy + row.quantity else s.buy,
         if row.takerSide == BUY then s.sell else s.sell + row.quantity,
         s.total + row.quantity,
         s.notional + row.value)
  }

  function Minus(s: Sums, row: Row): Sums {
    Sums(if row.takerSide == BUY then s.buy - row.quantity else s.buy,
         if row.takerSide == BUY then s.sell else s.sell - row.quantity,
         s.total - row.quantity,
         s.notional - row.value)
  }

  /** The sums over `rows`, from scratch. */
  function SumsOf(rows: seq<Row>): Sums {
    if rows == [] then ZERO else Plus(SumsOf(rows[..|rows| - 1]), rows[|rows| - 1])
  }

  /** `rows` without its leading rows received before the cutoff. */
  function DropOld(rows: seq<Row>, cutoff: int): (kept: seq<Row>)
    ensures |kept| <= |rows|
  {
    if rows != [] && rows[0].receivedNs < cutoff then DropOld(rows[1..], cutoff) else rows
  }

  datatype Window = Window(seconds: int, rows: seq<Row>, sums: Sums)

  datatype WindowSnapshot = WindowSnapshot(windowSeconds: int, buyVolume: real, sellVolume: real, vwap: Option<real>)

  function Cutoff(seconds: int, nowNs: int): int { nowNs - seconds * 1_000_000_000 }

  /** What a window holds once it has forgotten everything too old at `nowNs`. */
  function Expire(w: Window, nowNs: int): Window {
    var kept := DropOld(w.rows, Cutoff(w.seconds, nowNs));
    Window(w.seconds, kept, SumsOf(kept))
  }

  function Add(w: Window, row: Row): Window {
    Expire(w.(rows := w.rows + [row]), row.receivedNs)
  }

  function Read(w: Window): WindowSnapshot {
    WindowSnapshot(w.seconds, w.sums.buy, w.sums.sell,
                   if w.sums.total != 0.0 then Some(w.sums.notional / w.sums.total) else None)
  }

  /** The running sums are those of the rows held. */
  predicate Exact(w: Window) {
    w.sums == SumsOf(w.rows)
  }

  lemma MinusPlus(s: Sums, a: Row, b: Row)
    ensures Minus(Plus(s, a), a) == s
    ensures Minus(Plus(s, a), b) == Plus(Minus(s, b), a)
  {
  }

  lemma {:induction false} SumsOfSnoc(rows: seq<Row>, row: Row)
    ensures SumsOf(rows + [row]) == Plus(SumsOf(rows), row)
  {
    assert (rows + [row])[..|rows|] == rows;
  }

  /** Taking the first row's contribution off the sums leaves the sums of the other rows. */
  lemma {:induction false} SumsOfTail(rows: seq<Row>)
    requires rows != []
    ensures SumsOf(rows[1..]) == Minus(SumsOf(rows), rows[0])
  {
    var front, last := rows[..|rows| - 1], rows[|rows| - 1];
    if |rows| == 1 {
      assert front == [] && rows[1..] == [];
      MinusPlus(ZERO, last, last);
    } else {
      SumsOfTail(front);
      assert rows[1..] == front[1..] + [last];
      SumsOfSnoc(front[1..], last);
      MinusPlus(SumsOf(front), last, rows[0]);
    }
  }

  class RollingAccumulator {
    const seconds: int
    var rows: seq<Row>
    var buyQuantity: real
    var sellQuantity: real
    var totalQuantity: real
    var notional: real

    constructor (seconds: int)
      ensures this.seconds == seconds && State() == Window(seconds, [], ZERO) && Exact(State())
    {
      this.seconds, rows := seconds, [];
      buyQuantity, sellQuantity, totalQuantity, notional := 0.0, 0.0, 0.0, 0.0;
    }

    ghost function State(): Window
      reads this
    {
      Window(seconds, rows, Sums(buyQuantity, sellQuantity, totalQuantity, notional))
    }

    method AddTrade(receivedNs: int, trade: Payload)
      requires trade.BinanceAggTrade? && Exact(State())
      modifies this
      ensures State() == Add(old(State()), RowOf(receivedNs, trade)) && Exact(State())
    {
      PushRow(RowOf(receivedNs, trade));
      ExpireRows(receivedNs);
    }

    /** The first half of `add`: keep the row and add its contribution. */
    method PushRow(row: Row)
      requires Exact(State())
      modifies this
      ensures rows == old(rows) + [row] && Exact(State())
    {
      SumsOfSnoc(rows, row);
      rows := rows + [row];
      if row.takerSide == BUY {
        buyQuantity := buyQuantity + row.quantity;
      } else {
        sellQuantity := sellQuantity + row.quantity;
      }
      totalQuantity := totalQuantity + row.quantity;
      notional := notional + row.value;
    }

    method ExpireRows(nowNs: int)
      requires Exact(State())
      modifies this
      ensures State() == Expire(old(State()), nowNs) && Exact(State())
    {
      var cutoff := nowNs - seconds * 1_000_000_000;
      while rows != [] && rows[0].receivedNs < cutoff
        invariant Exact(State())
        invariant DropOld(rows, cutoff) == DropOld(old(rows), cutoff)
        decreases |rows|
      {
        SumsOfTail(rows);
        PopRow();
      }
    }

    /** The body of the expiring loop: forget the oldest row and its contribution. */
    method PopRow()
      requires rows != []
      modifies this
      ensures rows == old(rows)[1..]
      ensures State().sums == Minus(old(State()).sums, old(rows)[0])
    {
      var row := rows[0];
      rows := rows[1..];
      if row.takerSide == BUY {
        buyQuantity := buyQuantity - row.quantity;
      } else {
        sellQuantity := sellQuantity - row.quantity;
      }
      totalQuantity := totalQuantity - row.quantity;
      notional := notional - row.value;
    }

    method Snapshot(nowNs: int) returns (s: WindowSnapshot)
      requires Exact(State())
      modifies this
      ensures State() == Expire(old(State()), nowNs) && Exact(State())
      ensures s == Read(State())
    {
      ExpireRows(nowNs);
      s := WindowSnapshot(seconds, buyQuantity, sellQuantity,
                          if totalQuantity != 0.0 then Some(notional / totalQuantity) else None);
    }
  }

  // A window against the plain history of its trades.

  lemma {:induction false} DropTwice(rows: seq<Row>, a: int, b: int)
    ensures DropOld(DropOld(rows, a), b) == DropOld(rows, if a < b then b else a)
  {
    if rows != [] && rows[0].receivedNs < a {
      DropTwice(rows[1..], a, b);
    }
  }

  lemma {:induction false} DropThenAppend(rows: seq<Row>, row: Row, cutoff: int)
    ensures DropOld(DropOld(rows, cutoff) + [row], cutoff) == DropOld(rows + [row], cutoff)
  {
    if rows != [] && rows[0].receivedNs < cutoff {
      DropThenAppend(rows[1..], row, cutoff);
      assert (rows + [row])[1..] == rows[1..] + [row];
    }
  }

  /**
   Two lists of rows that no read from cutoff `c` on can tell apart: dropping the leading rows older
   than any later cutoff leaves the same rows.
   */
  ghost predicate SameFrom(a: seq<Row>, b: seq<Row>, c: int) {
    forall later :: later >= c ==> DropOld(a, later) == DropOld(b, later)
  }

  /** The same trade received by both, each expiring by that trade's own time, keeps them alike. */
  lemma {:induction false} SameAfterAdd(a: seq<Row>, b: seq<Row>, row: Row, cutoff: int, c: int)
    requires SameFrom(a, b, c)
    ensures SameFrom(DropOld(a + [row], cutoff), DropOld(b + [row], cutoff), c)
  {
    forall later | later >= c
      ensures DropOld(DropOld(a + [row], cutoff), later) == DropOld(DropOld(b + [row], cutoff), later)
    {
      var most := if cutoff < later then later else cutoff;
      DropAfterAdd(a, row, cutoff, later, most);
      DropAfterAdd(b, row, cutoff, later, most);
      assert DropOld(a, most) == DropOld(b, most);
    }
  }

  lemma {:induction false} DropAfterAdd(rows: seq<Row>, row: Row, cutoff: int, later: int, most: int)
    requires most == if cutoff < later then later else cutoff
    ensures DropOld(DropOld(rows + [row], cutoff), later) == DropOld(DropOld(rows, most) + [row], most)
  {
    DropTwice(rows + [row], cutoff, later);
    DropThenAppend(rows, row, most);
  }

  /** A read by one side only goes unnoticed from its own cutoff on. */
  lemma {:induction false} SameAfterExtraRead(a: seq<Row>, b: seq<Row>, cutoff: int, c: int)
    requires SameFrom(a, b, c)
    ensures SameFrom(DropOld(a, cutoff), b, if c < cutoff then cutoff else c)
  {
    forall later | later >= c && later >= cutoff ensures DropOld(DropOld(a, cutoff), later) == DropOld(b, later) {
      DropTwice(a, cutoff, later);
    }
  }

  datatype WindowOp = Trade(row: Row) | ReadAt(nowNs: int)

  function TimeOf(op: WindowOp): int {
    match op
    case Trade(row) => row.receivedNs
    case ReadAt(nowNs) => nowNs
  }

  function RunWindow(seconds: int, ops: seq<WindowOp>): Window {
    if ops == [] then Window(seconds, [], ZERO)
    else
      var before := RunWindow(seconds, ops[..|ops| - 1]);
      match ops[|ops| - 1]
      case Trade(row) => Add(before, row)
      case ReadAt(nowNs) => Expire(before, nowNs)
  }

  /** Every trade ever added, oldest first. */
  function Trades(ops: seq<WindowOp>): seq<Row> {
    if ops == [] then []
    else
      match ops[|ops| - 1]
      case Trade(row) => Trades(ops[..|ops| - 1]) + [row]
      case ReadAt(_) => Trades(ops[..|ops| - 1])
  }

  lemma {:induction false} WindowTracksTrades(seconds: int, ops: seq<WindowOp>, latest: int)
    requires forall i :: 0 <= i < |ops| ==> TimeOf(ops[i]) <= latest
    ensures var w := RunWindow(seconds, ops);
            w.seconds == seconds && Exact(w) && SameFrom(w.rows, Trades(ops), Cutoff(seconds, latest))
  {
    if ops != [] {
      var front := ops[..|ops| - 1];
      WindowTracksTrades(seconds, front, latest);
      var before, c := RunWindow(seconds, front), Cutoff(seconds, latest);
      match ops[|ops| - 1] {
        case Trade(row) =>
          SameAfterAdd(before.rows, Trades(front), row, Cutoff(seconds, row.receivedNs), c);
          SameAfterExtraRead(Trades(front) + [row], Trades(front) + [row], Cutoff(seconds, row.receivedNs), c);
        case ReadAt(nowNs) =>
          SameAfterExtraRead(before.rows, Trades(front), Cutoff(seconds, nowNs), c);
      }
    }
  }

  /**
   After any mix of trades and reads, a read no earlier than all of them holds exactly the history
   of trades without its leading too-old rows, and its sums are the sums over those rows.
   */
  lemma {:induction false} WindowIsHistory(seconds: int, ops: seq<WindowOp>, nowNs: int)
    requires forall i :: 0 <= i < |ops| ==> TimeOf(ops[i]) <= nowNs
    ensures var w := Expire(RunWindow(seconds, ops), nowNs);
            && w.rows == DropOld(Trades(ops), Cutoff(seconds, nowNs))
            && w.sums == SumsOf(w.rows)
  {
    WindowTracksTrades(seconds, ops, nowNs);
  }

  ghost predicate NonDecreasing(rows: seq<Row>) {
    forall i, j :: 0 <= i < j < |rows| ==> rows[i].receivedNs <= rows[j].receivedNs
  }

  /** When trades are received in order, what is kept is exactly the trades inside the window. */
  lemma {:induction false} KeptIsWindow(rows: seq<Row>, cutoff: int)
    requires NonDecreasing(rows)
    ensures var dropped := |rows| - |DropOld(rows, cutoff)|;
            forall i :: 0 <= i < |rows| ==> (i >= dropped <==> rows[i].receivedNs >= cutoff)
  {
    if rows != [] && rows[0].receivedNs < cutoff {
      KeptIsWindow(rows[1..], cutoff);
      assert forall i :: 1 <= i < |rows| ==> rows[i] == rows[1..][i - 1];
    }
  }

  lemma {:induction false} BuyPlusSell(rows: seq<Row>)
    ensures SumsOf(rows).buy + SumsOf(rows).sell == SumsOf(rows).total
  {
    if rows != [] {
      BuyPlusSell(rows[..|rows| - 1]);
    }
  }

  /** A row with a positive quantity and a price between `lo` and `hi`. */
  predicate Priced(row: Row, lo: real, hi: real) {
    row.quantity > 0.0 && lo <= row.price <= hi && row.value == row.price * row.quantity
  }

  lemma ScaleBounds(row: Row, lo: real, hi: real)
    requires Priced(row, lo, hi)
    ensures lo * row.quantity <= row.value <= hi * row.quantity
  {
  }

  lemma ExtendBounds(lo: real, hi: real, total: real, notional: real, quantity: real, value: real)
    requires lo * total <= notional <= hi * total && lo * quantity <= value <= hi * quantity
    ensures lo * (total + quantity) <= notional + value <= hi * (total + quantity)
  {
  }

  predicate Bounded(s: Sums, lo: real, hi: real) {
    lo * s.total <= s.notional <= hi * s.total
  }

  lemma BoundedPlus(s: Sums, row: Row, lo: real, hi: real)
    requires Bounded(s, lo, hi) && Priced(row, lo, hi)
    ensures Bounded(Plus(s, row), lo, hi)
  {
    ScaleBounds(row, lo, hi);
    ExtendBounds(lo, hi, s.total, s.notional, row.quantity, row.value);
  }

  lemma {:induction false} NotionalBounded(rows: seq<Row>, lo: real, hi: real)
    requires forall i :: 0 <= i < |rows| ==> Priced(rows[i], lo, hi)
    ensures Bounded(SumsOf(rows), lo, hi)
  {
    if rows == [] {
    } else {
      NotionalBounded(rows[..|rows| - 1], lo, hi);
      BoundedPlus(SumsOf(rows[..|rows| - 1]), rows[|rows| - 1], lo, hi);
    }
  }

  lemma {:induction false} TotalPositive(rows: seq<Row>)
    requires forall i :: 0 <= i < |rows| ==> rows[i].quantity > 0.0
    ensures SumsOf(rows).total >= 0.0 && (rows != [] ==> SumsOf(rows).total > 0.0)
  {
    if rows != [] {
      TotalPositive(rows[..|rows| - 1]);
    }
  }

  lemma DivideBounds(lo: real, notional: real, hi: real, total: real)
    requires total > 0.0 && lo * total <= notional <= hi * total
    ensures lo <= notional / total <= hi
  {
    var q := notional / total;
    assert q * total == notional;
    if q < lo {
      ScaleStrict(q, lo, total);
    }
    if q > hi {
      ScaleStrict(hi, q, total);
    }
  }

  lemma ScaleStrict(a: real, b: real, quantity: real)
    requires a < b && quantity > 0.0
    ensures a * quantity < b * quantity
  {
  }

  /** With positive quantities the volume-weighted price exists and lies within the prices of the rows. */
  lemma VwapWithinPrices(w: Window, lo: real, hi: real)
    requires Exact(w) && w.rows != []
    requires forall i :: 0 <= i < |w.rows| ==> Priced(w.rows[i], lo, hi)
    ensures Read(w).vwap.Some? && lo <= Read(w).vwap.value <= hi
    ensures Read(w).buyVolume + Read(w).sellVolume == w.sums.total
  {
    NotionalBounded(w.rows, lo, hi);
    TotalPositive(w.rows);
    DivideBounds(lo, w.sums.notional, hi, w.sums.total);
    BuyPlusSell(w.rows);
  }

  // What an extra read changes.

  function AddAll(w: Window, rows: seq<Row>): Window {
    if rows == [] then w else Add(AddAll(w, rows[..|rows| - 1]), rows[|rows| - 1])
  }

  /** Dropping cuts off a beginning: `k` rows that are too old, up to one that is not. */
  lemma {:induction false} DropCuts(rows: seq<Row>, cutoff: int)
    ensures var k := |rows| - |DropOld(rows, cutoff)|;
            && DropOld(rows, cutoff) == rows[k..]
            && (forall i :: 0 <= i < k ==> rows[i].receivedNs < cutoff)
            && (k < |rows| ==> rows[k].receivedNs >= cutoff)
  {
    if rows != [] && rows[0].receivedNs < cutoff {
      DropCuts(rows[1..], cutoff);
      assert forall i :: 1 <= i < |rows| ==> rows[i] == rows[1..][i - 1];
    }
  }

  lemma {:induction false} CutIsDrop(rows: seq<Row>, k: nat, cutoff: int)
    requires k <= |rows| && (forall i :: 0 <= i < k ==> rows[i].receivedNs < cutoff)
    requires k < |rows| ==> rows[k].receivedNs >= cutoff
    ensures DropOld(rows, cutoff) == rows[k..]
  {
    if k > 0 {
      assert forall i :: 0 <= i < |rows| - 1 ==> rows[1..][i] == rows[i + 1];
      CutIsDrop(rows[1..], k - 1, cutoff);
    }
  }

  /** How many of the rows were there before the last `added` ones. */
  function OldCount(rows: seq<Row>, added: nat): nat {
    if |rows| > added then |rows| - added else 0
  }

  /**
   `a` is `b` without its first `j` rows, as an extra read with cutoff `c`, `added` rows ago, leaves it:
   the read took the leading rows older than `c` among those that were there. When it took all of them,
   later cutoffs may also have taken newer rows that the first row of `b` still shields.
   */
  ghost predicate Lags(a: seq<Row>, b: seq<Row>, added: nat, c: int, j: nat) {
    && j <= |b| && a == b[j..]
    && var past := OldCount(b, added);
       && (past == 0 ==> j == 0)
       && (forall i :: 0 <= i < j && i < past ==> b[i].receivedNs < c)
       && (j < past ==> b[j].receivedNs >= c)
       && (past > 0 ==> forall i :: past <= i < j ==> b[i].receivedNs < b[0].receivedNs)
  }

  lemma {:induction false} ReadLags(rows: seq<Row>, c: int)
    ensures Lags(DropOld(rows, c), rows, 0, c, |rows| - |DropOld(rows, c)|)
  {
    DropCuts(rows, c);
  }

  lemma {:induction false} AppendLags(a: seq<Row>, b: seq<Row>, added: nat, c: int, j: nat, row: Row)
    requires Lags(a, b, added, c, j)
    ensures Lags(a + [row], b + [row], added + 1, c, j)
  {
    assert (b + [row])[j..] == b[j..] + [row];
  }

  /** Both drop what is too old at a later cutoff, and while an old row stays the one still lags. */
  lemma {:induction false} DropLagsOld(a: seq<Row>, b: seq<Row>, added: nat, c: int, j: nat, cutoff: int, k: nat)
    returns (j': nat)
    requires Lags(a, b, added, c, j) && k < OldCount(b, added) && DropOld(b, cutoff) == b[k..]
    requires (forall i :: 0 <= i < k ==> b[i].receivedNs < cutoff) && b[k].receivedNs >= cutoff
    ensures Lags(DropOld(a, cutoff), b[k..], added, c, j')
  {
    var past := OldCount(b, added);
    if j < past && j <= k {
      CutIsDrop(a, k - j, cutoff);
      j' := 0;
    } else if j < past {
      CutIsDrop(a, 0, cutoff);
      j' := j - k;
      assert b[j..] == b[k..][j - k..];
    } else {
      DropCuts(a, cutoff);
      var m := |a| - |DropOld(a, cutoff)|;
      j' := j + m - k;
      assert a[m..] == b[k..][j'..];
      forall i | past - k <= i < j' ensures b[k..][i].receivedNs < b[k..][0].receivedNs {
        if i + k >= j {
          assert b[i + k] == a[i + k - j];
        }
      }
    }
  }

  /** Once no old row stays, the two are the same. */
  lemma {:induction false} DropLagsNew(a: seq<Row>, b: seq<Row>, added: nat, c: int, j: nat, cutoff: int, k: nat)
    requires Lags(a, b, added, c, j) && OldCount(b, added) <= k <= |b| && DropOld(b, cutoff) == b[k..]
    requires (forall i :: 0 <= i < k ==> b[i].receivedNs < cutoff) && (k < |b| ==> b[k].receivedNs >= cutoff)
    ensures DropOld(a, cutoff) == b[k..]
  {
    if OldCount(b, added) > 0 {
      assert j <= k;
      CutIsDrop(a, k - j, cutoff);
    }
  }

  lemma {:induction false} DropLags(a: seq<Row>, b: seq<Row>, added: nat, c: int, j: nat, cutoff: int) returns (j': nat)
    requires Lags(a, b, added, c, j)
    ensures Lags(DropOld(a, cutoff), DropOld(b, cutoff), added, c, j')
  {
    DropCuts(b, cutoff);
    var k := |b| - |DropOld(b, cutoff)|;
    if k < OldCount(b, added) {
      j' := DropLagsOld(a, b, added, c, j, cutoff, k);
    } else {
      DropLagsNew(a, b, added, c, j, cutoff, k);
      j' := 0;
    }
  }

  lemma {:induction false} AddAllLags(w: Window, atNs: int, rows: seq<Row>) returns (j: nat)
    ensures AddAll(w, rows).seconds == AddAll(Expire(w, atNs), rows).seconds == w.seconds
    ensures Lags(AddAll(Expire(w, atNs), rows).rows, AddAll(w, rows).rows, |rows|, Cutoff(w.seconds, atNs), j)
  {
    var c := Cutoff(w.seconds, atNs);
    if rows == [] {
      ReadLags(w.rows, c);
      j := |w.rows| - |DropOld(w.rows, c)|;
    } else {
      var front, row := rows[..|rows| - 1], rows[|rows| - 1];
      var a, b := AddAll(Expire(w, atNs), front), AddAll(w, front);
      j := AddAllLags(w, atNs, front);
      AppendLags(a.rows, b.rows, |front|, c, j, row);
      j := DropLags(a.rows + [row], b.rows + [row], |rows|, c, j, Cutoff(w.seconds, row.receivedNs));
    }
  }

  /** Of the rows before the last `added` ones none is left, or the first is not older than the cutoff. */
  predicate Unnoticed(kept: Window, added: nat, c: int) {
    |kept.rows| <= added || kept.rows[0].receivedNs >= c
  }

  /** The extra read leaves a list that differs exactly when it is noticed, and then it misses leading rows. */
  lemma LagsIff(a: seq<Row>, b: seq<Row>, added: nat, c: int, j: nat)
    requires Lags(a, b, added, c, j)
    ensures a == b <==> |b| <= added || b[0].receivedNs >= c
    ensures a == b <==> j == 0
  {
  }

  ghost predicate AllPositive(rows: seq<Row>) {
    forall i :: 0 <= i < |rows| ==> rows[i].quantity > 0.0
  }

  lemma {:induction false} SuffixTotal(rows: seq<Row>, j: nat)
    requires j <= |rows| && AllPositive(rows)
    ensures j == 0 || SumsOf(rows[j..]).total < SumsOf(rows).total
  {
    if j > 0 {
      SumsOfTail(rows);
      SuffixTotal(rows[1..], j - 1);
      assert rows[1..][j - 1..] == rows[j..];
    }
  }

  lemma {:induction false} AddAllPositive(w: Window, rows: seq<Row>)
    requires AllPositive(w.rows) && AllPositive(rows)
    ensures AllPositive(AddAll(w, rows).rows)
  {
    if rows != [] {
      var front, row := rows[..|rows| - 1], rows[|rows| - 1];
      AddAllPositive(w, front);
      DropCuts(AddAll(w, front).rows + [row], Cutoff(AddAll(w, front).seconds, row.receivedNs));
    }
  }

  /**
   Exactly when an extra read at any time goes unnoticed. Let a window be read at `atNs` and then receive
   trades; compared with a window that was not, a later read shows the same if and only if no row from
   before the extra read is left to show, or the first row is not older than the extra read's cutoff.
   */
  lemma {:induction false} ExtraReadShows(w: Window, atNs: int, rows: seq<Row>, nowNs: int)
    requires AllPositive(w.rows) && AllPositive(rows)
    ensures var kept := Expire(AddAll(w, rows), nowNs);
            Read(Expire(AddAll(Expire(w, atNs), rows), nowNs)) == Read(kept) <==>
            Unnoticed(kept, |rows|, Cutoff(w.seconds, atNs))
  {
    var j := AddAllLags(w, atNs, rows);
    var a, b, c := AddAll(Expire(w, atNs), rows), AddAll(w, rows), Cutoff(w.seconds, atNs);
    j := DropLags(a.rows, b.rows, |rows|, c, j, Cutoff(w.seconds, nowNs));
    var x, y := Expire(a, nowNs), Expire(b, nowNs);
    LagsIff(x.rows, y.rows, |rows|, c, j);
    AddAllPositive(w, rows);
    DropCuts(b.rows, Cutoff(w.seconds, nowNs));
    SuffixTotal(y.rows, j);
    BuyPlusSell(x.rows);
    BuyPlusSell(y.rows);
  }

  /** With no trade in between, the condition is one on the window before the read. */
  lemma {:induction false} EarlyReadHarmless(w: Window, atNs: int, nowNs: int)
    requires AllPositive(w.rows)
    ensures var kept := DropOld(w.rows, Cutoff(w.seconds, nowNs));
            Read(Expire(Expire(w, atNs), nowNs)) == Read(Expire(w, nowNs)) <==>
            kept == [] || kept[0].receivedNs >= Cutoff(w.seconds, atNs)
  {
    ExtraReadShows(w, atNs, [], nowNs);
  }

  // What the sums are sums of.

  function OnSide(rows: seq<Row>, side: TakerSide): seq<Row> {
    if rows == [] then []
    else (if rows[0].takerSide == side then [rows[0]] else []) + OnSide(rows[1..], side)
  }

  function Quantity(rows: seq<Row>): real {
    if rows == [] then 0.0 else rows[0].quantity + Quantity(rows[1..])
  }

  function Value(rows: seq<Row>): real {
    if rows == [] then 0.0 else rows[0].value + Value(rows[1..])
  }

  /** The running sums are the quantities bought, sold and traded, and the value traded. */
  lemma {:induction false} SumsMean(rows: seq<Row>)
    ensures SumsOf(rows) == Sums(Quantity(OnSide(rows, BUY)), Quantity(OnSide(rows, SELL)), Quantity(rows), Value(rows))
  {
    if rows != [] {
      SumsOfTail(rows);
      SumsMean(rows[1..]);
      SideStep(rows, BUY);
      SideStep(rows, SELL);
    }
  }

  lemma {:induction false} SideStep(rows: seq<Row>, side: TakerSide)
    requires rows != []
    ensures Quantity(OnSide(rows, side)) ==
            Quantity(OnSide(rows[1..], side)) + if rows[0].takerSide == side then rows[0].quantity else 0.0
  {
    var rest := OnSide(rows[1..], side);
    if rows[0].takerSide == side {
      assert ([rows[0]] + rest)[1..] == rest;
    } else {
      assert [] + rest == rest;
    }
  }

  /** A trade is kept with the time it was received, its price, quantity and side, and what it was worth. */
  lemma RowMeans(receivedNs: int, trade: Payload)
    requires trade.BinanceAggTrade?
    ensures var row := RowOf(receivedNs, trade);
            && row.receivedNs == receivedNs && row.price == trade.price && row.quantity == trade.quantity
            && row.takerSide == trade.takerSide && row.value == trade.price * trade.quantity
  {
  }

  /** What a read shows: the quantities bought and sold, and the value traded per quantity traded. */
  lemma ReadMeans(w: Window)
    requires Exact(w)
    ensures var shown := Read(w);
            && shown.windowSeconds == w.seconds
            && shown.buyVolume == Quantity(OnSide(w.rows, BUY)) && shown.sellVolume == Quantity(OnSide(w.rows, SELL))
            && (shown.vwap.Some? <==> Quantity(w.rows) != 0.0)
            && (shown.vwap.Some? ==> shown.vwap.value * Quantity(w.rows) == Value(w.rows))
  {
    SumsMean(w.rows);
  }

  /**
   When trades are received in order, a read shows exactly the trades received at most the window's length in
   seconds before it.
   */
  lemma {:induction false} WindowSpan(seconds: int, ops: seq<WindowOp>, nowNs: int)
    requires forall i :: 0 <= i < |ops| ==> TimeOf(ops[i]) <= nowNs
    requires NonDecreasing(Trades(ops))
    ensures var all, kept := Trades(ops), Expire(RunWindow(seconds, ops), nowNs).rows;
            && |kept| <= |all| && kept == all[|all| - |kept|..]
            && (forall i :: 0 <= i < |all| ==>
                  (i >= |all| - |kept| <==> nowNs - all[i].receivedNs <= seconds * 1_000_000_000))
  {
    WindowIsHistory(seconds, ops, nowNs);
    KeptIsWindow(Trades(ops), Cutoff(seconds, nowNs));
    DropCuts(Trades(ops), Cutoff(seconds, nowNs));
  }
}
