/** Average-cost spot inventory updated in place by fills, and what it conserves. */
module PositionEngine {
  import opened Foundation

  /** BUY or SELL in any accepted spelling, or a text that is neither. */
  datatype FillSide = Buy | Sell | Unknown(text: string)

  datatype Fill = Fill(side: FillSide, baseSize: real, quoteSize: real, price: real, fee: real)

  /** Remaining base at or below this is written off as dust. */
  const DUST: real := 0.000000000000000001

  /** The numeric fields of a position. */
  datatype Ledger = Ledger(base: real, quote: real, avg: real, realized: real, fees: real)

  const EMPTY := Ledger(0.0, 0.0, 0.0, 0.0, 0.0)

  function FeeOf(f: Fill): real { MaxReal(0.0, f.fee) }

  function AfterBuy(p: Ledger, f: Fill): Ledger
  {
    var base, quote := p.base + f.baseSize, p.quote + (f.quoteSize + FeeOf(f));
    Ledger(base, quote, if base > 0.0 then quote / base else p.avg, p.realized, p.fees + FeeOf(f))
  }

  /** A sell never takes more than is held; what is left at or below the dust threshold is dropped. */
  function AfterSell(p: Ledger, sold: real, price: real, fee: real): Ledger
  {
    var base, quote := p.base - sold, p.quote - p.avg * sold;
    var realized, fees := p.realized + ((price - p.avg) * sold - fee), p.fees + fee;
    if base <= DUST then Ledger(0.0, 0.0, 0.0, realized, fees) else Ledger(base, quote, quote / base, realized, fees)
  }

  function Apply(p: Ledger, f: Fill): Ledger
  {
    if f.baseSize <= 0.0 then p
    else match f.side
      case Unknown(_) => p
      case Buy => AfterBuy(p, f)
      case Sell =>
        var sold := MinReal(f.baseSize, p.base);
        if sold <= 0.0 then p else AfterSell(p, sold, f.price, FeeOf(f))
  }

  function ApplyAll(p: Ledger, fs: seq<Fill>): Ledger
  {
    if fs == [] then p else Apply(ApplyAll(p, fs[..|fs| - 1]), fs[|fs| - 1])
  }

  class PositionState {
    const asset: string
    var baseSize: real
    var quoteSpent: real
    var avgEntryPrice: real
    var realizedPnl: real
    var feesPaid: real

    function View(): Ledger
      reads this
    {
      Ledger(baseSize, quoteSpent, avgEntryPrice, realizedPnl, feesPaid)
    }

    constructor (asset: string, v: Ledger)
      ensures View() == v && this.asset == asset
    {
      this.asset := asset;
      baseSize, quoteSpent, avgEntryPrice, realizedPnl, feesPaid := v.base, v.quote, v.avg, v.realized, v.fees;
    }

    /** Applies a fill in place; false reports an unknown side, which changes nothing. */
    method UpdateFromFill(f: Fill) returns (known: bool)
      modifies this
      ensures View() == Apply(old(View()), f)
      ensures known == (f.baseSize <= 0.0 || !f.side.Unknown?)
    {
      if f.baseSize <= 0.0 {
        return true;
      }
      if f.side.Unknown? {
        return false;
      }
      known := true;
      var fee := MaxReal(0.0, f.fee);
      if f.side == Buy {
        baseSize := baseSize + f.baseSize;
        quoteSpent := quoteSpent + (f.quoteSize + fee);
        feesPaid := feesPaid + fee;
        if baseSize > 0.0 {
          avgEntryPrice := quoteSpent / baseSize;
        }
        return;
      }
      var sold := MinReal(f.baseSize, baseSize);
      if sold <= 0.0 {
        return;
      }
      var avg := avgEntryPrice;
      realizedPnl := realizedPnl + ((f.price - avg) * sold - fee);
      feesPaid := feesPaid + fee;
      baseSize := baseSize - sold;
      quoteSpent := quoteSpent - avg * sold;
      if baseSize <= DUST {
        baseSize, quoteSpent, avgEntryPrice := 0.0, 0.0, 0.0;
      } else {
        avgEntryPrice := quoteSpent / baseSize;
      }
    }

    /** One aggregated exit; returns the net PnL it realized. */
    method NetExitFromFills(sellQuoteNotional: real, sellFee: real, soldBase: real) returns (net: real)
      modifies this
      ensures View() == NetExit(old(View()), sellQuoteNotional, sellFee, soldBase)
      ensures net == realizedPnl - old(realizedPnl)
    {
      if soldBase <= 0.0 {
        return 0.0;
      }
      var px := sellQuoteNotional / soldBase;
      var r0 := realizedPnl;
      var _ := UpdateFromFill(Fill(Sell, soldBase, sellQuoteNotional, px, sellFee));
      net := realizedPnl - r0;
    }
  }

  function NetExit(p: Ledger, notional: real, fee: real, soldBase: real): Ledger
  {
    if soldBase <= 0.0 then p else Apply(p, Fill(Sell, soldBase, notional, notional / soldBase, fee))
  }

  function UnrealizedPnl(p: Ledger, price: real): real
  {
    if p.base <= 0.0 then 0.0 else (price - p.avg) * p.base
  }

  function TotalPnl(p: Ledger, price: real): real { p.realized + UnrealizedPnl(p, price) }

  // ----- the invariant -----

  /** Cost basis is average price times inventory, inventory is never negative, a flat position is clean. */
  predicate Sound(p: Ledger)
  {
    && p.base >= 0.0
    && p.quote == p.avg * p.base
    && (p.base == 0.0 ==> p.avg == 0.0)
  }

  lemma BuyKeepsSound(p: Ledger, f: Fill)
    requires Sound(p) && f.baseSize > 0.0
    ensures Sound(AfterBuy(p, f))
  {
  }

  /** Sells leave the average entry price alone until the position is flat. */
  lemma SellKeepsAverage(p: Ledger, sold: real, price: real, fee: real)
    requires Sound(p) && 0.0 < sold <= p.base
    ensures var q := AfterSell(p, sold, price, fee);
      Sound(q) && q.avg == if q.base == 0.0 then 0.0 else p.avg
  {
    var base := p.base - sold;
    assert p.quote - p.avg * sold == p.avg * base;
    if base > DUST {
      assert p.avg * base / base == p.avg;
    }
  }

  lemma ApplyKeepsSound(p: Ledger, f: Fill)
    requires Sound(p)
    ensures Sound(Apply(p, f))
  {
    if f.baseSize > 0.0 {
      match f.side
      case Unknown(_) =>
      case Buy => BuyKeepsSound(p, f);
      case Sell =>
        var sold := MinReal(f.baseSize, p.base);
        if sold > 0.0 {
          SellKeepsAverage(p, sold, f.price, FeeOf(f));
        }
    }
  }

  // ----- conservation -----

  /** Cash that a fill moves: quote plus fee out on a buy, price times sold minus fee in on a sell. */
  function CashFlow(p: Ledger, f: Fill): real
  {
    if f.baseSize <= 0.0 then 0.0
    else match f.side
      case Unknown(_) => 0.0
      case Buy => -(f.quoteSize + FeeOf(f))
      case Sell =>
        var sold := MinReal(f.baseSize, p.base);
        if sold <= 0.0 then 0.0 else f.price * sold - FeeOf(f)
  }

  /** Cost basis that a fill drops together with a dust remainder. */
  function WriteOff(p: Ledger, f: Fill): real
  {
    if f.baseSize <= 0.0 || f.side != Sell then 0.0
    else
      var rest := p.base - MinReal(f.baseSize, p.base);
      if rest <= DUST && p.base > 0.0 then p.avg * rest else 0.0
  }

  function NetCash(p: Ledger, fs: seq<Fill>): real
  {
    if fs == [] then 0.0
    else NetCash(p, fs[..|fs| - 1]) + CashFlow(ApplyAll(p, fs[..|fs| - 1]), fs[|fs| - 1])
  }

  function WrittenOff(p: Ledger, fs: seq<Fill>): real
  {
    if fs == [] then 0.0
    else WrittenOff(p, fs[..|fs| - 1]) + WriteOff(ApplyAll(p, fs[..|fs| - 1]), fs[|fs| - 1])
  }

  lemma SellConserves(p: Ledger, sold: real, price: real, fee: real)
    requires Sound(p) && 0.0 < sold <= p.base
    ensures var q := AfterSell(p, sold, price, fee);
      q.realized - q.quote == p.realized - p.quote + (price * sold - fee)
        + (if p.base - sold <= DUST then p.avg * (p.base - sold) else 0.0)
  {
    assert (price - p.avg) * sold == price * sold - p.avg * sold;
    assert p.avg * (p.base - sold) == p.avg * p.base - p.avg * sold;
  }

  /** One fill moves realized PnL less cost basis by its cash flow and any dust written off. */
  lemma FillConserves(p: Ledger, f: Fill)
    requires Sound(p)
    ensures var q := Apply(p, f);
      q.realized - q.quote == p.realized - p.quote + CashFlow(p, f) + WriteOff(p, f)
  {
    if f.baseSize > 0.0 && f.side == Sell {
      var sold := MinReal(f.baseSize, p.base);
      if sold > 0.0 {
        SellConserves(p, sold, f.price, FeeOf(f));
      }
    }
  }

  lemma {:induction false} CashIsConserved(fs: seq<Fill>)
    ensures var p := ApplyAll(EMPTY, fs);
      Sound(p) && p.realized - p.quote == NetCash(EMPTY, fs) + WrittenOff(EMPTY, fs)
  {
    if fs != [] {
      var before := fs[..|fs| - 1];
      CashIsConserved(before);
      var p, f := ApplyAll(EMPTY, before), fs[|fs| - 1];
      ApplyKeepsSound(p, f);
      FillConserves(p, f);
    }
  }

  /** At every mark price total PnL is that cash plus the inventory at the mark. */
  ghost predicate WorthCashAndInventory(p: Ledger, cash: real)
  {
    forall mark :: TotalPnl(p, mark) == cash + p.base * mark
  }

  lemma SoundLedgerIsWorth(p: Ledger, cash: real)
    requires Sound(p) && p.realized - p.quote == cash
    ensures WorthCashAndInventory(p, cash)
  {
    forall mark ensures TotalPnl(p, mark) == cash + p.base * mark {
      assert (mark - p.avg) * p.base == p.base * mark - p.avg * p.base;
    }
  }

  /**
   Conservation over any sequence of fills from an empty position: at every mark price total PnL is the
   net cash moved plus the inventory at the mark, exactly, but for the cost basis written off as dust.
   */
  lemma LedgerConservesCash(fs: seq<Fill>)
    ensures WorthCashAndInventory(ApplyAll(EMPTY, fs), NetCash(EMPTY, fs) + WrittenOff(EMPTY, fs))
  {
    CashIsConserved(fs);
    SoundLedgerIsWorth(ApplyAll(EMPTY, fs), NetCash(EMPTY, fs) + WrittenOff(EMPTY, fs));
  }

  lemma SmallProduct(k: real, x: real, y: real)
    requires k >= 0.0 && 0.0 <= x <= y
    ensures 0.0 <= k * x <= k * y
  {
  }

  /** A single write-off lies between zero and the average price times the dust threshold, whatever its sign. */
  lemma WriteOffIsDust(p: Ledger, f: Fill)
    requires Sound(p)
    ensures if p.avg >= 0.0 then 0.0 <= WriteOff(p, f) <= p.avg * DUST else p.avg * DUST <= WriteOff(p, f) <= 0.0
  {
    var rest := DroppedBase(p, f);
    DustProduct(WriteOff(p, f), p.avg, rest);
  }

  /** The base that a sell drops as dust. */
  lemma DroppedBase(p: Ledger, f: Fill) returns (rest: real)
    requires Sound(p)
    ensures 0.0 <= rest <= DUST && WriteOff(p, f) == p.avg * rest
  {
    var left := p.base - MinReal(f.baseSize, p.base);
    rest := if f.baseSize <= 0.0 || f.side != Sell || left > DUST || p.base <= 0.0 then 0.0 else left;
  }

  lemma DustProduct(w: real, k: real, x: real)
    requires w == k * x && 0.0 <= x <= DUST
    ensures if k >= 0.0 then 0.0 <= w <= k * DUST else k * DUST <= w <= 0.0
  {
    SmallProduct(if k >= 0.0 then k else -k, x, DUST);
    assert (-k) * x == -(k * x);
  }

  /** A buy pays something between nothing and the given cost for each unit, fee included. */
  predicate PaysAtMost(f: Fill, cost: real)
  {
    f.side == Buy && f.baseSize > 0.0 ==> 0.0 <= f.quoteSize + FeeOf(f) <= cost * f.baseSize
  }

  lemma MeanStaysBetween(q: real, b: real, paid: real, size: real, cost: real)
    requires b >= 0.0 && size > 0.0 && 0.0 <= q <= cost * b && 0.0 <= paid <= cost * size
    ensures 0.0 <= (q + paid) / (b + size) <= cost
  {
    assert cost * b + cost * size == cost * (b + size);
    DivideMonotone(0.0, q + paid, b + size);
    DivideMonotone(q + paid, cost * (b + size), b + size);
    assert cost * (b + size) / (b + size) == cost;
  }

  lemma BuyAverageStaysBetween(p: Ledger, f: Fill, cost: real)
    requires Sound(p) && 0.0 <= p.avg <= cost && PaysAtMost(f, cost) && f.side == Buy && f.baseSize > 0.0
    ensures 0.0 <= AfterBuy(p, f).avg <= cost
  {
    SmallProduct(p.base, p.avg, cost);
    MeanStaysBetween(p.quote, p.base, f.quoteSize + FeeOf(f), f.baseSize, cost);
  }

  /** A sell keeps the average or, when flat, drops it. */
  lemma SellAverage(p: Ledger, f: Fill)
    requires Sound(p) && f.side == Sell
    ensures Apply(p, f).avg == p.avg || Apply(p, f).avg == 0.0
  {
    var sold := MinReal(f.baseSize, p.base);
    if f.baseSize > 0.0 && sold > 0.0 {
      SellKeepsAverage(p, sold, f.price, FeeOf(f));
    }
  }

  /** No fill lifts the average entry price over the highest unit cost paid, or takes it below zero. */
  lemma AverageStaysBetween(p: Ledger, f: Fill, cost: real)
    requires Sound(p) && 0.0 <= p.avg <= cost && PaysAtMost(f, cost)
    ensures 0.0 <= Apply(p, f).avg <= cost
  {
    if f.side == Buy && f.baseSize > 0.0 {
      BuyAverageStaysBetween(p, f, cost);
    } else if f.side == Sell {
      SellAverage(p, f);
    }
  }

  function Sells(fs: seq<Fill>): nat
  {
    if fs == [] then 0 else Sells(fs[..|fs| - 1]) + (if fs[|fs| - 1].side == Sell then 1 else 0)
  }

  /** A unit for each sell. */
  function Allowance(fs: seq<Fill>, unit: real): real
  {
    if fs == [] then 0.0 else Allowance(fs[..|fs| - 1], unit) + (if fs[|fs| - 1].side == Sell then unit else 0.0)
  }

  lemma {:induction false} AllowanceCounted(fs: seq<Fill>, unit: real)
    ensures Allowance(fs, unit) == Sells(fs) as real * unit
  {
    if fs != [] {
      AllowanceCounted(fs[..|fs| - 1], unit);
      OneMore(Sells(fs[..|fs| - 1]), unit);
    }
  }

  predicate PayAtMost(fs: seq<Fill>, cost: real) { forall i :: 0 <= i < |fs| ==> PaysAtMost(fs[i], cost) }

  lemma {:induction false} RunAverageStaysBetween(fs: seq<Fill>, cost: real)
    requires cost >= 0.0 && PayAtMost(fs, cost)
    ensures Sound(ApplyAll(EMPTY, fs)) && 0.0 <= ApplyAll(EMPTY, fs).avg <= cost
  {
    if fs != [] {
      var before, f := fs[..|fs| - 1], fs[|fs| - 1];
      RunAverageStaysBetween(before, cost);
      assert PaysAtMost(f, cost);
      ApplyKeepsSound(ApplyAll(EMPTY, before), f);
      AverageStaysBetween(ApplyAll(EMPTY, before), f, cost);
    }
  }

  lemma WriteOffIsCheap(p: Ledger, f: Fill, cost: real)
    requires Sound(p) && 0.0 <= p.avg <= cost
    ensures 0.0 <= WriteOff(p, f) <= cost * DUST && (f.side != Sell ==> WriteOff(p, f) == 0.0)
  {
    WriteOffIsDust(p, f);
    SmallProduct(DUST, p.avg, cost);
  }

  lemma {:induction false} WrittenOffWithin(fs: seq<Fill>, cost: real)
    requires cost >= 0.0 && PayAtMost(fs, cost)
    ensures 0.0 <= WrittenOff(EMPTY, fs) <= Allowance(fs, cost * DUST)
  {
    if fs != [] {
      var before := fs[..|fs| - 1];
      WrittenOffWithin(before, cost);
      RunAverageStaysBetween(before, cost);
      WriteOffIsCheap(ApplyAll(EMPTY, before), fs[|fs| - 1], cost);
    }
  }

  /** What one unit of a buy costs, fee included. */
  function UnitCost(f: Fill): real
  {
    if f.side == Buy && f.baseSize > 0.0 then (f.quoteSize + FeeOf(f)) / f.baseSize else 0.0
  }

  /** The dearest unit bought, 0 when nothing was. */
  function Dearest(fs: seq<Fill>): (d: real)
    ensures d >= 0.0
  {
    if fs == [] then 0.0 else MaxReal(Dearest(fs[..|fs| - 1]), UnitCost(fs[|fs| - 1]))
  }

  lemma QuotientBound(x: real, d: real, cost: real)
    requires d > 0.0 && x / d <= cost
    ensures x <= cost * d
  {
    assert x / d * d == x;
  }

  lemma UnitCostIsPaid(f: Fill, cost: real)
    requires cost >= UnitCost(f) && f.quoteSize >= 0.0
    ensures PaysAtMost(f, cost)
  {
    if f.side == Buy && f.baseSize > 0.0 {
      QuotientBound(f.quoteSize + FeeOf(f), f.baseSize, cost);
    }
  }

  lemma {:induction false} DearestIsDearest(fs: seq<Fill>, i: nat)
    requires i < |fs|
    ensures UnitCost(fs[i]) <= Dearest(fs)
  {
    if i < |fs| - 1 {
      DearestIsDearest(fs[..|fs| - 1], i);
    }
  }

  predicate NonNegativeQuotes(fs: seq<Fill>) { forall i :: 0 <= i < |fs| ==> fs[i].quoteSize >= 0.0 }

  lemma DearestIsPaid(fs: seq<Fill>, cost: real)
    requires cost >= Dearest(fs) && NonNegativeQuotes(fs)
    ensures PayAtMost(fs, cost)
  {
    forall i | 0 <= i < |fs| ensures PaysAtMost(fs[i], cost) {
      DearestIsDearest(fs, i);
      UnitCostIsPaid(fs[i], cost);
    }
  }

  /**
   Dust over a whole run, for fills with non-negative quotes and any cost from the dearest unit bought upwards:
   the average entry price is never negative nor over that cost, and the cost basis written off lies between
   zero and that cost times the dust threshold for each sell.
   */
  lemma RunWritesOffDust(fs: seq<Fill>, cost: real)
    requires NonNegativeQuotes(fs) && cost >= Dearest(fs)
    ensures 0.0 <= ApplyAll(EMPTY, fs).avg <= cost
    ensures 0.0 <= WrittenOff(EMPTY, fs) <= Sells(fs) as real * (cost * DUST)
  {
    DearestIsPaid(fs, cost);
    RunAverageStaysBetween(fs, cost);
    WrittenOffPerSell(fs, cost);
  }

  lemma WrittenOffPerSell(fs: seq<Fill>, cost: real)
    requires cost >= 0.0 && PayAtMost(fs, cost)
    ensures 0.0 <= WrittenOff(EMPTY, fs) <= Sells(fs) as real * (cost * DUST)
  {
    WrittenOffWithin(fs, cost);
    AllowanceCounted(fs, cost * DUST);
  }

  // ----- inventory, fees and profit -----

  /** Base that a fill brings in: a buy of a positive size. */
  function BoughtBy(f: Fill): real { if f.baseSize > 0.0 && f.side == Buy then f.baseSize else 0.0 }

  /** Base that a fill takes out: a sell, of no more than is held. */
  function SoldBy(held: real, f: Fill): real
  {
    if f.baseSize > 0.0 && f.side == Sell then MinReal(f.baseSize, held) else 0.0
  }

  /** Base that is dropped as dust after a sell. */
  function DroppedBy(held: real, f: Fill): real
  {
    var left := held - SoldBy(held, f);
    if SoldBy(held, f) > 0.0 && left <= DUST then left else 0.0
  }

  /** A fill takes effect: a buy, or a sell while something is held. */
  predicate TakesEffect(held: real, f: Fill)
  {
    f.baseSize > 0.0 && (f.side == Buy || (f.side == Sell && held > 0.0))
  }

  /** One fill: what comes in, goes out and is dropped, the fee, and profit on sells alone. */
  lemma FillMoves(p: Ledger, f: Fill)
    requires Sound(p)
    ensures var q := Apply(p, f);
      && q.base == p.base + BoughtBy(f) - SoldBy(p.base, f) - DroppedBy(p.base, f)
      && q.fees == p.fees + (if TakesEffect(p.base, f) then FeeOf(f) else 0.0)
      && (SoldBy(p.base, f) <= 0.0 ==> q.realized == p.realized)
      && (SoldBy(p.base, f) > 0.0 ==> q.realized == p.realized + (f.price - p.avg) * SoldBy(p.base, f) - FeeOf(f))
  {
  }

  function Bought(fs: seq<Fill>): real
  {
    if fs == [] then 0.0 else Bought(fs[..|fs| - 1]) + BoughtBy(fs[|fs| - 1])
  }

  function HeldBefore(fs: seq<Fill>): real
    requires fs != []
  {
    ApplyAll(EMPTY, fs[..|fs| - 1]).base
  }

  function Sold(fs: seq<Fill>): real
  {
    if fs == [] then 0.0 else Sold(fs[..|fs| - 1]) + SoldBy(HeldBefore(fs), fs[|fs| - 1])
  }

  function Dropped(fs: seq<Fill>): real
  {
    if fs == [] then 0.0 else Dropped(fs[..|fs| - 1]) + DroppedBy(HeldBefore(fs), fs[|fs| - 1])
  }

  function FeesOfEffective(fs: seq<Fill>): real
  {
    if fs == [] then 0.0
    else FeesOfEffective(fs[..|fs| - 1]) + (if TakesEffect(HeldBefore(fs), fs[|fs| - 1]) then FeeOf(fs[|fs| - 1]) else 0.0)
  }

  /** Inventory is what was bought less what was sold and dropped; fees are those of the fills that took effect. */
  lemma {:induction false} InventoryIsConserved(fs: seq<Fill>)
    ensures ApplyAll(EMPTY, fs).base == Bought(fs) - Sold(fs) - Dropped(fs)
    ensures ApplyAll(EMPTY, fs).fees == FeesOfEffective(fs)
  {
    if fs != [] {
      InventoryIsConserved(fs[..|fs| - 1]);
      CashIsConserved(fs[..|fs| - 1]);
      FillMoves(ApplyAll(EMPTY, fs[..|fs| - 1]), fs[|fs| - 1]);
    }
  }

  /** What a fill should do to the inventory, from its text alone. */
  function SignedSize(f: Fill): real
  {
    if f.baseSize <= 0.0 then 0.0 else match f.side case Buy => f.baseSize case Sell => -f.baseSize case Unknown(_) => 0.0
  }

  function NetSize(fs: seq<Fill>): real
  {
    if fs == [] then 0.0 else NetSize(fs[..|fs| - 1]) + SignedSize(fs[|fs| - 1])
  }

  /** No prefix sells more than it has bought, and none leaves a remainder that counts as dust. */
  predicate NeverShort(fs: seq<Fill>)
  {
    forall k :: 0 <= k <= |fs| ==> NetSize(fs[..k]) == 0.0 || NetSize(fs[..k]) > DUST
  }

  lemma NeverShortBefore(fs: seq<Fill>)
    requires fs != [] && NeverShort(fs)
    ensures NeverShort(fs[..|fs| - 1]) && (NetSize(fs) == 0.0 || NetSize(fs) > DUST)
  {
    var before := fs[..|fs| - 1];
    assert fs[..|fs|] == fs;
    forall k | 0 <= k <= |before| ensures NetSize(before[..k]) == 0.0 || NetSize(before[..k]) > DUST {
      assert before[..k] == fs[..k];
    }
  }

  lemma UnclippedFill(p: Ledger, f: Fill)
    requires Sound(p) && (p.base + SignedSize(f) == 0.0 || p.base + SignedSize(f) > DUST)
    ensures Apply(p, f).base == p.base + SignedSize(f)
  {
    FillMoves(p, f);
  }

  /** When nothing is sold short the inventory is simply the signed sum of the sizes. */
  lemma {:induction false} InventoryIsNetSize(fs: seq<Fill>)
    requires NeverShort(fs)
    ensures ApplyAll(EMPTY, fs).base == NetSize(fs)
  {
    if fs != [] {
      var before := fs[..|fs| - 1];
      NeverShortBefore(fs);
      InventoryIsNetSize(before);
      CashIsConserved(before);
      UnclippedFill(ApplyAll(EMPTY, before), fs[|fs| - 1]);
    }
  }

  // ----- opening from a stored dictionary -----

  /** A stored open position: cost if recorded, else entry price and buy fee, else unknown cost. */
  function FromOpenDict(base: real, buyCost: real, entry: real, buyFee: real): Ledger
  {
    if buyCost > 0.0 && base > 0.0 then Ledger(base, buyCost, buyCost / base, 0.0, buyFee)
    else if entry > 0.0 && base > 0.0 then
      Ledger(base, entry * base + buyFee, (entry * base + buyFee) / base, 0.0, buyFee)
    else Ledger(base, 0.0, 0.0, 0.0, buyFee)
  }

  /** A stored position opens sound exactly when its base is not negative. */
  lemma OpenDictIsSoundIffBaseIsNotNegative(base: real, buyCost: real, entry: real, buyFee: real)
    ensures Sound(FromOpenDict(base, buyCost, entry, buyFee)) <==> base >= 0.0
  {
  }

  /** An opened position is worth its inventory at the mark less the recorded cost, else less entry cost and fee. */
  lemma OpenDictIsWorth(base: real, buyCost: real, entry: real, buyFee: real, mark: real)
    requires base > 0.0 && (buyCost > 0.0 || entry > 0.0)
    ensures TotalPnl(FromOpenDict(base, buyCost, entry, buyFee), mark)
         == mark * base - (if buyCost > 0.0 then buyCost else entry * base + buyFee)
  {
    var cost := if buyCost > 0.0 then buyCost else entry * base + buyFee;
    MarkedAgainstCost(mark, cost, base);
  }

  lemma MarkedAgainstCost(mark: real, cost: real, base: real)
    requires base > 0.0
    ensures (mark - cost / base) * base == mark * base - cost
  {
    assert cost / base * base == cost;
  }

  // ----- exits: one by one or at once -----

  predicate IsExit(f: Fill) { f.baseSize > 0.0 && f.side == Sell && f.fee >= 0.0 }

  predicate AllExits(fs: seq<Fill>) { forall i :: 0 <= i < |fs| ==> IsExit(fs[i]) }

  /** Summed size, notional and fees of exit fills. */
  datatype ExitTotal = ExitTotal(base: real, notional: real, fee: real)

  function Plus(t: ExitTotal, f: Fill): ExitTotal
  {
    ExitTotal(t.base + f.baseSize, t.notional + f.price * f.baseSize, t.fee + f.fee)
  }

  function Totals(fs: seq<Fill>): ExitTotal
  {
    if fs == [] then ExitTotal(0.0, 0.0, 0.0) else Plus(Totals(fs[..|fs| - 1]), fs[|fs| - 1])
  }

  /** The exits fit the inventory and never leave a remainder in (0, dust], in whatever order they come. */
  predicate NoDust(base: real, fs: seq<Fill>)
  {
    || base - Totals(fs).base > DUST
    || (base == Totals(fs).base && forall i :: 0 <= i < |fs| ==> fs[i].baseSize > DUST)
  }

  /** The position after exits of the given totals. */
  function Exited(p: Ledger, t: ExitTotal): Ledger
  {
    var base := p.base - t.base;
    Ledger(base, p.avg * base, if base == 0.0 then 0.0 else p.avg,
           p.realized + (t.notional - p.avg * t.base) - t.fee, p.fees + t.fee)
  }

  lemma SellExits(p: Ledger, sold: real, price: real, fee: real)
    requires Sound(p) && 0.0 < sold <= p.base && (p.base - sold == 0.0 || p.base - sold > DUST)
    ensures AfterSell(p, sold, price, fee) == Exited(p, ExitTotal(sold, price * sold, fee))
  {
    SellKeepsAverage(p, sold, price, fee);
    assert (price - p.avg) * sold == price * sold - p.avg * sold;
  }

  lemma NothingExited(p: Ledger)
    requires Sound(p)
    ensures Exited(p, ExitTotal(0.0, 0.0, 0.0)) == p
  {
  }

  lemma ExitStep(p: Ledger, t: ExitTotal, f: Fill)
    requires Sound(p) && IsExit(f) && p.base - t.base > DUST
    requires p.base - t.base - f.baseSize == 0.0 || p.base - t.base - f.baseSize > DUST
    ensures Apply(Exited(p, t), f) == Exited(p, Plus(t, f))
  {
    SellExits(Exited(p, t), f.baseSize, f.price, f.fee);
    assert p.avg * (t.base + f.baseSize) == p.avg * t.base + p.avg * f.baseSize;
  }

  lemma NoDustBefore(base: real, fs: seq<Fill>)
    requires fs != [] && AllExits(fs) && NoDust(base, fs)
    ensures var before, f := fs[..|fs| - 1], fs[|fs| - 1];
      && AllExits(before) && IsExit(f) && NoDust(base, before)
      && base - Totals(before).base > DUST
      && (base - Totals(before).base - f.baseSize == 0.0 || base - Totals(before).base - f.baseSize > DUST)
  {
    assert IsExit(fs[|fs| - 1]);
  }

  lemma Unfolded(p: Ledger, fs: seq<Fill>)
    requires fs != []
    ensures ApplyAll(p, fs) == Apply(ApplyAll(p, fs[..|fs| - 1]), fs[|fs| - 1])
    ensures Totals(fs) == Plus(Totals(fs[..|fs| - 1]), fs[|fs| - 1])
  {
  }

  /** The effect of exits depends on their totals only. */
  lemma {:induction false} ExitsAddUp(p: Ledger, fs: seq<Fill>)
    requires Sound(p) && AllExits(fs) && NoDust(p.base, fs)
    ensures ApplyAll(p, fs) == Exited(p, Totals(fs))
  {
    if fs == [] {
      NothingExited(p);
    } else {
      NoDustBefore(p.base, fs);
      ExitsAddUp(p, fs[..|fs| - 1]);
      ExitStep(p, Totals(fs[..|fs| - 1]), fs[|fs| - 1]);
      Unfolded(p, fs);
    }
  }

  lemma {:induction false} TotalsAreSigned(fs: seq<Fill>)
    requires AllExits(fs)
    ensures Totals(fs).fee >= 0.0 && (if fs == [] then Totals(fs).base == 0.0 else Totals(fs).base > 0.0)
  {
    if fs != [] {
      assert IsExit(fs[|fs| - 1]);
      TotalsAreSigned(fs[..|fs| - 1]);
    }
  }

  lemma WholeExit(p: Ledger, t: ExitTotal)
    requires Sound(p) && 0.0 < t.base <= p.base && t.fee >= 0.0 && (p.base - t.base == 0.0 || p.base - t.base > DUST)
    ensures NetExit(p, t.notional, t.fee, t.base) == Exited(p, t)
  {
    var px := t.notional / t.base;
    assert px * t.base == t.notional;
    SellExits(p, t.base, px, t.fee);
  }

  /** Exit fills one by one give the same position as one aggregated exit with summed notional, fee and size. */
  lemma {:induction false} SplitExitsEqualOneExit(p: Ledger, fs: seq<Fill>)
    requires Sound(p) && AllExits(fs) && NoDust(p.base, fs)
    ensures ApplyAll(p, fs) == NetExit(p, Totals(fs).notional, Totals(fs).fee, Totals(fs).base)
  {
    TotalsAreSigned(fs);
    ExitsAddUp(p, fs);
    if fs != [] {
      WholeExit(p, Totals(fs));
    }
  }

  // ----- order independence -----

  function Add(a: ExitTotal, b: ExitTotal): ExitTotal
  {
    ExitTotal(a.base + b.base, a.notional + b.notional, a.fee + b.fee)
  }

  lemma AddIsAssociative(a: ExitTotal, b: ExitTotal, f: Fill)
    ensures Add(a, Plus(b, f)) == Plus(Add(a, b), f)
    ensures Add(Plus(a, f), b) == Plus(Add(a, b), f)
  {
  }

  lemma UnfoldedTotals(fs: seq<Fill>, f: Fill)
    ensures Totals(fs + [f]) == Plus(Totals(fs), f)
  {
    assert (fs + [f])[..|fs|] == fs;
  }

  lemma {:induction false} TotalsSplit(a: seq<Fill>, b: seq<Fill>)
    ensures Totals(a + b) == Add(Totals(a), Totals(b))
  {
    if b == [] {
      assert a + b == a;
    } else {
      var before, f := b[..|b| - 1], b[|b| - 1];
      assert a + b == (a + before) + [f] && b == before + [f];
      TotalsSplit(a, before);
      UnfoldedTotals(a + before, f);
      UnfoldedTotals(before, f);
      AddIsAssociative(Totals(a), Totals(before), f);
    }
  }

  lemma TotalsMiddle(a: seq<Fill>, f: Fill, b: seq<Fill>)
    ensures Totals(a + [f] + b) == Plus(Totals(a + b), f)
  {
    TotalsSplit(a + [f], b);
    UnfoldedTotals(a, f);
    TotalsSplit(a, b);
    AddIsAssociative(Totals(a), Totals(b), f);
  }

  lemma SplitAt(gs: seq<Fill>, i: nat)
    requires i < |gs|
    ensures gs == gs[..i] + [gs[i]] + gs[i + 1..]
  {
  }

  lemma TotalsWithout(gs: seq<Fill>, a: seq<Fill>, f: Fill, b: seq<Fill>)
    requires gs == a + [f] + b
    ensures Totals(gs) == Plus(Totals(a + b), f)
  {
    TotalsMiddle(a, f, b);
  }

  lemma MultisetWithout(gs: seq<Fill>, i: nat)
    requires i < |gs|
    ensures multiset(gs[..i] + gs[i + 1..]) == multiset(gs) - multiset{gs[i]}
  {
    SplitAt(gs, i);
  }

  lemma {:induction false} TotalsIgnoreOrder(fs: seq<Fill>, gs: seq<Fill>)
    requires multiset(fs) == multiset(gs)
    ensures Totals(fs) == Totals(gs)
    decreases |fs|
  {
    if fs == [] {
      assert |multiset(gs)| == 0;
    } else {
      var k := |fs| - 1;
      assert fs[k] in multiset(gs);
      var i :| 0 <= i < |gs| && gs[i] == fs[k];
      MultisetWithout(fs, k);
      MultisetWithout(gs, i);
      assert fs[..k] + fs[k + 1..] == fs[..k];
      TotalsIgnoreOrder(fs[..k], gs[..i] + gs[i + 1..]);
      SplitAt(gs, i);
      TotalsWithout(gs, gs[..i], gs[i], gs[i + 1..]);
    }
  }

  /** The order of exit fills does not matter. */
  lemma ExitOrderIsIrrelevant(p: Ledger, fs: seq<Fill>, gs: seq<Fill>)
    requires Sound(p) && AllExits(fs) && NoDust(p.base, fs) && multiset(fs) == multiset(gs)
    ensures ApplyAll(p, fs) == ApplyAll(p, gs)
  {
    TotalsIgnoreOrder(fs, gs);
    forall i | 0 <= i < |gs| ensures IsExit(gs[i]) && ((forall j :: 0 <= j < |fs| ==> fs[j].baseSize > DUST) ==> gs[i].baseSize > DUST) {
      assert gs[i] in multiset(fs);
    }
    ExitsAddUp(p, fs);
    ExitsAddUp(p, gs);
  }

  /** A sell closes the position exactly when it leaves no more than a billionth of a billionth. */
  lemma SellClosesIff(p: Ledger, sold: real, price: real, fee: real)
    requires Sound(p) && 0.0 < sold <= p.base
    ensures AfterSell(p, sold, price, fee).base == 0.0 <==> p.base - sold <= 0.000000000000000001
  {
  }
}
