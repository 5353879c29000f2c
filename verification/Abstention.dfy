// agent/abstention/ledger.py: declined trades, marked once to the market, and the losses they avoided.
module Abstention {
  import opened Types
  import opened Money

  datatype Mark = Mark(ts: real, price: real, pnl: real)

  datatype Record = Record(index: int, ts: real, symbol: Token, reason: string, side: string,
                           refPrice: real, size: real, mark: Option<Mark>)

  const VALID_REASONS: set<string> := {
    "stale_data", "vol_spike", "thin_liquidity", "drawdown_proximity",
    "slippage_mismatch", "regime_conflict", "exposure_full", "rate_or_interval"}

  // ------------------------------------------------------------ recording

  function Recorded(log: seq<Record>, ts: real, symbol: Token, reason: string, side: string, refPrice: real, size: real)
    : (r: Record)
  {
    Record(if log == [] then 0 else log[|log| - 1].index + 1, ts, symbol,
           if reason in VALID_REASONS then reason else "regime_conflict", side, refPrice, size, None)
  }

  // ------------------------------------------------------------ marking

  /** A record is marked when it is not yet, is old enough, and has a price now and had one then. */
  predicate Eligible(r: Record, prices: Prices, now: real, minAge: real) {
    r.mark.None? && now - r.ts >= minAge && r.symbol in prices && r.refPrice != 0.0
  }

  /** What having taken the trade would have made, unrounded. */
  function Hypothetical(r: Record, px: real): real
    requires r.refPrice != 0.0
  {
    var move := Units(px - r.refPrice, r.refPrice);
    if r.side == "buy" then Usd(r.size, move) else -Usd(r.size, move)
  }

  /** Declining a buy that rose, or a sale that fell, missed a gain; the reverse avoided a loss. */
  lemma MissedOrAvoided(r: Record, px: real)
    requires r.refPrice > 0.0 && r.size > 0.0
    ensures Hypothetical(r, px) > 0.0 <==> if r.side == "buy" then px > r.refPrice else px < r.refPrice
    ensures Hypothetical(r, px) < 0.0 <==> if r.side == "buy" then px < r.refPrice else px > r.refPrice
  {
    var move := Units(px - r.refPrice, r.refPrice);
    DivideBack(px - r.refPrice, r.refPrice);
    assert move > 0.0 <==> px > r.refPrice;
    assert move < 0.0 <==> px < r.refPrice;
    if move > 0.0 {
      ProductPositive(r.size, move);
    } else if move < 0.0 {
      ProductPositive(r.size, -move);
    }
  }

  lemma ProductPositive(a: real, b: real)
    requires a > 0.0 && b > 0.0
    ensures Usd(a, b) > 0.0 && Usd(a, -b) < 0.0
  {
  }

  function MarkOne(r: Record, prices: Prices, now: real, minAge: real): (m: Record)
    ensures m.mark != r.mark <==> Eligible(r, prices, now, minAge)
    ensures m.(mark := None) == r.(mark := None)
  {
    if Eligible(r, prices, now, minAge) then
      var px := prices[r.symbol];
      r.(mark := Some(Mark(now, px, Round4(Hypothetical(r, px)))))
    else r
  }

  function MarkAll(log: seq<Record>, prices: Prices, now: real, minAge: real): (m: seq<Record>)
    ensures |m| == |log| && forall i :: 0 <= i < |log| ==> m[i] == MarkOne(log[i], prices, now, minAge)
  {
    seq(|log|, i requires 0 <= i < |log| => MarkOne(log[i], prices, now, minAge))
  }

  /** How many of the records are eligible. */
  function CountEligible(log: seq<Record>, prices: Prices, now: real, minAge: real): (n: nat)
    ensures n <= |log|
  {
    if log == [] then 0
    else CountEligible(log[..|log| - 1], prices, now, minAge)
         + if Eligible(log[|log| - 1], prices, now, minAge) then 1 else 0
  }

  // ------------------------------------------------------------ totals

  function Pnl(r: Record): real { if r.mark.Some? then r.mark.value.pnl else 0.0 }

  function PnlSum(log: seq<Record>): real {
    if log == [] then 0.0 else PnlSum(log[..|log| - 1]) + Pnl(log[|log| - 1])
  }

  function AvoidedLoss(log: seq<Record>): real {
    if log == [] then 0.0 else AvoidedLoss(log[..|log| - 1]) + Max(0.0, -Pnl(log[|log| - 1]))
  }

  function MissedGain(log: seq<Record>): real {
    if log == [] then 0.0 else MissedGain(log[..|log| - 1]) + Max(0.0, Pnl(log[|log| - 1]))
  }

  function CountMarked(log: seq<Record>): nat {
    if log == [] then 0 else CountMarked(log[..|log| - 1]) + if log[|log| - 1].mark.Some? then 1 else 0
  }

  function CountReason(log: seq<Record>, reason: string): nat {
    if log == [] then 0 else CountReason(log[..|log| - 1], reason) + if log[|log| - 1].reason == reason then 1 else 0
  }

  /** The counts of all reasons of a list of reasons. */
  function SumCounts(reasons: seq<string>, counts: map<string, nat>): nat {
    if reasons == [] then 0
    else SumCounts(reasons[..|reasons| - 1], counts) + CountIn(counts, reasons[|reasons| - 1])
  }

  function CountIn(counts: map<string, nat>, k: string): nat { if k in counts then counts[k] else 0 }

  datatype Summary = Summary(abstentions: nat, marked: nat, avoided: real, missed: real, net: real,
                             reasons: seq<string>, byReason: map<string, nat>)

  // ------------------------------------------------------------ the ledger

  class AbstentionLedger {
    var records: seq<Record>

    constructor ()
      ensures records == []
    {
      records := [];
    }

    /** record */
    method Add(ts: real, symbol: Token, reason: string, side: string, refPrice: real, size: real) returns (a: Record)
      modifies this
      ensures records == old(records) + [a]
      ensures a == Recorded(old(records), ts, symbol, reason, side, refPrice, size)
    {
      var next := 0;
      if records != [] {
        next := records[|records| - 1].index + 1;
      }
      var known := if reason in VALID_REASONS then reason else "regime_conflict";
      a := Record(next, ts, symbol, known, side, refPrice, size, None);
      records := records + [a];
    }

    /** mark_to_market */
    method MarkToMarket(prices: Prices, now: real, minAge: real) returns (marked: nat)
      modifies this
      ensures records == MarkAll(old(records), prices, now, minAge)
      ensures marked == CountEligible(old(records), prices, now, minAge)
      ensures marked == CountMarked(records) - CountMarked(old(records))
    {
      var rs := records;
      ghost var before := records;
      marked := 0;
      var i := 0;
      while i < |rs|
        invariant 0 <= i <= |rs| == |before|
        invariant forall k :: 0 <= k < i ==> rs[k] == MarkOne(before[k], prices, now, minAge)
        invariant forall k :: i <= k < |rs| ==> rs[k] == before[k]
        invariant marked == CountEligible(before[..i], prices, now, minAge)
      {
        var r := rs[i];
        assert before[..i + 1][..i] == before[..i];
        if r.mark.None? && now - r.ts >= minAge && r.symbol in prices && r.refPrice != 0.0 {
          var px := prices[r.symbol];
          rs := rs[i := r.(mark := Some(Mark(now, px, Round4(Hypothetical(r, px)))))];
          marked := marked + 1;
        }
        i := i + 1;
      }
      assert before[..i] == before;
      assert rs == MarkAll(before, prices, now, minAge);
      MarkingCounts(before, prices, now, minAge);
      if marked > 0 {
        records := rs;
      } else {
        NothingEligible(before, prices, now, minAge);
      }
    }

    /** summary; the dictionary of counts comes with its keys in order of first appearance. */
    method Summarise() returns (s: Summary)
      ensures s.abstentions == |records| && s.marked == CountMarked(records)
      ensures s.avoided == Cents(AvoidedLoss(records)) && s.missed == Cents(MissedGain(records))
      ensures s.net == Cents(AvoidedLoss(records) - MissedGain(records))
      ensures Distinct(s.reasons) && s.byReason.Keys == set k | k in s.reasons
      ensures forall k :: k in s.reasons ==> s.byReason[k] == CountReason(records, k) > 0
      ensures forall i :: 0 <= i < |records| ==> records[i].reason in s.reasons
      ensures SumCounts(s.reasons, s.byReason) == |records|
    {
      var avoided, missed, marked := 0.0, 0.0, 0;
      var i := 0;
      while i < |records|
        invariant 0 <= i <= |records|
        invariant avoided == AvoidedLoss(records[..i]) && missed == MissedGain(records[..i])
        invariant marked == CountMarked(records[..i])
      {
        assert records[..i + 1][..i] == records[..i];
        if records[i].mark.Some? {
          var pnl := records[i].mark.value.pnl;
          marked := marked + 1;
          if pnl < 0.0 {
            avoided := avoided + -pnl;
          }
          if pnl > 0.0 {
            missed := missed + pnl;
          }
        }
        i := i + 1;
      }
      assert records[..i] == records;
      var reasons, counts := CountReasons();
      s := Summary(|records|, marked, Cents(avoided), Cents(missed), Cents(avoided - missed), reasons, counts);
    }

    /** The counting loop of summary. */
    method CountReasons() returns (reasons: seq<string>, counts: map<string, nat>)
      ensures Distinct(reasons) && counts.Keys == set k | k in reasons
      ensures forall k :: k in reasons ==> counts[k] == CountReason(records, k) > 0
      ensures forall i :: 0 <= i < |records| ==> records[i].reason in reasons
      ensures SumCounts(reasons, counts) == |records|
    {
      reasons, counts := [], map[];
      var i := 0;
      while i < |records|
        invariant 0 <= i <= |records|
        invariant Tally(reasons, counts) == TallyOf(records[..i])
      {
        var k := records[i].reason;
        assert records[..i + 1][..i] == records[..i];
        if k in counts {
          counts := counts[k := counts[k] + 1];
        } else {
          reasons, counts := reasons + [k], counts[k := 1];
        }
        i := i + 1;
      }
      assert records[..i] == records;
      TallyKeys(records);
      TallyCounts(records);
      TallySum(records);
    }
  }

  // ------------------------------------------------------------ counting reasons

  /** The counts so far, and their keys in order of first appearance. */
  datatype Tally = Tally(reasons: seq<string>, counts: map<string, nat>)

  function Tallied(t: Tally, k: string): Tally {
    if k in t.counts then t.(counts := t.counts[k := t.counts[k] + 1])
    else Tally(t.reasons + [k], t.counts[k := 1])
  }

  function TallyOf(log: seq<Record>): Tally {
    if log == [] then Tally([], map[]) else Tallied(TallyOf(log[..|log| - 1]), log[|log| - 1].reason)
  }

  lemma {:induction false} TallyKeys(log: seq<Record>)
    ensures var t := TallyOf(log);
            && Distinct(t.reasons)
            && (forall k :: k in t.counts <==> k in t.reasons)
            && (forall i :: 0 <= i < |log| ==> log[i].reason in t.reasons)
  {
    if log != [] {
      var n := |log| - 1;
      TallyKeys(log[..n]);
      forall i | 0 <= i < n ensures log[i].reason in TallyOf(log).reasons {
        assert log[..n][i] == log[i];
      }
    }
  }

  lemma {:induction false} TallyCounts(log: seq<Record>)
    ensures var t := TallyOf(log);
            forall k :: CountReason(log, k) == CountIn(t.counts, k)
    ensures forall k :: k in TallyOf(log).counts ==> TallyOf(log).counts[k] > 0
  {
    if log != [] {
      TallyCounts(log[..|log| - 1]);
    }
  }

  lemma {:induction false} TallySum(log: seq<Record>)
    ensures SumCounts(TallyOf(log).reasons, TallyOf(log).counts) == |log|
  {
    if log != [] {
      var t, k := TallyOf(log[..|log| - 1]), log[|log| - 1].reason;
      TallyKeys(log[..|log| - 1]);
      TallySum(log[..|log| - 1]);
      if k in t.counts {
        SumCountsBump(t.reasons, t.counts, k);
      } else {
        SumCountsFresh(t.reasons, t.counts, k);
      }
    }
  }

  lemma {:induction false} SumCountsSame(reasons: seq<string>, counts: map<string, nat>, k: string, n: nat)
    requires k !in reasons
    ensures SumCounts(reasons, counts[k := n]) == SumCounts(reasons, counts)
  {
    if reasons != [] {
      SumCountsSame(reasons[..|reasons| - 1], counts, k, n);
    }
  }

  lemma {:induction false} SumCountsBump(reasons: seq<string>, counts: map<string, nat>, k: string)
    requires k in counts && k in reasons && Distinct(reasons)
    ensures SumCounts(reasons, counts[k := counts[k] + 1]) == SumCounts(reasons, counts) + 1
  {
    var n := |reasons| - 1;
    if reasons[n] == k {
      SumCountsSame(reasons[..n], counts, k, counts[k] + 1);
    } else {
      SumCountsBump(reasons[..n], counts, k);
    }
  }

  lemma SumCountsFresh(reasons: seq<string>, counts: map<string, nat>, k: string)
    requires k !in reasons
    ensures SumCounts(reasons + [k], counts[k := 1]) == SumCounts(reasons, counts) + 1
  {
    SumCountsSame(reasons, counts, k, 1);
    assert (reasons + [k])[..|reasons|] == reasons;
  }

  lemma {:induction false} MarkingCounts(log: seq<Record>, prices: Prices, now: real, minAge: real)
    ensures CountMarked(MarkAll(log, prices, now, minAge)) == CountMarked(log) + CountEligible(log, prices, now, minAge)
  {
    if log != [] {
      var n := |log| - 1;
      MarkingCounts(log[..n], prices, now, minAge);
      assert MarkAll(log, prices, now, minAge)[..n] == MarkAll(log[..n], prices, now, minAge);
    }
  }

  lemma {:induction false} NothingEligible(log: seq<Record>, prices: Prices, now: real, minAge: real)
    requires CountEligible(log, prices, now, minAge) == 0
    ensures MarkAll(log, prices, now, minAge) == log
  {
    if log != [] {
      var n := |log| - 1;
      NothingEligible(log[..n], prices, now, minAge);
      assert log == log[..n] + [log[n]];
    }
  }

  // ------------------------------------------------------------ any history of calls

  datatype Event = Declines(ts: real, symbol: Token, reason: string, side: string, refPrice: real, size: real)
                 | Marks(prices: Prices, now: real, minAge: real)

  function After(log: seq<Record>, e: Event): seq<Record> {
    match e
    case Declines(ts, symbol, reason, side, refPrice, size) =>
      log + [Recorded(log, ts, symbol, reason, side, refPrice, size)]
    case Marks(prices, now, minAge) => MarkAll(log, prices, now, minAge)
  }

  function Run(log: seq<Record>, es: seq<Event>): seq<Record> {
    if es == [] then log else After(Run(log, es[..|es| - 1]), es[|es| - 1])
  }

  ghost predicate Numbered(log: seq<Record>) {
    forall i :: 0 <= i < |log| ==> log[i].index == i && log[i].reason in VALID_REASONS
  }

  /** In every history the records are numbered from zero without gaps and carry known reasons. */
  lemma {:induction false} RunIsNumbered(es: seq<Event>)
    ensures Numbered(Run([], es))
  {
    if es != [] {
      RunIsNumbered(es[..|es| - 1]);
      OneIsNumbered(Run([], es[..|es| - 1]), es[|es| - 1]);
    }
  }

  lemma OneIsNumbered(log: seq<Record>, e: Event)
    requires Numbered(log)
    ensures Numbered(After(log, e))
  {
    if e.Declines? {
      KnownReason(e.reason);
    } else {
      var m := MarkAll(log, e.prices, e.now, e.minAge);
      forall i | 0 <= i < |m| ensures m[i].index == i && m[i].reason in VALID_REASONS {
        assert m[i].(mark := None) == log[i].(mark := None);
        assert m[i].index == m[i].(mark := None).index && m[i].reason == m[i].(mark := None).reason;
      }
    }
  }

  lemma KnownReason(reason: string)
    ensures (if reason in VALID_REASONS then reason else "regime_conflict") in VALID_REASONS
  {
  }

  /** Every record stays in place for ever; all that can change is that an unmarked one is marked, once. */
  lemma {:induction false} RecordsOnlyGetMarked(log: seq<Record>, es: seq<Event>)
    ensures var t := Run(log, es);
            && |t| >= |log|
            && (forall i :: 0 <= i < |log| ==> t[i].(mark := None) == log[i].(mark := None))
            && (forall i :: 0 <= i < |log| && log[i].mark.Some? ==> t[i] == log[i])
  {
    if es != [] {
      RecordsOnlyGetMarked(log, es[..|es| - 1]);
      var s, e := Run(log, es[..|es| - 1]), es[|es| - 1];
      forall i | 0 <= i < |s|
        ensures After(s, e)[i].(mark := None) == s[i].(mark := None) && (s[i].mark.Some? ==> After(s, e)[i] == s[i])
      {
      }
    }
  }

  /** Marking twice with the same prices and time marks nothing the second time. */
  lemma {:induction false} MarkingIsIdempotent(log: seq<Record>, prices: Prices, now: real, minAge: real)
    ensures var m := MarkAll(log, prices, now, minAge);
            MarkAll(m, prices, now, minAge) == m && CountEligible(m, prices, now, minAge) == 0
  {
    if log != [] {
      var n := |log| - 1;
      MarkingIsIdempotent(log[..n], prices, now, minAge);
      assert MarkAll(log, prices, now, minAge)[..n] == MarkAll(log[..n], prices, now, minAge);
    }
  }

  /** Avoided losses less missed gains are what declining made in all. */
  lemma {:induction false} RestraintIsMinusPnl(log: seq<Record>)
    ensures AvoidedLoss(log) - MissedGain(log) == -PnlSum(log)
    ensures AvoidedLoss(log) >= 0.0 && MissedGain(log) >= 0.0
  {
    if log != [] {
      RestraintIsMinusPnl(log[..|log| - 1]);
    }
  }

  /** The published figures: the net is within half a cent of minus the total, and the three agree within 1.5 cents. */
  lemma PublishedFiguresAgree(log: seq<Record>)
    ensures var a, m, n := Cents(AvoidedLoss(log)), Cents(MissedGain(log)), Cents(AvoidedLoss(log) - MissedGain(log));
            Abs(n + PnlSum(log)) <= 0.005 && Abs(n - (a - m)) <= 0.015
  {
    RestraintIsMinusPnl(log);
  }
}
