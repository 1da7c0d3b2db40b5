/** The append-only trade ledger the bot writes one line per decision to, and the
    dashboard reads back. */
module Ledger {

  datatype Action = Buy | Sell | NoBuy

  /** A guard that kept a momentum signal from turning into a buy. */
  datatype Reason = CooldownActive | LowVolatility | MaxInvestmentReached

  /** The position of each guard in the fixed reporting order. */
  function Rank(r: Reason): nat
  {
    match r
    case CooldownActive => 0
    case LowVolatility => 1
    case MaxInvestmentReached => 2
  }

  /** Reasons listed in the fixed reporting order, each at most once. */
  predicate InReportingOrder(rs: seq<Reason>)
  {
    forall i, j :: 0 <= i < j < |rs| ==> Rank(rs[i]) < Rank(rs[j])
  }

  function Label(r: Reason): string
  {
    match r
    case CooldownActive => "Cooldown active"
    case LowVolatility => "Low volatility (ATR)"
    case MaxInvestmentReached => "Max investment reached"
  }

  /** The reason column: the labels joined by ", ". It is empty exactly when there
      are no reasons, starts with the first reason's label, and is just that label
      when there is one reason. */
  function ReasonText(rs: seq<Reason>): (t: string)
    ensures |t| == 0 <==> |rs| == 0
    ensures |rs| > 0 ==> |Label(rs[0])| <= |t| && t[..|Label(rs[0])|] == Label(rs[0])
    ensures |rs| == 1 ==> t == Label(rs[0])
  {
    if |rs| == 0 then ""
    else if |rs| == 1 then Label(rs[0])
    else
      var head := Label(rs[0]) + ", ";
      assert (head + ReasonText(rs[1..]))[..|Label(rs[0])|] == Label(rs[0]);
      head + ReasonText(rs[1..])
  }

  /** Joining is associative across a split: the column for two non-empty runs of
      reasons is the first run's column, ", ", then the second run's. */
  lemma {:induction false} ReasonTextJoin(a: seq<Reason>, b: seq<Reason>)
    requires |a| > 0 && |b| > 0
    decreases |a|
    ensures ReasonText(a + b) == ReasonText(a) + ", " + ReasonText(b)
  {
    assert (a + b)[0] == a[0];
    if |a| == 1 {
      assert (a + b)[1..] == b;
    } else {
      assert (a + b)[1..] == a[1..] + b;
      ReasonTextJoin(a[1..], b);
    }
  }

  /** The column for all three guards failing lists the three labels in order. */
  lemma AllReasonsText()
    ensures ReasonText([CooldownActive, LowVolatility, MaxInvestmentReached])
         == Label(CooldownActive) + ", " + Label(LowVolatility) + ", " + Label(MaxInvestmentReached)
  {
    JoinThree(CooldownActive, LowVolatility, MaxInvestmentReached);
  }

  /** Three reasons give their three labels joined by ", ". */
  lemma JoinThree(a: Reason, b: Reason, c: Reason)
    ensures ReasonText([a, b, c]) == Label(a) + ", " + Label(b) + ", " + Label(c)
  {
    var la, lb, lc := Label(a), Label(b), Label(c);
    assert [a, b, c][1..] == [b, c] && [b, c][1..] == [c];
    assert ReasonText([a, b, c]) == (la + ", ") + ((lb + ", ") + lc);
    Regroup(la + ", ", lb + ", ", lc);
    Regroup(la + ", ", lb, ", ");
  }

  /** Concatenation regroups freely. */
  lemma Regroup(x: string, y: string, z: string)
    ensures x + (y + z) == (x + y) + z
  {
  }

  /** One ledger line. The reasons are empty on buy and sell lines. */
  datatype TradeRecord = TradeRecord(
    timestamp: real,
    action: Action,
    symbol: string,
    price: real,
    qty: real,
    dailyPnl: real,
    reasons: seq<Reason>)
}
