/**
 * Token amounts of a physical redeem across token decimals
 * (src/bots/expiry_settler.py, src/bots/solana_expiry_settler.py). oToken amounts,
 * strikes and oracle prices carry 8 decimals; a float slippage setting enters as
 * the whole number of basis points it is cut to.
 */
module SettlementAmounts {
  import opened Arithmetic
  import opened Wrappers

  const BETA_SLIPPAGE_BPS := 1000

  datatype AmountError =
    | BadAmount | BadStrike | BadPrice | NoPrice | NoContra | QuoterFailed | UnsupportedDecimals

  datatype Slippage = Slippage(param: int, contra: nat)

  function Pow10(n: nat): (p: nat)
    ensures p > 0
  {
    if n == 0 then 1 else 10 * Pow10(n - 1)
  }

  /** _compute_contra_amount: underlying for a put, 6-decimal USDC for a call. */
  function ContraAmount(amount: nat, strike: nat, isPut: bool, decimals: nat): nat
    requires decimals >= 8
  {
    if isPut then Mul(amount, Pow10(decimals - 8)) else Div(Mul(amount, strike), Pow10(10))
  }

  /** The oracle cost of a put's contra amount, before the buffer. */
  function PutCost(contra: nat, price: nat, decimals: nat): nat {
    Div(Mul(contra, price), Pow10(decimals + 8 - 6))
  }

  function CeilingBuffer(amount: nat, bps: nat): nat { (Mul(amount, bps) + 9999) / 10000 }

  /** _beta_compute_max_collateral_put. */
  function BetaMaxCollateralPut(contra: nat, price: int, decimals: nat): Result<nat, AmountError> {
    if price <= 0 then Err(BadPrice)
    else
      var amountIn := PutCost(contra, price, decimals);
      Ok(amountIn + CeilingBuffer(amountIn, BETA_SLIPPAGE_BPS))
  }

  /** _compute_min_amount_out, with the basis points of the mode. */
  function MinAmountOut(contra: int, bps: nat): Result<int, AmountError> {
    if contra <= 0 then Err(NoContra) else Ok(contra - Mul(contra, bps) / 10000)
  }

  /** compute_slippage_param; in production mode a put asks the quoter, which may fail. */
  function SlippageParam(amount: int, strike: int, isPut: bool, decimals: nat, beta: bool, price: Option<int>,
                         quote: Option<nat>, toleranceBps: nat): Result<Slippage, AmountError>
    requires decimals >= 8
  {
    if amount <= 0 then Err(BadAmount)
    else if strike <= 0 then Err(BadStrike)
    else
      var contra := ContraAmount(amount, strike, isPut, decimals);
      if !isPut then WithContra(MinAmountOut(contra, if beta then BETA_SLIPPAGE_BPS else toleranceBps), contra)
      else if beta then
        if price.None? then Err(NoPrice)
        else
          match BetaMaxCollateralPut(contra, price.value, decimals)
          case Err(e) => Err(e)
          case Ok(max) => Ok(Slippage(max, contra))
      else if quote.None? then Err(QuoterFailed)
      else Ok(Slippage(quote.value + CeilingBuffer(quote.value, toleranceBps), contra))
  }

  function WithContra(param: Result<int, AmountError>, contra: nat): Result<Slippage, AmountError> {
    match param
    case Err(e) => Err(e)
    case Ok(p) => Ok(Slippage(p, contra))
  }

  lemma {:induction false} Pow10Adds(a: nat, b: nat)
    ensures Pow10(a + b) == Mul(Pow10(a), Pow10(b))
  {
    if a > 0 {
      Pow10Adds(a - 1, b);
      assert Mul(Pow10(a), Pow10(b)) == 10 * Mul(Pow10(a - 1), Pow10(b));
    }
  }

  // ── Puts ──

  /** The underlying's decimals cancel: a put costs floor(amount * price / 10^10) USDC units. */
  lemma DecimalsCancel(amount: nat, price: nat, decimals: nat)
    requires decimals >= 8
    ensures PutCost(ContraAmount(amount, 0, true, decimals), price, decimals) == Div(Mul(amount, price), Pow10(10))
  {
    var c := Pow10(decimals - 8);
    Pow10Adds(10, decimals - 8);
    assert Mul(Mul(amount, c), price) == Mul(Mul(amount, price), c);
    CancelFactor(Mul(amount, price), Pow10(10), c);
  }

  /** A put in the money costs at most its strike value, the USDC that was locked for it. */
  lemma PutCostWithinStrikeValue(amount: nat, price: nat, strike: nat, decimals: nat)
    requires decimals >= 8 && price <= strike
    ensures PutCost(ContraAmount(amount, strike, true, decimals), price, decimals) <= ContraAmount(amount, strike, false, decimals)
  {
    DecimalsCancel(amount, price, decimals);
    assert Mul(amount, strike) == Mul(amount, price) + Mul(amount, strike - price);
    DivMonotone(Mul(amount, price), Mul(amount, strike), Pow10(10));
  }

  /** The buffer is the least whole amount not below its share. */
  lemma CeilingIsTight(amount: nat, bps: nat)
    ensures 10000 * CeilingBuffer(amount, bps) >= Mul(amount, bps) > 10000 * (CeilingBuffer(amount, bps) - 1)
  {}

  /** With the 10% buffer a put is refused by the caller (no positive parameter) exactly when it costs less than one unit. */
  lemma PutParamIsPositiveIff(amount: nat, strike: nat, price: nat, decimals: nat)
    requires decimals >= 8 && amount > 0 && strike > 0 && price > 0
    ensures var r := SlippageParam(amount, strike, true, decimals, true, Some(price), None, 0);
            r.Ok? && (r.value.param > 0 <==> Mul(amount, price) >= Pow10(10))
  {
    DecimalsCancel(amount, price, decimals);
    FloorIsZeroIff(Mul(amount, price), Pow10(10));
    CeilingIsTight(Div(Mul(amount, price), Pow10(10)), BETA_SLIPPAGE_BPS);
  }

  // ── Calls ──

  /** A call's minimum output never exceeds its contra amount, and is positive exactly below 100% slippage. */
  lemma MinOutIff(contra: int, bps: nat)
    requires MinAmountOut(contra, bps).Ok?
    ensures MinAmountOut(contra, bps).value <= contra
    ensures MinAmountOut(contra, bps).value > 0 <==> bps < 10000
  {
    var n := Mul(contra, bps);
    assert 10000 * (n / 10000) <= n < 10000 * (n / 10000) + 10000;
    if bps < 10000 {
      assert n == Mul(contra, 10000) - Mul(contra, 10000 - bps);
      ProductPositive(contra, 10000 - bps);
      assert Mul(contra, 10000) == 10000 * contra;
    } else {
      assert n == Mul(contra, 10000) + Mul(contra, bps - 10000);
      assert Mul(contra, 10000) == 10000 * contra;
    }
  }

  /** The minimum output is the contra amount less the slippage, rounded up: never one unit too low. */
  lemma MinOutIsTight(contra: nat, bps: nat)
    requires MinAmountOut(contra, bps).Ok? && bps <= 10000
    ensures 10000 * MinAmountOut(contra, bps).value >= Mul(contra, 10000 - bps) > 10000 * (MinAmountOut(contra, bps).value - 1)
  {
    assert Mul(contra, 10000 - bps) == 10000 * contra - Mul(contra, bps);
  }

  /** A call fails exactly when its strike value is below one USDC unit (dust). */
  lemma CallFailsIff(amount: nat, strike: nat, decimals: nat, beta: bool, toleranceBps: nat)
    requires amount > 0 && strike > 0 && decimals >= 8
    ensures SlippageParam(amount, strike, false, decimals, beta, None, None, toleranceBps) == Err(NoContra)
       <==> Mul(amount, strike) < Pow10(10)
  {
    FloorIsZeroIff(Mul(amount, strike), Pow10(10));
  }

  // ── Each mode's parameter ──

  /** A beta put may spend the oracle cost of its amount and 10% of it, rounded up, and delivers the amount in the underlying's decimals. */
  lemma BetaPutParam(amount: nat, strike: nat, price: nat, decimals: nat, quote: Option<nat>, toleranceBps: nat)
    requires decimals >= 8 && amount > 0 && strike > 0 && price > 0
    ensures var r := SlippageParam(amount, strike, true, decimals, true, Some(price), quote, toleranceBps);
            var cost := Div(amount * price, Pow10(10));
            r.Ok? && r.value.contra == amount * Pow10(decimals - 8)
            && 10000 * r.value.param >= 11000 * cost > 10000 * (r.value.param - 1)
  {
    DecimalsCancel(amount, price, decimals);
    CeilingIsTight(Div(Mul(amount, price), Pow10(10)), BETA_SLIPPAGE_BPS);
  }

  /** A quoted put may spend the quote and the tolerated share of it, rounded up. */
  lemma QuotedPutParam(amount: nat, strike: nat, decimals: nat, price: Option<int>, quote: nat, toleranceBps: nat)
    requires decimals >= 8 && amount > 0 && strike > 0
    ensures var r := SlippageParam(amount, strike, true, decimals, false, price, Some(quote), toleranceBps);
            r.Ok? && r.value.contra == amount * Pow10(decimals - 8)
            && 10000 * r.value.param >= quote * (10000 + toleranceBps) > 10000 * (r.value.param - 1)
  {
    CeilingIsTight(quote, toleranceBps);
    assert quote * (10000 + toleranceBps) == 10000 * quote + Mul(quote, toleranceBps);
  }

  /** The basis points a call gives up: 10% in beta mode, the tolerance otherwise. */
  ghost function CallBps(beta: bool, toleranceBps: nat): nat { if beta then 1000 else toleranceBps }

  /** A call pays its strike value rounded down, and asks for at least that less the slippage, rounded up. */
  lemma CallParam(amount: nat, strike: nat, decimals: nat, beta: bool, price: Option<int>, quote: Option<nat>, toleranceBps: nat)
    requires decimals >= 8 && amount > 0 && strike > 0 && amount * strike >= Pow10(10)
    ensures var r := SlippageParam(amount, strike, false, decimals, beta, price, quote, toleranceBps);
            r.Ok? && r.value.contra == Div(amount * strike, Pow10(10))
            && 10000 * r.value.param >= r.value.contra * (10000 - CallBps(beta, toleranceBps)) > 10000 * (r.value.param - 1)
  {
    FloorIsZeroIff(Mul(amount, strike), Pow10(10));
    var contra, bps := Div(Mul(amount, strike), Pow10(10)), CallBps(beta, toleranceBps);
    assert contra * (10000 - bps) == 10000 * contra - Mul(contra, bps);
  }

  /** When there is no parameter, and why: the first check that fails. */
  lemma SlippageFailsIff(amount: int, strike: int, isPut: bool, decimals: nat, beta: bool, price: Option<int>,
                         quote: Option<nat>, toleranceBps: nat)
    requires decimals >= 8
    ensures var r := SlippageParam(amount, strike, isPut, decimals, beta, price, quote, toleranceBps);
            && (r == Err(BadAmount) <==> amount <= 0)
            && (r == Err(BadStrike) <==> amount > 0 >= strike)
            && (r == Err(NoPrice) <==> amount > 0 && strike > 0 && isPut && beta && price.None?)
            && (r == Err(BadPrice) <==> amount > 0 && strike > 0 && isPut && beta && price.Some? && price.value <= 0)
            && (r == Err(QuoterFailed) <==> amount > 0 && strike > 0 && isPut && !beta && quote.None?)
            && (r == Err(NoContra) <==> amount > 0 && strike > 0 && !isPut && amount * strike < Pow10(10))
            && r != Err(UnsupportedDecimals)
  {
    if amount > 0 && strike > 0 {
      FloorIsZeroIff(Mul(amount, strike), Pow10(10));
    }
  }

  // ── Solana ──

  /** _compute_solana_contra_amount. */
  function SolanaContraAmount(amount: int, strike: int, isPut: bool, decimals: nat): Result<nat, AmountError> {
    if amount <= 0 then Err(BadAmount)
    else if strike <= 0 then Err(BadStrike)
    else if isPut then
      if decimals < 8 || decimals > 18 then Err(UnsupportedDecimals)
      else Positive(Mul(amount, Pow10(decimals - 8)))
    else if decimals < 6 || decimals > 16 then Err(UnsupportedDecimals)
    else Positive(Div(Mul(amount, strike), Pow10(16 - decimals)))
  }

  function Positive(result: nat): Result<nat, AmountError> {
    if result == 0 then Err(NoContra) else Ok(result)
  }

  /** _compute_solana_collateral_amount; above 16 decimals the put branch would leave the integers. */
  function SolanaCollateralAmount(amount: nat, strike: nat, isPut: bool, decimals: nat): Result<nat, AmountError>
    requires isPut ==> decimals <= 16
  {
    if isPut then Ok(Div(Mul(amount, strike), Pow10(16 - decimals)))
    else if decimals < 8 then Err(UnsupportedDecimals)
    else Ok(Mul(amount, Pow10(decimals - 8)))
  }

  /** On what Solana accepts, both chains pay the same: any underlying for puts, 6-decimal USDC for calls. */
  lemma SolanaMatchesBase(amount: int, strike: int, isPut: bool, decimals: nat, underlying: nat)
    requires SolanaContraAmount(amount, strike, isPut, decimals).Ok? && underlying >= 8
    requires if isPut then underlying == decimals else decimals == 6
    ensures SolanaContraAmount(amount, strike, isPut, decimals) == Ok(ContraAmount(amount, strike, isPut, underlying))
  {}

  /** What a put locks is what a call with the same strike pays, and the other way round. */
  lemma PutsAndCallsMirror(amount: int, strike: int, isPut: bool, decimals: nat)
    requires SolanaContraAmount(amount, strike, !isPut, decimals).Ok? && (isPut ==> decimals <= 16)
    ensures SolanaCollateralAmount(amount, strike, isPut, decimals) == SolanaContraAmount(amount, strike, !isPut, decimals)
  {}

  /** When Solana refuses: what Base refuses, the decimals range, and the check against zero; otherwise what it pays. */
  lemma SolanaRefusesIff(amount: int, strike: int, isPut: bool, decimals: nat)
    ensures SolanaContraAmount(amount, strike, isPut, decimals) == Err(BadAmount) <==> amount <= 0
    ensures SolanaContraAmount(amount, strike, isPut, decimals) == Err(BadStrike) <==> amount > 0 >= strike
    ensures amount > 0 && strike > 0 ==>
              (SolanaContraAmount(amount, strike, isPut, decimals).Err?
          <==> if isPut then !(8 <= decimals <= 18) else !(6 <= decimals <= 16) || amount * strike < Pow10(16 - decimals))
    ensures SolanaContraAmount(amount, strike, isPut, decimals).Ok? && isPut ==>
              SolanaContraAmount(amount, strike, isPut, decimals).value == amount * Pow10(decimals - 8)
    ensures SolanaContraAmount(amount, strike, isPut, decimals).Ok? && !isPut ==>
              SolanaContraAmount(amount, strike, isPut, decimals).value == Div(amount * strike, Pow10(16 - decimals))
  {
    if amount > 0 && strike > 0 {
      if isPut {
        if 8 <= decimals <= 18 {
          ProductPositive(amount, Pow10(decimals - 8));
        }
      } else if 6 <= decimals <= 16 {
        FloorIsZeroIff(Mul(amount, strike), Pow10(16 - decimals));
      }
    }
  }
}
