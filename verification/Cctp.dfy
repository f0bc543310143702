/** The amount fields of a Circle CCTP V2 burn message (src/bridge/cctp.py). */
module Cctp {
  import opened Bytes
  import opened Wrappers

  const HEADER_SIZE := 148
  const BODY_SIZE := 196

  /** The caller's fallback for the gross amount: absent, not an integer, or an integer. */
  datatype Fallback = Absent | Malformed | Amount(value: int)

  datatype Amounts = Amounts(gross: int, fee: int, net: int)

  datatype ParseError = TooShort | BadFallback | FeeExceedsGross

  /**
   * Python's int(fallback): every use of the fallback goes through it, so a
   * malformed fallback only matters when it is consulted.
   */
  function ReadFallback(fallback: Fallback): Result<int, ParseError> {
    match fallback
    case Absent => Err(TooShort)
    case Malformed => Err(BadFallback)
    case Amount(v) => Ok(v)
  }

  function CheckFee(gross: int, fee: nat): Result<Amounts, ParseError> {
    if fee > gross then Err(FeeExceedsGross) else Ok(Amounts(gross, fee, gross - fee))
  }

  function ParseBurnAmounts(message: seq<byte>, fallback: Fallback): (r: Result<Amounts, ParseError>)
    ensures r.Ok? ==> r.value.gross == r.value.fee + r.value.net && r.value.fee >= 0
  {
    if |message| < HEADER_SIZE + BODY_SIZE then
      match ReadFallback(fallback)
      case Err(e) => Err(e)
      case Ok(gross) => Ok(Amounts(gross, 0, gross))
    else
      var body := message[HEADER_SIZE..];
      var gross := FromBE(body[68..100]);
      var fee := FromBE(body[164..196]);
      if gross == 0 && !fallback.Absent? then
        match ReadFallback(fallback)
        case Err(e) => Err(e)
        case Ok(g) => CheckFee(g, fee)
      else
        CheckFee(gross, fee)
  }

  /** The layout the contract emits: the parts between the two amounts are opaque. */
  datatype BurnMessage = BurnMessage(
    header: seq<byte>, lead: seq<byte>, gross: nat, middle: seq<byte>, fee: nat, tail: seq<byte>)
  {
    ghost predicate WellFormed() {
      && |header| == HEADER_SIZE && |lead| == 68 && |middle| == 64
      && gross < Pow256(32) && fee < Pow256(32)
    }

    function Encode(): seq<byte>
      requires WellFormed()
    {
      header + (lead + ToBE(gross, 32) + middle + ToBE(fee, 32) + tail)
    }
  }

  function StatedGross(m: BurnMessage, fallback: Fallback): int {
    if m.gross == 0 && fallback.Amount? then fallback.value else m.gross
  }

  /**
   * Parsing an encoded message gives back the amounts that were put in, a zero gross
   * amount being replaced by the fallback if there is one; it fails exactly when that
   * fallback is malformed or the fee exceeds the gross amount.
   */
  lemma ParseOfEncoding(m: BurnMessage, fallback: Fallback)
    requires m.WellFormed()
    ensures ParseBurnAmounts(m.Encode(), fallback)
         == if m.gross == 0 && fallback.Malformed? then Err(BadFallback) else CheckFee(StatedGross(m, fallback), m.fee)
    ensures CheckFee(StatedGross(m, fallback), m.fee).Ok? <==> m.fee <= StatedGross(m, fallback)
  {
    hide ToBE, FromBE, Pow256;
    var body := m.Encode()[HEADER_SIZE..];
    assert body == m.lead + ToBE(m.gross, 32) + m.middle + ToBE(m.fee, 32) + m.tail;
    assert body[68..100] == ToBE(m.gross, 32);
    assert body[164..196] == ToBE(m.fee, 32);
    FromToBE(m.gross, 32);
    FromToBE(m.fee, 32);
  }

  /**
   * The net amount is never negative except through a negative fallback: on a
   * message that is too short the fallback is taken over unchecked, sign included.
   */
  lemma NetIsNegativeIff(message: seq<byte>, fallback: Fallback)
    requires ParseBurnAmounts(message, fallback).Ok?
    ensures ParseBurnAmounts(message, fallback).value.net < 0
       <==> |message| < HEADER_SIZE + BODY_SIZE && fallback.Amount? && fallback.value < 0
  {
    if |message| >= HEADER_SIZE + BODY_SIZE {
      var body := message[HEADER_SIZE..];
      assert FromBE(body[164..196]) >= 0;
    }
  }
}
