/**
The enriched trade handed to the partner: TradeEvent of go/v1/types.go.
*/
module TradeEvents {
  import opened Options
  import opened Decimals
  import opened Money
  import opened Store

  class TradeEvent {
    const filledQuantity: string
    const executionRate: string
    const side: int
    const currencyPair: string
    const account: string
    const clientId: string
    const feeFixed: Option<string>
    var settlement: Dec
    var fee: Dec

    constructor (filledQuantity: string, executionRate: string, side: int, currencyPair: string,
                 account: string, clientId: string, feeFixed: Option<string>)
      ensures this.filledQuantity == filledQuantity && this.executionRate == executionRate
      ensures this.side == side && this.currencyPair == currencyPair && this.account == account
      ensures this.clientId == clientId && this.feeFixed == feeFixed
      ensures settlement == 0 && fee == 0
    {
      this.filledQuantity, this.executionRate := filledQuantity, executionRate;
      this.side, this.currencyPair, this.account := side, currencyPair, account;
      this.clientId, this.feeFixed := clientId, feeFixed;
      settlement, fee := 0, 0;
    }

    /** What the handler is asked to move. */
    function AsPay(): Pay
      reads this
    {
      Pay(side, currencyPair, account, clientId, settlement, fee)
    }

    function Outcome(): Option<Amounts> { Calc(filledQuantity, executionRate, side, feeFixed) }

    /**
    Computes fee and settlement in place. A quantity or rate that does not parse leaves
    both as they were; a fee that does not parse clears the fee and leaves the settlement.
    */
    method Cal() returns (ok: bool)
      modifies this
      ensures ok <==> Priceable(filledQuantity, executionRate, feeFixed)
      ensures ok ==> Priced(Parse(filledQuantity).value, Parse(executionRate).value, PercentOf(feeFixed), side,
                            Amounts(settlement, fee))
      ensures Outcome() == if ok then Some(Amounts(settlement, fee)) else None
      ensures !ok ==> settlement == old(settlement)
      ensures !ok ==> fee == if Parse(filledQuantity).Some? && Parse(executionRate).Some? then 0 else old(fee)
    {
      CalcParts(filledQuantity, executionRate, side, feeFixed);
      hide Calc, Parse, FeePercent, Mul, Percentage, RoundBank6, Priced, Priceable, PercentOf;
      var qty := Parse(filledQuantity);
      if qty.None? { return false; }
      var rate := Parse(executionRate);
      if rate.None? { return false; }
      var m := Mul(qty.value, rate.value);
      var parsed := FeePercent(feeFixed);
      fee := if parsed.Some? then parsed.value else 0;
      if parsed.None? { return false; }
      fee := Percentage(m, fee);
      if side == BUY {
        settlement := RoundBank6(m + fee);
        return true;
      }
      settlement := RoundBank6(m - fee);
      return true;
    }
  }
}
