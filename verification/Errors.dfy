/** The error values the SDK's calls return. */
module Errors {

  datatype SdkError =
    | ClientIDRequired
    | PartnerIDRequired
    | SegmentRequired
    | InvalidOrderType
    | LimitRateRequired
    | InvalidCounterpartySegment
    | TreasuryCounterpartyOnly
    | BadDecimal
    | DuplicateOrder
    | OrderIDRequired
    | OrderDayRequired
    | InvalidDay
    | InvalidHour
    | InvalidRecoverRange
    | DatabaseFailed
    | CoreFailed
}
