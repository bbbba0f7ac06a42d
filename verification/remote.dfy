/** The boundary to the remote shipping service. The service itself is an
    oracle: every call's answer is an input to the model, and every call the
    client makes is recorded as a `Request` value. */
module Remote {
  import opened Values
  import opened Addresses

  /** The outcome of one remote call: an answer, or a fault the transport
      raised (which the client logs and rethrows). */
  datatype Reply<+T> = Answered(response: T) | Faulted(message: string)

  datatype AuthenticateResponse = AuthenticateResponse(authenticator: Option<string>)

  /** The part of `AccountInfo` the client reads: the postage balance's
      control total, an optimistic-concurrency fencing value. */
  datatype AccountInfo = AccountInfo(controlTotal: real)

  datatype AccountInfoResponse =
    AccountInfoResponse(authenticator: Option<string>, accountInfo: Option<AccountInfo>)

  datatype PurchaseResponse =
    PurchaseResponse(authenticator: Option<string>, purchaseStatus: Option<string>)

  datatype CleanseResponse = CleanseResponse(
    authenticator: Option<string>,
    cityStateZipOK: bool,
    addressMatch: bool,
    address: Address)

  /** The `Rates->Rate` element comes back as one object when the service
      found one rate and as an array when it found several. */
  datatype RateShape = OneRate(rate: Rate) | RateList(rates: seq<Rate>)

  datatype RatesResponse = RatesResponse(authenticator: Option<string>, rates: RateShape)

  datatype IndiciumResponse = IndiciumResponse(
    authenticator: Option<string>,
    trackingNumber: string,
    stampsTxID: string,
    url: string,
    rate: Rate)

  /** An optional numeric request field: the empty string `''` when the
      caller gave nothing, so that "not specified" differs from zero. */
  datatype Dimension = Blank | Given(value: real)

  /** The `Rate` payload of a GetRates request. */
  datatype RateRequest = RateRequest(
    fromZipCode: string,
    toZIPCode: Option<string>,
    weightLb: real,
    serviceType: string,
    packageType: string,
    length: Dimension,
    width: Dimension,
    height: Dimension,
    shipDate: string)

  /** One remote call as the client issues it. */
  datatype Request =
    | AuthenticateUserCall
    | GetAccountInfoCall(authenticator: Option<string>)
    | PurchasePostageCall(authenticator: Option<string>, purchaseAmount: real,
                          controlTotal: real, integratorTxID: string)
    | CleanseAddressCall(authenticator: Option<string>, address: Address)
    | GetRatesCall(authenticator: Option<string>, rateRequest: RateRequest)
    | CreateIndiciumCall(authenticator: Option<string>, integratorTxID: string,
                         rate: Rate, from: Address, to: Option<Address>)
  {
    /** The credential a call presents; authentication presents none. */
    predicate Presents(token: Option<string>)
    {
      !AuthenticateUserCall? && authenticator == token
    }

    /** Every call that carries an idempotency token carries `id`. */
    predicate CarriesTxIDOf(id: string)
    {
      (PurchasePostageCall? || CreateIndiciumCall?) ==> integratorTxID == id
    }
  }
}
