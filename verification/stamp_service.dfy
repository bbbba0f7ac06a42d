/** The shipping-service client: its state (the rolling authenticator, the
    destination address and the per-instance idempotency token) and one pure
    step function per operation. Each step takes the remote service's answer
    as an input and returns the new client state, the remote calls made, and
    the operation's return value or the exception it raises. */
module StampService {
  import opened Values
  import opened Addresses
  import opened Remote

  /** Status codes of an address cleanse. */
  const ADDRESS_UNSHIPPABLE: int := -1
  const ADDRESS_MATCH: int := 1
  const ADDRESS_CITYSTATEZIPOK: int := 2

  /** Messages of the `InvalidArgumentException`s the client raises. */
  const ADDRESS_INVALID: string := "Address passed is invalid"
  const RATE_ARGUMENTS_REQUIRED: string := "From ZIP code and Weight are required!"
  const LABEL_ARGUMENTS_REQUIRED: string := "From Address and Rate are required!"
  const ADDRESS_NOT_CLEANSED: string := "Address must be cleansed first. Call cleanseAddress() first."

  /** What an operation can raise. */
  datatype Error =
    /** null given for a parameter declared with a non-nullable type; PHP
        rejects the call before the body runs */
    | TypeError(parameter: string)
    | InvalidArgument(message: string)
    /** account information was requested while the stored authenticator is null */
    | AuthenticatorNotSet
    /** a remote fault, logged and rethrown */
    | Fault(message: string)

  datatype Result<+T> = Ok(value: T) | Err(error: Error)

  /** The client instance's state. */
  datatype Client = Client(
    authenticator: Option<string>,
    toAddress: Option<Address>,
    integratorTxID: string)

  /** One operation on a client: the state afterwards (PHP objects keep
      their mutations when an exception escapes), the remote calls made in
      order, and the return value or raised error. */
  datatype Step<+T> = Step(client: Client, sent: seq<Request>, result: Result<T>)

  /** Nothing but the authenticator may differ between two client states. */
  predicate SameIdentity(c: Client, d: Client)
  {
    c.toAddress == d.toAddress && c.integratorTxID == d.integratorTxID
  }

  // ---------------------------------------------------------------------
  // Address cleansing
  // ---------------------------------------------------------------------

  /** The three-way outcome of a cleanse. */
  datatype CleanseResult =
    | Unshippable
    | Matched(address: Address)
    | CityStateZipAcceptable(address: Address)
  {
    /** The `status` entry of the returned array. */
    function Status(): int
    {
      match this
      case Unshippable => ADDRESS_UNSHIPPABLE
      case Matched(_) => ADDRESS_MATCH
      case CityStateZipAcceptable(_) => ADDRESS_CITYSTATEZIPOK
    }

    /** The `address` entry of the returned array; reading it from an
        unshippable result yields null. */
    function AddressEntry(): Option<Address>
    {
      if Unshippable? then None else Some(address)
    }
  }

  /** Classifies a cleanse response by its two flags. The last branch, where
      neither return is taken, is unreachable. */
  function Classify(resp: CleanseResponse): (r: CleanseResult)
    ensures !resp.cityStateZipOK ==> r == Unshippable
    ensures resp.cityStateZipOK && resp.addressMatch ==> r == Matched(resp.address)
    ensures resp.cityStateZipOK && !resp.addressMatch ==> r == CityStateZipAcceptable(resp.address)
  {
    if !resp.cityStateZipOK then Unshippable
    else if resp.addressMatch then Matched(resp.address)
    else if resp.cityStateZipOK then CityStateZipAcceptable(resp.address)
    else assert false; Unshippable
  }

  /** The status code, read back, determines the two flags: status 1 exactly
      when both hold, 2 exactly when only city/state/ZIP holds, -1 exactly when
      city/state/ZIP fails whatever the match flag says; and an address entry
      is present, equal to the response's address, exactly when city/state/ZIP
      holds. */
  lemma ClassificationIsExact(resp: CleanseResponse)
    ensures Classify(resp).Status() == ADDRESS_MATCH <==> resp.cityStateZipOK && resp.addressMatch
    ensures Classify(resp).Status() == ADDRESS_CITYSTATEZIPOK <==> resp.cityStateZipOK && !resp.addressMatch
    ensures Classify(resp).Status() == ADDRESS_UNSHIPPABLE <==> !resp.cityStateZipOK
    ensures Classify(resp).AddressEntry() == (if resp.cityStateZipOK then Some(resp.address) else None)
  {
  }

  /** `cleanseAddress($address)`. */
  function CleanseAddress(c: Client, address: Option<Address>, reply: Reply<CleanseResponse>): (s: Step<CleanseResult>)
    ensures address.None? ==> s == Step(c, [], Err(TypeError("address")))
    ensures address.Some? ==> s.sent == [CleanseAddressCall(c.authenticator, address.value)]
    ensures SameIdentity(c, s.client)
    ensures reply.Faulted? ==> s.client == c && s.result.Err?
    ensures address.Some? && reply.Faulted? ==> s.result == Err(Fault(reply.message))
    ensures address.Some? && reply.Answered? ==>
              s.client.authenticator == reply.response.authenticator
              && s.result == Ok(Classify(reply.response))
  {
    if address.None? then Step(c, [], Err(TypeError("address")))
    else
      var sent := [CleanseAddressCall(c.authenticator, address.value)];
      match reply
      case Faulted(m) => Step(c, sent, Err(Fault(m)))
      case Answered(resp) => Step(c.(authenticator := resp.authenticator), sent, Ok(Classify(resp)))
  }

  /** The caller's address object after a cleanse that reached the
      classification: only on the city/state/ZIP-acceptable outcome does it
      receive the response's override hash; nothing else about it changes. */
  function ArgumentAfterCleanse(a: Address, resp: CleanseResponse): (a': Address)
    ensures a'.overrideHash == (if Classify(resp).CityStateZipAcceptable? then resp.address.overrideHash else a.overrideHash)
    ensures a' == a.(overrideHash := a'.overrideHash)
  {
    if resp.cityStateZipOK && !resp.addressMatch then a.(overrideHash := resp.address.overrideHash) else a
  }

  // ---------------------------------------------------------------------
  // Rate quotes
  // ---------------------------------------------------------------------

  /** The arguments of `getRates` as passed (null = `None`). */
  datatype RateQuery = RateQuery(
    fromZIPCode: Option<string>,
    weight: Option<real>,
    serviceType: Option<string>,
    packageType: Option<string>,
    length: Option<real>,
    width: Option<real>,
    height: Option<real>,
    shipDate: Option<string>)

  /** The argument check as written: it fires only when BOTH are missing. */
  predicate BothMissing<A, B>(a: Option<A>, b: Option<B>)
  {
    a.None? && b.None?
  }

  function BlankIfAbsent(x: Option<real>): (d: Dimension)
    ensures d.Blank? <==> x.None?
    ensures x.Some? ==> d == Given(x.value)
  {
    if x.Some? then Given(x.value) else Blank
  }

  /** Reads an optional dimension back out of a request. */
  function Recover(d: Dimension): Option<real>
  {
    if d.Given? then Some(d.value) else None
  }

  /** The `Rate` payload of the request: the destination ZIP code comes from
      the stored destination (null when none is stored), absent optional
      fields become empty, present ones pass unchanged, and the ship date
      defaults to `defaultShipDate` (three days from now in the source). */
  function BuildRateRequest(c: Client, q: RateQuery, defaultShipDate: string): (r: RateRequest)
    requires q.fromZIPCode.Some? && q.weight.Some?
    ensures r.fromZipCode == q.fromZIPCode.value && r.weightLb == q.weight.value
    ensures r.toZIPCode.Some? <==> c.toAddress.Some?
    ensures c.toAddress.Some? ==> r.toZIPCode.value == c.toAddress.value.zipCode
    ensures q.serviceType.Some? ==> r.serviceType == q.serviceType.value
    ensures q.serviceType.None? ==> r.serviceType == ""
    ensures q.packageType.Some? ==> r.packageType == q.packageType.value
    ensures q.packageType.None? ==> r.packageType == ""
    ensures Recover(r.length) == q.length && Recover(r.width) == q.width && Recover(r.height) == q.height
    ensures r.shipDate == (if q.shipDate.Some? then q.shipDate.value else defaultShipDate)
  {
    RateRequest(
      q.fromZIPCode.value,
      if c.toAddress.Some? then Some(c.toAddress.value.zipCode) else None,
      q.weight.value,
      q.serviceType.GetOr(""),
      q.packageType.GetOr(""),
      BlankIfAbsent(q.length),
      BlankIfAbsent(q.width),
      BlankIfAbsent(q.height),
      q.shipDate.GetOr(defaultShipDate))
  }

  /** "Not specified" and zero stay distinct in the request, and an empty
      string field means the caller gave nothing or gave the empty string. */
  lemma RateRequestKeepsAbsence(c: Client, q: RateQuery, defaultShipDate: string)
    requires q.fromZIPCode.Some? && q.weight.Some?
    ensures BuildRateRequest(c, q, defaultShipDate).length.Blank? <==> q.length.None?
    ensures q.length == Some(0.0) ==> BuildRateRequest(c, q, defaultShipDate).length == Given(0.0)
    ensures BuildRateRequest(c, q, defaultShipDate).serviceType == "" <==> q.serviceType in {None, Some("")}
    ensures BuildRateRequest(c, q, defaultShipDate).packageType == "" <==> q.packageType in {None, Some("")}
  {
  }

  /** `unset($rate->AddOns)`: drops the AddOns field and keeps every other
      field as it was. */
  function StripAddOns(r: Rate): (s: Rate)
    ensures ADD_ONS !in s
    ensures s.Keys == r.Keys - {ADD_ONS}
    ensures forall k :: k in s ==> s[k] == r[k]
  {
    r - {ADD_ONS}
  }

  /** The foreach over a list of rates. */
  function StripEach(rates: seq<Rate>): (out: seq<Rate>)
    ensures |out| == |rates|
    ensures forall i :: 0 <= i < |out| ==> ADD_ONS !in out[i]
    ensures forall i :: 0 <= i < |out| ==> out[i].Keys == rates[i].Keys - {ADD_ONS}
    ensures forall i, k :: 0 <= i < |out| && k in out[i] ==> out[i][k] == rates[i][k]
  {
    if rates == [] then [] else [StripAddOns(rates[0])] + StripEach(rates[1..])
  }

  /** No rate in the shape has an AddOns field. */
  predicate FreeOfAddOns(shape: RateShape)
  {
    match shape
    case OneRate(r) => ADD_ONS !in r
    case RateList(rs) => forall i :: 0 <= i < |rs| ==> ADD_ONS !in rs[i]
  }

  /** Strips AddOns from either response shape, keeping the shape. */
  function StripRates(shape: RateShape): (out: RateShape)
    ensures FreeOfAddOns(out)
    ensures out.OneRate? <==> shape.OneRate?
    ensures out.RateList? ==> |out.rates| == |shape.rates|
    ensures out.OneRate? ==> out.rate == StripAddOns(shape.rate)
    ensures out.RateList? ==> forall i :: 0 <= i < |out.rates| ==> out.rates[i] == StripAddOns(shape.rates[i])
  {
    match shape
    case OneRate(r) => OneRate(StripAddOns(r))
    case RateList(rs) => RateList(StripEach(rs))
  }

  /** Stripping is idempotent and leaves an already clean shape alone. */
  lemma {:induction false} StripRatesIdempotent(shape: RateShape)
    ensures FreeOfAddOns(shape) ==> StripRates(shape) == shape
    ensures StripRates(StripRates(shape)) == StripRates(shape)
  {
    match shape
    case OneRate(r) =>
    case RateList(rs) =>
      StripEachFixesClean(rs);
      StripEachFixesClean(StripEach(rs));
  }

  lemma {:induction false} StripEachFixesClean(rates: seq<Rate>)
    ensures (forall i :: 0 <= i < |rates| ==> ADD_ONS !in rates[i]) ==> StripEach(rates) == rates
  {
    if rates != [] && forall i :: 0 <= i < |rates| ==> ADD_ONS !in rates[i] {
      assert ADD_ONS !in rates[0];
      assert StripAddOns(rates[0]) == rates[0];
      assert forall i :: 0 <= i < |rates[1..]| ==> ADD_ONS !in rates[1..][i] by {
        forall i | 0 <= i < |rates[1..]| ensures ADD_ONS !in rates[1..][i] {
          assert rates[1..][i] == rates[i + 1];
        }
      }
      StripEachFixesClean(rates[1..]);
      assert rates == [rates[0]] + rates[1..];
    }
  }

  /** `getRates(...)`. */
  function GetRates(c: Client, q: RateQuery, defaultShipDate: string, reply: Reply<RatesResponse>): (s: Step<RateShape>)
    ensures q.fromZIPCode.None? ==> s == Step(c, [], Err(TypeError("fromZIPCode")))
    ensures q.fromZIPCode.Some? && q.weight.None? ==> s == Step(c, [], Err(TypeError("weight")))
    ensures q.fromZIPCode.Some? && q.weight.Some? ==>
              s.sent == [GetRatesCall(c.authenticator, BuildRateRequest(c, q, defaultShipDate))]
    ensures s.result != Err(InvalidArgument(RATE_ARGUMENTS_REQUIRED))
    ensures SameIdentity(c, s.client)
    ensures reply.Faulted? ==> s.client == c && s.result.Err?
    ensures s.result.Ok? ==> FreeOfAddOns(s.result.value)
    ensures q.fromZIPCode.Some? && q.weight.Some? && reply.Faulted? ==> s.result == Err(Fault(reply.message))
    ensures q.fromZIPCode.Some? && q.weight.Some? && reply.Answered? ==>
              s.client.authenticator == reply.response.authenticator
              && s.result == Ok(StripRates(reply.response.rates))
  {
    if q.fromZIPCode.None? then Step(c, [], Err(TypeError("fromZIPCode")))
    else if q.weight.None? then Step(c, [], Err(TypeError("weight")))
    else if BothMissing(q.fromZIPCode, q.weight) then Step(c, [], Err(InvalidArgument(RATE_ARGUMENTS_REQUIRED)))
    else
      var sent := [GetRatesCall(c.authenticator, BuildRateRequest(c, q, defaultShipDate))];
      match reply
      case Faulted(m) => Step(c, sent, Err(Fault(m)))
      case Answered(resp) => Step(c.(authenticator := resp.authenticator), sent, Ok(StripRates(resp.rates)))
  }

  // ---------------------------------------------------------------------
  // Account information and postage purchase
  // ---------------------------------------------------------------------

  /** `getAccountInfo()`: the response when it carries account information,
      null otherwise. */
  function GetAccountInfo(c: Client, reply: Reply<AccountInfoResponse>): (s: Step<Option<AccountInfoResponse>>)
    ensures c.authenticator.None? ==> s == Step(c, [], Err(AuthenticatorNotSet))
    ensures c.authenticator.Some? ==> s.sent == [GetAccountInfoCall(c.authenticator)]
    ensures SameIdentity(c, s.client)
    ensures (s.result.Ok? && s.result.value.Some?)
            <==> c.authenticator.Some? && reply.Answered? && reply.response.accountInfo.Some?
    ensures s.result.Ok? && s.result.value.Some? ==>
              s.result.value == Some(reply.response)
              && s.client.authenticator == reply.response.authenticator
    ensures !(s.result.Ok? && s.result.value.Some?) ==> s.client == c
    ensures c.authenticator.Some? && reply.Faulted? ==> s.result == Err(Fault(reply.message))
    ensures c.authenticator.Some? && reply.Answered? && reply.response.accountInfo.None? ==> s.result == Ok(None)
  {
    if c.authenticator.None? then Step(c, [], Err(AuthenticatorNotSet))
    else
      var sent := [GetAccountInfoCall(c.authenticator)];
      match reply
      case Faulted(m) => Step(c, sent, Err(Fault(m)))
      case Answered(resp) =>
        if resp.accountInfo.Some? then Step(c.(authenticator := resp.authenticator), sent, Ok(Some(resp)))
        else Step(c, sent, Ok(None))
  }

  /** The status value of a successful purchase. */
  const PURCHASE_SUCCESS: string := "Success"

  /** The account information stage of a purchase succeeded. */
  predicate AccountInfoAvailable(c: Client, infoReply: Reply<AccountInfoResponse>)
  {
    c.authenticator.Some? && infoReply.Answered? && infoReply.response.accountInfo.Some?
  }

  /** `purchasePostage($amount)`: `Some(true)`, `Some(false)`, or `None` for
      the null it returns when no account information came back. */
  function PurchasePostage(
    c: Client, amount: Option<real>,
    infoReply: Reply<AccountInfoResponse>, purchaseReply: Reply<PurchaseResponse>): (s: Step<Option<bool>>)
    ensures amount.None? ==> s == Step(c, [], Err(TypeError("amount")))
    ensures amount.Some? && c.authenticator.None? ==> s == Step(c, [], Err(AuthenticatorNotSet))
    ensures amount.Some? && c.authenticator.Some? && infoReply.Faulted? ==>
              s == Step(c, [GetAccountInfoCall(c.authenticator)], Err(Fault(infoReply.message)))
    ensures amount.Some? && c.authenticator.Some? && infoReply.Answered? && infoReply.response.accountInfo.None? ==>
              s == Step(c, [GetAccountInfoCall(c.authenticator)], Ok(None))
    ensures amount.Some? && AccountInfoAvailable(c, infoReply) && purchaseReply.Faulted? ==>
              s.result == Err(Fault(purchaseReply.message))
              && s.client.authenticator == infoReply.response.authenticator
    ensures s.result == Ok(Some(true))
            <==> amount.Some? && AccountInfoAvailable(c, infoReply) && purchaseReply.Answered?
                 && purchaseReply.response.purchaseStatus == Some(PURCHASE_SUCCESS)
    ensures s.result == Ok(Some(false))
            <==> amount.Some? && AccountInfoAvailable(c, infoReply) && purchaseReply.Answered?
                 && purchaseReply.response.purchaseStatus != Some(PURCHASE_SUCCESS)
    ensures s.result == Ok(Some(true)) ==> s.client.authenticator == purchaseReply.response.authenticator
    ensures s.result == Ok(Some(false)) ==> s.client.authenticator == infoReply.response.authenticator
    ensures amount.Some? && AccountInfoAvailable(c, infoReply) ==>
              s.sent == [GetAccountInfoCall(c.authenticator),
                         PurchasePostageCall(infoReply.response.authenticator, amount.value,
                                             infoReply.response.accountInfo.value.controlTotal,
                                             c.integratorTxID)]
    ensures s.result.Err? ==> s.result.error.TypeError? || s.result.error.AuthenticatorNotSet? || s.result.error.Fault?
    ensures SameIdentity(c, s.client)
  {
    if amount.None? then Step(c, [], Err(TypeError("amount")))
    else
      var info := GetAccountInfo(c, infoReply);
      match info.result
      case Err(e) => Step(info.client, info.sent, Err(e))
      case Ok(None) => Step(info.client, info.sent, Ok(None))
      case Ok(Some(resp)) =>
        var c1 := info.client;
        var sent := info.sent + [PurchasePostageCall(c1.authenticator, amount.value,
                                                     resp.accountInfo.value.controlTotal, c1.integratorTxID)];
        match purchaseReply
        case Faulted(m) => Step(c1, sent, Err(Fault(m)))
        case Answered(p) =>
          if p.purchaseStatus.Some? && p.purchaseStatus.value == PURCHASE_SUCCESS
          then Step(c1.(authenticator := p.authenticator), sent, Ok(Some(true)))
          else Step(c1, sent, Ok(Some(false)))
  }

  // ---------------------------------------------------------------------
  // Label issuance
  // ---------------------------------------------------------------------

  /** The four entries of the returned array. */
  datatype Label = Label(trackingNumber: string, stampsTxID: string, url: string, rate: Rate)

  /** `(array) $rate` with the origin ZIP code stamped in: a null rate casts
      to the empty array. */
  function LabelRate(from: Address, rate: Option<Rate>): (r: Rate)
    ensures FROM_ZIP_CODE in r && r[FROM_ZIP_CODE] == Text(from.zipCode)
    ensures rate.Some? ==> r.Keys == rate.value.Keys + {FROM_ZIP_CODE}
    ensures rate.None? ==> r.Keys == {FROM_ZIP_CODE}
    ensures rate.Some? ==> forall k :: k in rate.value && k != FROM_ZIP_CODE ==> r[k] == rate.value[k]
  {
    rate.GetOr(map[])[FROM_ZIP_CODE := Text(from.zipCode)]
  }

  /** `generateShippingLabel($fromAddress, $rate)`. */
  function GenerateShippingLabel(c: Client, from: Option<Address>, rate: Option<Rate>, reply: Reply<IndiciumResponse>): (s: Step<Label>)
    ensures s.sent != [] <==> from.Some? && IsCleansed(from.value)
    ensures s.sent == [] ==> s.client == c && s.result.Err? && s.result.error.InvalidArgument?
    ensures s.result == Err(InvalidArgument(LABEL_ARGUMENTS_REQUIRED)) <==> BothMissing(from, rate)
    ensures !BothMissing(from, rate) && (from.None? || !IsCleansed(from.value)) ==>
              s == Step(c, [], Err(InvalidArgument(ADDRESS_NOT_CLEANSED)))
    ensures s.sent != [] && reply.Faulted? ==> s.result == Err(Fault(reply.message))
    ensures s.sent != [] ==>
              s.sent == [CreateIndiciumCall(c.authenticator, c.integratorTxID,
                                            LabelRate(from.value, rate), from.value, c.toAddress)]
    ensures SameIdentity(c, s.client)
    ensures reply.Faulted? ==> s.client == c && s.result.Err?
    ensures s.result.Ok? ==>
              reply.Answered?
              && s.client.authenticator == reply.response.authenticator
              && s.result.value == Label(reply.response.trackingNumber, reply.response.stampsTxID,
                                         reply.response.url, reply.response.rate)
    ensures s.sent != [] && reply.Answered? ==> s.result.Ok?
  {
    if BothMissing(from, rate) then Step(c, [], Err(InvalidArgument(LABEL_ARGUMENTS_REQUIRED)))
    else if from.None? || !IsCleansed(from.value) then Step(c, [], Err(InvalidArgument(ADDRESS_NOT_CLEANSED)))
    else
      var sent := [CreateIndiciumCall(c.authenticator, c.integratorTxID, LabelRate(from.value, rate), from.value, c.toAddress)];
      match reply
      case Faulted(m) => Step(c, sent, Err(Fault(m)))
      case Answered(resp) =>
        Step(c.(authenticator := resp.authenticator), sent,
             Ok(Label(resp.trackingNumber, resp.stampsTxID, resp.url, resp.rate)))
  }

  /** A freshly constructed address is rejected by label issuance before any
      remote call, whatever the rate and the remote answer would be. */
  lemma FreshAddressIsRejected(
    c: Client, firstName: string, lastName: string, address: string, city: string,
    state: string, zip: string, phoneNumber: string, email: string,
    rate: Option<Rate>, reply: Reply<IndiciumResponse>)
    ensures var s := GenerateShippingLabel(c, Some(NewAddress(firstName, lastName, address, city, state, zip, phoneNumber, email)), rate, reply);
            s.sent == [] && s.client == c && s.result == Err(InvalidArgument(ADDRESS_NOT_CLEANSED))
  {
  }

  /** Only a cleansed address gets past the check; an address given an
      override hash by the cleanser (the caller's object after a
      city/state/ZIP-acceptable cleanse) is accepted when the response
      carried one. */
  lemma CleansedArgumentIsAccepted(a: Address, resp: CleanseResponse)
    requires Classify(resp).CityStateZipAcceptable? && resp.address.overrideHash.Some?
    ensures IsCleansed(ArgumentAfterCleanse(a, resp))
  {
  }

  // ---------------------------------------------------------------------
  // Construction
  // ---------------------------------------------------------------------

  /** The remote calls made by the constructor and the client it produces. */
  datatype Construction = Construction(sent: seq<Request>, result: Result<Client>)

  /** `new StampService($toAddress)`: authenticate, then cleanse either the
      given destination (rejecting it unless it is shippable) or the default
      recipient (storing whatever the cleanse returned, null included). The
      idempotency token is a parameter; the source draws it at random. */
  function Construct(
    toAddress: Option<Address>, integratorTxID: string,
    authReply: Reply<AuthenticateResponse>, cleanseReply: Reply<CleanseResponse>): (r: Construction)
    ensures authReply.Faulted? ==> r == Construction([AuthenticateUserCall], Err(Fault(authReply.message)))
    ensures authReply.Answered? ==>
              r.sent == [AuthenticateUserCall,
                         CleanseAddressCall(authReply.response.authenticator, toAddress.GetOr(KAIVAL_ADDRESS))]
    ensures authReply.Answered? && cleanseReply.Faulted? ==>
              r == Construction([AuthenticateUserCall,
                                 CleanseAddressCall(authReply.response.authenticator, toAddress.GetOr(KAIVAL_ADDRESS))],
                                Err(Fault(cleanseReply.message)))
    ensures r.result.Ok? ==>
              authReply.Answered? && cleanseReply.Answered?
              && r.result.value.integratorTxID == integratorTxID
              && r.result.value.authenticator == cleanseReply.response.authenticator
    ensures toAddress.Some? ==>
              (r.result.Ok? <==> authReply.Answered? && cleanseReply.Answered? && cleanseReply.response.cityStateZipOK)
    ensures toAddress.Some? && r.result.Ok? ==> r.result.value.toAddress == Some(cleanseReply.response.address)
    ensures toAddress.Some? && authReply.Answered? && cleanseReply.Answered? && !cleanseReply.response.cityStateZipOK ==>
              r.result == Err(InvalidArgument(ADDRESS_INVALID))
    ensures toAddress.None? ==> (r.result.Ok? <==> authReply.Answered? && cleanseReply.Answered?)
    ensures toAddress.None? && r.result.Ok? ==>
              r.result.value.toAddress == (if cleanseReply.response.cityStateZipOK then Some(cleanseReply.response.address) else None)
  {
    match authReply
    case Faulted(m) => Construction([AuthenticateUserCall], Err(Fault(m)))
    case Answered(auth) =>
      // The object under construction: the stored authenticator is whatever
      // authentication returned, null when the response had none.
      var pre := Client(auth.authenticator, None, integratorTxID);
      var res := CleanseAddress(pre, Some(toAddress.GetOr(KAIVAL_ADDRESS)), cleanseReply);
      var sent := [AuthenticateUserCall] + res.sent;
      match res.result
      case Err(e) => Construction(sent, Err(e))
      case Ok(outcome) =>
        if toAddress.Some? then
          if outcome.Status() == ADDRESS_MATCH || outcome.Status() == ADDRESS_CITYSTATEZIPOK
          then Construction(sent, Ok(res.client.(toAddress := outcome.AddressEntry())))
          else Construction(sent, Err(InvalidArgument(ADDRESS_INVALID)))
        else Construction(sent, Ok(res.client.(toAddress := outcome.AddressEntry())))
  }
}
