/** A client's lifetime as a sequence of public operations, each with the
    remote answers it receives, and the properties that hold across calls:
    the idempotency token and the destination never change after
    construction, and every call presents the token the previous call left. */
module Sessions {
  import opened Values
  import opened Addresses
  import opened Remote
  import opened StampService

  /** One public operation with its arguments and the remote answers. */
  datatype Op =
    | Purchase(amount: Option<real>, infoReply: Reply<AccountInfoResponse>, purchaseReply: Reply<PurchaseResponse>)
    | Cleanse(address: Option<Address>, cleanseReply: Reply<CleanseResponse>)
    | Quote(query: RateQuery, defaultShipDate: string, ratesReply: Reply<RatesResponse>)
    | Issue(from: Option<Address>, rate: Option<Rate>, labelReply: Reply<IndiciumResponse>)

  /** The state after `op` and the remote calls it made. */
  function Perform(c: Client, op: Op): (Client, seq<Request>)
  {
    match op
    case Purchase(amount, infoReply, purchaseReply) =>
      var s := PurchasePostage(c, amount, infoReply, purchaseReply); (s.client, s.sent)
    case Cleanse(address, reply) =>
      var s := CleanseAddress(c, address, reply); (s.client, s.sent)
    case Quote(query, defaultShipDate, reply) =>
      var s := GetRates(c, query, defaultShipDate, reply); (s.client, s.sent)
    case Issue(from, rate, reply) =>
      var s := GenerateShippingLabel(c, from, rate, reply); (s.client, s.sent)
  }

  /** The state after a sequence of operations and every remote call made. */
  function Run(c: Client, ops: seq<Op>): (Client, seq<Request>)
    decreases |ops|
  {
    if ops == [] then (c, [])
    else
      var first := Perform(c, ops[0]);
      var rest := Run(first.0, ops[1..]);
      (rest.0, first.1 + rest.1)
  }

  /** The token rotation rules, collected in one place: `Some(t)` when `op`
      makes the client adopt the token `t` from a remote answer, `None` when
      it leaves the stored token alone. Cleanse, quote and label issuance
      adopt their answer's token whenever the arguments pass and the service
      answers; a purchase adopts the account-information token once that
      lookup succeeds, and the purchase token on top only on "Success". */
  function Adopted(c: Client, op: Op): Option<Option<string>>
  {
    match op
    case Cleanse(address, reply) =>
      if address.Some? && reply.Answered? then Some(reply.response.authenticator) else None
    case Quote(q, _, reply) =>
      if q.fromZIPCode.Some? && q.weight.Some? && reply.Answered? then Some(reply.response.authenticator) else None
    case Issue(from, _, reply) =>
      if from.Some? && IsCleansed(from.value) && reply.Answered? then Some(reply.response.authenticator) else None
    case Purchase(amount, infoReply, purchaseReply) =>
      if amount.Some? && AccountInfoAvailable(c, infoReply) then
        if purchaseReply.Answered? && purchaseReply.response.purchaseStatus == Some(PURCHASE_SUCCESS)
        then Some(purchaseReply.response.authenticator)
        else Some(infoReply.response.authenticator)
      else None
  }

  /** Each operation leaves exactly the token the rotation rules name, and
      never touches the destination or the idempotency token. */
  lemma PerformFollowsRotation(c: Client, op: Op)
    ensures Perform(c, op).0.authenticator
            == (if Adopted(c, op).Some? then Adopted(c, op).value else c.authenticator)
    ensures SameIdentity(c, Perform(c, op).0)
  {
  }

  /** The first remote call of any operation presents the stored token. */
  lemma PerformPresentsStoredToken(c: Client, op: Op)
    ensures Perform(c, op).1 != [] ==> Perform(c, op).1[0].Presents(c.authenticator)
  {
  }

  /** The token chain: whatever one operation did, the next remote call
      presents the token it adopted, or the one stored before it when it
      adopted none. */
  lemma TokenChain(c: Client, first: Op, second: Op)
    ensures var next := Perform(Perform(c, first).0, second).1;
            next != [] ==>
              next[0].Presents(if Adopted(c, first).Some? then Adopted(c, first).value else c.authenticator)
  {
    PerformFollowsRotation(c, first);
    PerformPresentsStoredToken(Perform(c, first).0, second);
  }

  /** Every remote call of one operation that carries an idempotency token
      carries the client's. */
  lemma PerformCarriesTxID(c: Client, op: Op)
    ensures forall i :: 0 <= i < |Perform(c, op).1| ==> Perform(c, op).1[i].CarriesTxIDOf(c.integratorTxID)
  {
  }

  /** Over any sequence of operations, the idempotency token and the
      destination stay those set by the constructor, and every purchase and
      label call in the trace carries that same idempotency token. */
  lemma {:induction false} RunKeepsIdentity(c: Client, ops: seq<Op>)
    ensures SameIdentity(c, Run(c, ops).0)
    ensures forall i :: 0 <= i < |Run(c, ops).1| ==> Run(c, ops).1[i].CarriesTxIDOf(c.integratorTxID)
    decreases |ops|
  {
    if ops != [] {
      var first := Perform(c, ops[0]);
      PerformFollowsRotation(c, ops[0]);
      PerformCarriesTxID(c, ops[0]);
      RunKeepsIdentity(first.0, ops[1..]);
      var rest := Run(first.0, ops[1..]);
      var trace := first.1 + rest.1;
      assert Run(c, ops).1 == trace;
      forall i | 0 <= i < |trace| ensures trace[i].CarriesTxIDOf(c.integratorTxID) {
        if i >= |first.1| {
          assert trace[i] == rest.1[i - |first.1|];
        }
      }
    }
  }

  /** A client whose destination was set at construction keeps it for its
      whole lifetime: every rate quote asks for that ZIP code and every label
      goes to that address. */
  lemma {:induction false} RunQuotesIntoDestination(c: Client, ops: seq<Op>, i: nat)
    requires i < |Run(c, ops).1|
    ensures Run(c, ops).1[i].GetRatesCall? ==>
              Run(c, ops).1[i].rateRequest.toZIPCode
              == (if c.toAddress.Some? then Some(c.toAddress.value.zipCode) else None)
    ensures Run(c, ops).1[i].CreateIndiciumCall? ==> Run(c, ops).1[i].to == c.toAddress
    decreases |ops|
  {
    var first := Perform(c, ops[0]);
    PerformFollowsRotation(c, ops[0]);
    var rest := Run(first.0, ops[1..]);
    if i >= |first.1| {
      assert Run(c, ops).1[i] == rest.1[i - |first.1|];
      RunQuotesIntoDestination(first.0, ops[1..], i - |first.1|);
    } else {
      assert Run(c, ops).1[i] == first.1[i];
    }
  }

  /** A client built by the constructor enters its lifetime with the
      idempotency token it was given, which then stays on every purchase and
      label call it ever makes. */
  lemma ConstructedIdentityIsPermanent(
    toAddress: Option<Address>, id: string,
    authReply: Reply<AuthenticateResponse>, cleanseReply: Reply<CleanseResponse>, ops: seq<Op>)
    requires Construct(toAddress, id, authReply, cleanseReply).result.Ok?
    ensures var c := Construct(toAddress, id, authReply, cleanseReply).result.value;
            Run(c, ops).0.integratorTxID == id
            && forall i :: 0 <= i < |Run(c, ops).1| ==> Run(c, ops).1[i].CarriesTxIDOf(id)
  {
    RunKeepsIdentity(Construct(toAddress, id, authReply, cleanseReply).result.value, ops);
  }
}
