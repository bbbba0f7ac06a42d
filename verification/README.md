# StampService client model

A Dafny model of the client side of a Stamps.com shipping-label integration:
the `StampService` class and the `Address` value object it works with. The
client keeps three pieces of state: a rolling authenticator token, the
destination ("to") address fixed at construction, and a per-instance
idempotency token (`IntegratorTxID`). Its operations:

- cleanse an address, with a three-way classification;
- quote rates into the destination;
- look up account information and purchase postage;
- issue a shipping label from a cleansed origin address.

The remote SOAP service is an oracle. Every remote answer is an input
`Reply<T>`: either `Answered(response)` or `Faulted(message)` for a transport
fault. Every operation is a pure step function that returns a `Step`:

- the client state afterwards (PHP objects keep their mutations even when an
  exception escapes);
- the sequence of remote `Request`s it made, so "no remote call" is
  `sent == []`;
- the return value, or the exception as an `Error`.

Files:

- `values.dfy` (`Values`): PHP-nullable values (`Option`) and the opaque
  rate records (`Rate`, a map from field name to value).
- `address.dfy` (`Addresses`): `Address`, `new Address(...)` and the fixed
  default recipient `KAIVAL_ADDRESS`.
- `remote.dfy` (`Remote`): the response records and the request values.
- `stamp_service.dfy` (`StampService`): client state, the status constants
  and one step function per operation.
- `session.dfy` (`Sessions`): sequences of operations, token rotation and the
  invariance of the idempotency token and destination.

Behaviour of the source worth noting:

- `authenticateUser` only logs when the response has no `Authenticator`; it
  does not throw. The client stores null. The constructor's cleanse right
  after it (StampService.php:55, StampService.php:63) presents that null and
  stores the token its answer carries (line 211). `getAccountInfo` raises
  "Authenticator not set!" whenever the stored token is null. That happens
  before any answer has supplied one. It also happens after an answer
  without an `Authenticator` field overwrote the token with null, because
  lines 211, 277 and 336 assign it unconditionally.
- `getRates` returns the response's `Rate` element in its own shape: one
  object when a single rate comes back, an array otherwise. It does not turn
  both into one sequence.
- `purchasePostage` is documented as returning a bool
  (StampService.php:138). When the account lookup returns no `AccountInfo`,
  it falls off the end of its body and returns null.
- In the city/state/ZIP-acceptable branch, `cleanseAddress` writes the
  override hash onto the caller's own `Address` object. The returned address
  is the response's, which carries whatever hash the service put on it
  (`ArgumentAfterCleanse`).
- Parameters declared with non-nullable types (`Address $address`,
  `string $fromZIPCode`, `float $weight`, `float $amount`) make PHP raise a
  `TypeError` on null before the body runs. The model raises
  `TypeError(parameter)` there, so the `isset` guards at
  StampService.php:143 and StampService.php:198 can never fire. The
  `getRates` guard at line 258 uses `&&` where `||` was evidently meant. It
  is modelled as written, and `GetRates` proves it never fires.
- The label guard at line 311 has untyped parameters, so it can fire. Because
  it uses `&&`, it fires only when both arguments are missing
  (`GenerateShippingLabel`). With the address missing, the next check (line
  315) raises "Address must be cleansed first". With only the rate missing,
  `(array) null` becomes an empty array. The request then goes out with a
  rate holding nothing but `FromZIPCode`.

## Model

| member | source | states |
|---|---|---|
| Addresses.NewAddress | Models/Address.php:16-35 | the eight constructor arguments land, in order, in FirstName, LastName, Address1, City, State, ZIPCode, PhoneNumber, EmailAddress; a fresh address is not cleansed |
| Addresses.NewAddressRoundTrip | Models/Address.php:13-35 | rebuilding an address from its eight strings gives it back exactly when neither hash is set, so construction never yields a cleansed address |
| Addresses.KaivalAddressFacts | Models/Address.php:40-52 | the default recipient is Eric, Beaverton, Oregon, ZIP 97007, and carries no hash |
| StampService.Classify | StampService.php:213-229 | city/state/ZIP not OK gives Unshippable whatever AddressMatch says; both flags give Matched with the response's address; city/state/ZIP OK without a match gives CityStateZipAcceptable with the response's address; the fall-through after line 229 is unreachable |
| StampService.ClassificationIsExact | StampService.php:6-8 | status 1 iff both flags hold, 2 iff only city/state/ZIP holds, -1 iff city/state/ZIP fails; the address entry is present, equal to the response's address, iff city/state/ZIP holds |
| StampService.CleanseAddress | StampService.php:195-229 | null address is a TypeError with no remote call; otherwise one CleanseAddress call presenting the stored token; on an answer the stored token becomes the response's and the result is the classification; a fault is raised with the state unchanged |
| StampService.ArgumentAfterCleanse | StampService.php:223-228 | the caller's address gains the response's override hash only in the city/state/ZIP-acceptable case and is otherwise unchanged in every field |
| StampService.CleansedArgumentIsAccepted | StampService.php:226 | after an acceptable-but-unmatched cleanse whose response carried an override hash, the caller's address passes the label-issuance check |
| StampService.BlankIfAbsent | StampService.php:269-271 | an absent length/width/height becomes the empty value and a present one passes unchanged |
| StampService.BuildRateRequest | StampService.php:262-274 | FromZipCode and WeightLb are the arguments; ToZIPCode is the stored destination's ZIP (null when none is stored); absent ServiceType/PackageType become '' and present ones pass unchanged; dimensions read back as given; ShipDate defaults to the supplied default date |
| StampService.RateRequestKeepsAbsence | StampService.php:267-271 | an absent dimension and a zero dimension stay distinct in the request; a string field is '' iff it was absent or given as '' |
| StampService.StripAddOns | StampService.php:284 | the rate loses its AddOns field and keeps every other field with its value |
| StampService.StripEach | StampService.php:279-282 | every rate of a list loses AddOns and keeps every other field; the list keeps its length and order |
| StampService.StripRates | StampService.php:278-287 | neither response shape contains AddOns afterwards; the shape (one rate or a list) and the list length are kept; each rate is the original with only AddOns removed |
| StampService.StripRatesIdempotent | StampService.php:278-287 | stripping a shape that has no AddOns changes nothing, so stripping twice equals stripping once |
| StampService.StripEachFixesClean | StampService.php:279-282 | a list of rates without AddOns is left unchanged by the loop |
| StampService.GetRates | StampService.php:254-287 | null ZIP or weight is a TypeError with no call; the 258 guard never fires; otherwise one GetRates call with the built request and the stored token; on an answer the token is the response's and the rates are returned stripped of AddOns; a fault is raised with the state unchanged |
| StampService.GetAccountInfo | StampService.php:108-128 | no stored token raises AuthenticatorNotSet with no call; otherwise one call presenting the stored token; the response is returned and its token stored iff it carries AccountInfo; an answer without AccountInfo returns null with the token untouched; a fault is raised with the state unchanged |
| StampService.PurchasePostage | StampService.php:140-176 | returns true iff the account lookup succeeded and PurchaseStatus is set and equals "Success", and then stores the purchase token; returns false without raising iff the lookup succeeded and the status is anything else, keeping the lookup's token; the purchase call carries the lookup's control total and the instance's IntegratorTxID; no stored token raises AuthenticatorNotSet with no call; a lookup fault is raised after the one lookup call; a lookup without AccountInfo returns null after the one lookup call; a purchase fault is raised and keeps the lookup's token; errors are only TypeError, AuthenticatorNotSet or a fault |
| StampService.LabelRate | StampService.php:319-320 | the rate sent for a label is the given rate (or an empty array for null) with FromZIPCode set to the origin address's ZIP and every other field unchanged |
| StampService.GenerateShippingLabel | StampService.php:308-344 | a remote call happens iff the origin address is present and carries CleanseHash or OverrideHash, else InvalidArgument with the state unchanged; the "required" message appears iff both arguments are missing, and every other missing or unhashed origin gets "Address must be cleansed first"; the call presents the stored token, the instance's IntegratorTxID, the stamped rate, the origin and the stored destination; an answer stores its token and returns exactly TrackingNumber, StampsTxID, URL and Rate |
| StampService.FreshAddressIsRejected | StampService.php:315-317 | an address straight from the constructor is rejected with "Address must be cleansed first" before any remote call, whatever the rate and answer |
| StampService.Construct | StampService.php:49-67 | authenticate, then cleanse the given destination or the default recipient presenting the authentication token; a given destination is stored iff its status is 1 or 2, else InvalidArgumentException when the cleanse answered; a fault in either remote call is raised unchanged; the default path stores the cleanse's address entry unchecked (null when unshippable); the idempotency token is the one supplied |
| Sessions.PerformFollowsRotation | StampService.php:117-336 | cleanse, quote and label issuance store the answer's token whenever their arguments pass and the service answers; a purchase stores the account lookup's token once the lookup succeeds and the purchase token only on "Success"; no operation changes the destination or IntegratorTxID |
| Sessions.PerformPresentsStoredToken | StampService.php:115-327 | the first remote call of every operation presents the currently stored token |
| Sessions.TokenChain | StampService.php:205-336 | the next remote call after any operation presents the token that operation adopted, or the earlier one if it adopted none |
| Sessions.PerformCarriesTxID | StampService.php:156-328 | every purchase and label call of an operation carries the client's IntegratorTxID |
| Sessions.RunKeepsIdentity | StampService.php:67 | over any sequence of operations IntegratorTxID and the destination keep their constructed values, and every purchase and label call carries that IntegratorTxID |
| Sessions.RunQuotesIntoDestination | StampService.php:262-331 | every rate quote in a client's lifetime asks for the constructed destination's ZIP and every label goes to the constructed destination |
| Sessions.ConstructedIdentityIsPermanent | StampService.php:49-70 | a constructed client keeps the supplied IntegratorTxID on every later purchase and label call |

## Left out

- The SOAP transport, the WSDL URL and the creation of `SoapClient`. Remote answers are inputs. The "SOAP CLIENT NOT INITIALIZED!" branches cannot be reached once the constructor has run, because it always creates the client first.
- `_log` logging, and the reads that exist only to be logged (`TransactionID`, the new control total after a purchase). These are side effects with no effect on results.
- The contents of `Credentials` (the authentication request is modelled with no payload). `Models/Account.php` and `Util.php` are not part of this model.
- `md5(rand())`: the idempotency token is a constructor parameter, because it comes from randomness.
- `date('yy-m-d', strtotime('+ 3 days'))`: the default ship date is a parameter, because it depends on the clock.
- Float weights, dimensions, amounts and control totals are `real` values passed through unchanged. No float arithmetic or coercion is modelled.
- Account information beyond the postage balance's control total.
- Response fields that the source reads without checking (`TrackingNumber`, `StampsTxID`, `URL`, `Rate`, the cleanse `Address`) are always present in the model. Only `Authenticator`, `AccountInfo` and `PurchaseStatus` may be absent. The source tests those three with `isset`, or in the token's case stores null.
- StampService.CleanseAddress: only instances of the `Address` class are modelled as the argument. The service returns its addresses as plain `stdClass` objects, because the `SoapClient` at StampService.php:50 has no classmap. Passing such an object back to `cleanseAddress(Address $address)` makes PHP raise a `TypeError` before any remote call. The model has one `Address` type for both, so it sends the cleanse request instead.
- StampService.Construct: for the same reason, a destination that is itself an address returned by the service raises a `TypeError` in the source (via line 55). The model cleanses it like an `Address` instance.
- A rates response without any `Rate` element, where PHP would operate on null.
- The PHP notices raised when a property of a null destination is read. The model stores null, as PHP does.
- `index.php` is an example script. Its `cancelShippingLabel` call names a method that `StampService` does not define, so there is no label-cancel operation to model.
- The catch-log-rethrow wrappers: an exception is the `Err` result of the step.
