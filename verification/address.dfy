/** The mailing-address value object and the fixed default recipient. */
module Addresses {
  import opened Values

  /** A mailing address. The two hashes are set only by the remote
      cleanser: `cleanseHash` on a full match, `overrideHash` on an address
      whose city, state and ZIP code are acceptable. */
  datatype Address = Address(
    firstName: string,
    lastName: string,
    address1: string,
    city: string,
    state: string,
    zipCode: string,
    phoneNumber: string,
    emailAddress: string,
    cleanseHash: Option<string>,
    overrideHash: Option<string>)

  /** The validation proof label issuance demands: at least one hash set. */
  predicate IsCleansed(a: Address)
  {
    a.cleanseHash.Some? || a.overrideHash.Some?
  }

  /** `new Address(...)`: the eight arguments in order, no hash set. */
  function NewAddress(
    firstName: string, lastName: string, address: string, city: string,
    state: string, zip: string, phoneNumber: string, email: string): (a: Address)
    ensures a.firstName == firstName && a.lastName == lastName
    ensures a.address1 == address && a.city == city && a.state == state
    ensures a.zipCode == zip && a.phoneNumber == phoneNumber && a.emailAddress == email
    ensures !IsCleansed(a)
  {
    Address(firstName, lastName, address, city, state, zip, phoneNumber, email, None, None)
  }

  /** Rebuilding an address from its eight strings gives the address back
      exactly when it carries no hash: construction is the inverse of reading
      the fields, and is never a way to forge a cleansed address. */
  lemma NewAddressRoundTrip(a: Address)
    ensures NewAddress(a.firstName, a.lastName, a.address1, a.city, a.state,
                       a.zipCode, a.phoneNumber, a.emailAddress) == a
            <==> !IsCleansed(a)
  {
  }

  /** The business's own receiving address, used as the destination when the
      client is constructed without one. */
  const KAIVAL_ADDRESS: Address :=
    NewAddress("Eric", "Mosser", "16300 SW Blackbird Street", "Beaverton",
               "Oregon", "97007", "5035671167", "admin@kaivalbrands.com")

  /** The default recipient is an Oregon address in ZIP code 97007 that has
      not been cleansed: it must go through the cleanser before it can be
      used for label issuance. */
  lemma KaivalAddressFacts()
    ensures KAIVAL_ADDRESS.zipCode == "97007" && KAIVAL_ADDRESS.state == "Oregon"
    ensures KAIVAL_ADDRESS.city == "Beaverton" && KAIVAL_ADDRESS.firstName == "Eric"
    ensures !IsCleansed(KAIVAL_ADDRESS)
  {
  }
}
