/**
 * The records the accounts service moves between its callers and its two
 * stores: the persisted entities (CustomerEntity, AccountsEntity) and the
 * request/response shapes (CustomerDto, AccountsDto). Audit timestamps and
 * actors are not modelled.
 */
module Entities {

  datatype Option<+T> = None | Some(value: T)

  /** Identity a customer receives from the customer store on its first save. */
  type CustomerId = int

  /** Primary key of an account row (a Java Long). */
  type AccountNumber = int

  /** A persisted customer; customerId is None until the store assigns one. */
  datatype CustomerEntity = CustomerEntity(
    customerId: Option<CustomerId>,
    name: string,
    email: string,
    mobileNumber: string)

  /** A persisted account; customerId refers back to the owning customer. */
  datatype AccountsEntity = AccountsEntity(
    accountNumber: AccountNumber,
    customerId: CustomerId,
    accountType: string,
    branchAddress: string)

  /** The account part of a request or response. */
  datatype AccountsDto = AccountsDto(
    accountNumber: AccountNumber,
    accountType: string,
    branchAddress: string)

  /** A customer request or response, with an optional account part. */
  datatype CustomerDto = CustomerDto(
    name: string,
    email: string,
    mobileNumber: string,
    accountsDto: Option<AccountsDto>)

  // Freshly constructed objects. Their unset (null) fields are written as
  // "" and 0; every caller overwrites them before they are read.

  function NewCustomerEntity(): (r: CustomerEntity) {
    CustomerEntity(None, "", "", "")
  }

  function NewCustomerDto(): (r: CustomerDto) {
    CustomerDto("", "", "", None)
  }

  function NewAccountsDto(): (r: AccountsDto) {
    AccountsDto(0, "", "")
  }
}
