/**
 * The two record stores the service runs on, as finite maps: customers
 * keyed by customerId, accounts keyed by accountNumber. Save is
 * insert-or-overwrite by key; deleteByCustomerId removes every account row
 * that names the customer. The predicates below are the relationships the
 * service is meant to keep between the two stores.
 */
module Stores {
  import opened Entities

  type Customers = map<CustomerId, CustomerEntity>
  type Accounts = map<AccountNumber, AccountsEntity>

  /** Every row sits under its own key, and every customer id is below the next one the store hands out. */
  ghost predicate WellKeyed(customers: Customers, accounts: Accounts, nextCustomerId: CustomerId) {
    && (forall id :: id in customers ==> customers[id].customerId == Some(id) && id < nextCustomerId)
    && (forall n :: n in accounts ==> accounts[n].accountNumber == n)
  }

  /** Some customer is registered with this mobile number. */
  predicate MobileRegistered(customers: Customers, mobileNumber: string) {
    exists id :: id in customers && customers[id].mobileNumber == mobileNumber
  }

  /** Some account row names this customer. */
  predicate HasAccount(accounts: Accounts, customerId: CustomerId) {
    exists n :: n in accounts && accounts[n].customerId == customerId
  }

  /** No two customers share a mobile number. */
  ghost predicate UniqueMobiles(customers: Customers) {
    forall i, j :: i in customers && j in customers && customers[i].mobileNumber == customers[j].mobileNumber ==> i == j
  }

  /**
   * Every account names an existing customer, and no customer has two
   * accounts.
   */
  ghost predicate Consistent(customers: Customers, accounts: Accounts) {
    && (forall n :: n in accounts ==> accounts[n].customerId in customers)
    && (forall n, m :: n in accounts && m in accounts && accounts[n].customerId == accounts[m].customerId ==> n == m)
  }

  /** accountsRepository.deleteByCustomerId: drops the rows naming the customer, keeps the others as they were. */
  function DeleteByCustomerId(accounts: Accounts, customerId: CustomerId): (r: Accounts)
    ensures forall n :: n in r <==> n in accounts && accounts[n].customerId != customerId
    ensures forall n :: n in r ==> r[n] == accounts[n]
    ensures !HasAccount(r, customerId)
  {
    map n | n in accounts && accounts[n].customerId != customerId :: accounts[n]
  }

  /** Deleting one customer's accounts leaves every other customer's accounts in place. */
  lemma DeleteByCustomerIdKeepsOthers(accounts: Accounts, customerId: CustomerId, other: CustomerId)
    requires other != customerId
    ensures HasAccount(DeleteByCustomerId(accounts, customerId), other) <==> HasAccount(accounts, other)
  {
  }

  /** Under referential integrity a customer id the store has never assigned owns no account. */
  lemma FreshIdHasNoAccount(customers: Customers, accounts: Accounts, id: CustomerId)
    requires Consistent(customers, accounts)
    requires id !in customers
    ensures !HasAccount(accounts, id)
  {
  }

  /**
   * Create keeps the relationships when it adds a fresh customer and an
   * account that names it, even if that account replaces an existing row
   * with the same number.
   */
  lemma CreateKeepsConsistent(customers: Customers, accounts: Accounts, id: CustomerId, c: CustomerEntity, a: AccountsEntity)
    requires Consistent(customers, accounts)
    requires id !in customers && a.customerId == id
    ensures Consistent(customers[id := c], accounts[a.accountNumber := a])
  {
  }

  /** Adding a customer whose mobile number nobody has keeps mobile numbers unique. */
  lemma CreateKeepsUniqueMobiles(customers: Customers, id: CustomerId, c: CustomerEntity)
    requires UniqueMobiles(customers)
    requires id !in customers && !MobileRegistered(customers, c.mobileNumber)
    ensures UniqueMobiles(customers[id := c])
  {
  }

  /** Delete keeps the relationships when it drops a customer together with its accounts. */
  lemma DeleteKeepsConsistent(customers: Customers, accounts: Accounts, id: CustomerId)
    requires Consistent(customers, accounts)
    ensures Consistent(customers - {id}, DeleteByCustomerId(accounts, id))
  {
  }

  /** Once the only customer with a mobile number is gone, nobody has that number. */
  lemma DeleteUnregistersMobile(customers: Customers, id: CustomerId, mobileNumber: string)
    requires UniqueMobiles(customers)
    requires id in customers && customers[id].mobileNumber == mobileNumber
    ensures !MobileRegistered(customers - {id}, mobileNumber)
  {
  }
}
