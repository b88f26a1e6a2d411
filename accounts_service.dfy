/**
 * AccountsServiceImpl: create, fetch, update and delete of a customer and
 * its account over the two stores. The stores are the class's map fields
 * (customerRepository, accountsRepository); nextCustomerId is the identity
 * the customer store hands out on a customer's first save.
 */
module AccountsService {
  import opened Entities
  import opened Stores
  import AccountsMapper
  import CustomerMapper
  import LongText

  /** Default account type of a new account (AccountsConstants.SAVINGS). */
  const SAVINGS: string := "Savings"

  /** Default branch of a new account (AccountsConstants.ADDRESS). */
  const ADDRESS: string := "123 Main Street, New York"

  /** An account number is the base plus a draw below the span. */
  const ACCOUNT_NUMBER_BASE: int := 1000000000
  const ACCOUNT_NUMBER_SPAN: int := 90000000

  /** The failures the service raises as exceptions. */
  datatype Error =
    | CustomerAlreadyExists(mobileNumber: string)
    | ResourceNotFound(resourceName: string, fieldName: string, fieldValue: string)

  datatype Result<+T> = Ok(value: T) | Err(error: Error)

  predicate IsGeneratedAccountNumber(n: AccountNumber) {
    ACCOUNT_NUMBER_BASE <= n < ACCOUNT_NUMBER_BASE + ACCOUNT_NUMBER_SPAN
  }

  /** Every generated account number is positive, has ten digits and starts with 1. */
  lemma GeneratedAccountNumberDigits(n: AccountNumber)
    requires IsGeneratedAccountNumber(n)
    ensures n > 0
    ensures |LongText.Format(n)| == 10
    ensures LongText.Format(n)[0] == '1'
  {
    assert LongText.Pow10(9) == ACCOUNT_NUMBER_BASE;
    LongText.DecimalLength(n, 9);
    LongText.DecimalLeadingOne(n, 9);
  }

  /** The view fetch returns: the customer's fields and the account's fields. */
  function AccountDetails(c: CustomerEntity, a: AccountsEntity): (r: CustomerDto) {
    CustomerDto(c.name, c.email, c.mobileNumber,
                Some(AccountsDto(a.accountNumber, a.accountType, a.branchAddress)))
  }

  /** java.util.Random.nextInt(bound): some value in [0, bound). */
  method NextInt(bound: int) returns (r: int)
    requires bound > 0
    ensures 0 <= r < bound
  {
    r :| 0 <= r < bound;
  }

  /** The account create opens for a freshly saved customer. */
  method CreateNewAccount(savedCustomer: CustomerEntity) returns (accounts: AccountsEntity)
    requires savedCustomer.customerId.Some?
    ensures IsGeneratedAccountNumber(accounts.accountNumber)
    ensures accounts.customerId == savedCustomer.customerId.value
    ensures accounts.accountType == SAVINGS && accounts.branchAddress == ADDRESS
  {
    var accountNumber := NextInt(ACCOUNT_NUMBER_SPAN);
    var randomAccountNumber := ACCOUNT_NUMBER_BASE + accountNumber;
    accounts := AccountsEntity(randomAccountNumber, savedCustomer.customerId.value, SAVINGS, ADDRESS);
  }

  class AccountsServiceImpl {
    var customers: Customers
    var accounts: Accounts
    var nextCustomerId: CustomerId

    ghost predicate Valid()
      reads this
    {
      WellKeyed(customers, accounts, nextCustomerId)
    }

    /** A service over the two stores it is given, which may already hold rows. */
    constructor (customerRepository: Customers, accountsRepository: Accounts, customerIdCounter: CustomerId)
      requires WellKeyed(customerRepository, accountsRepository, customerIdCounter)
      ensures Valid()
      ensures customers == customerRepository && accounts == accountsRepository
      ensures nextCustomerId == customerIdCounter
    {
      customers := customerRepository;
      accounts := accountsRepository;
      nextCustomerId := customerIdCounter;
    }

    /** customerRepository.findByMobileNumber: some customer with that number, if any. */
    method FindByMobileNumber(mobileNumber: string) returns (found: Option<CustomerEntity>)
      requires Valid()
      ensures found.None? <==> !MobileRegistered(customers, mobileNumber)
      ensures found.Some? ==>
        && found.value.customerId.Some?
        && found.value.customerId.value in customers
        && customers[found.value.customerId.value] == found.value
        && found.value.mobileNumber == mobileNumber
    {
      if id :| id in customers && customers[id].mobileNumber == mobileNumber {
        found := Some(customers[id]);
      } else {
        found := None;
      }
    }

    /** accountsRepository.findByCustomerId: some account naming the customer, if any. */
    method FindByCustomerId(customerId: CustomerId) returns (found: Option<AccountsEntity>)
      requires Valid()
      ensures found.None? <==> !HasAccount(accounts, customerId)
      ensures found.Some? ==>
        && found.value.accountNumber in accounts
        && accounts[found.value.accountNumber] == found.value
        && found.value.customerId == customerId
    {
      if n :| n in accounts && accounts[n].customerId == customerId {
        found := Some(accounts[n]);
      } else {
        found := None;
      }
    }

    /**
     * Registers a new customer and opens a savings account for it, unless
     * the mobile number is taken.
     */
    method CreateAccount(customerDto: CustomerDto) returns (r: Result<()>)
      requires Valid()
      modifies this
      ensures Valid()
      ensures MobileRegistered(old(customers), customerDto.mobileNumber) ==>
        && r == Err(CustomerAlreadyExists(customerDto.mobileNumber))
        && customers == old(customers) && accounts == old(accounts)
        && nextCustomerId == old(nextCustomerId)
      ensures !MobileRegistered(old(customers), customerDto.mobileNumber) ==>
        && r == Ok(())
        && nextCustomerId == old(nextCustomerId) + 1
        && customers == old(customers)[old(nextCustomerId) := CustomerEntity(
             Some(old(nextCustomerId)), customerDto.name, customerDto.email, customerDto.mobileNumber)]
        && exists n :: IsGeneratedAccountNumber(n)
             && accounts == old(accounts)[n := AccountsEntity(n, old(nextCustomerId), SAVINGS, ADDRESS)]
      ensures old(Consistent(customers, accounts)) ==> Consistent(customers, accounts)
      ensures old(UniqueMobiles(customers)) ==> UniqueMobiles(customers)
    {
      var customer := CustomerMapper.MapToCustomerEntity(customerDto, NewCustomerEntity());

      var optionalCustomerEntity := FindByMobileNumber(customerDto.mobileNumber);
      if optionalCustomerEntity.Some? {
        return Err(CustomerAlreadyExists(customerDto.mobileNumber));
      }

      // customerRepository.save on a new entity assigns the next identity
      var id := nextCustomerId;
      var savedCustomer := customer.(customerId := Some(id));
      customers := customers[id := savedCustomer];
      nextCustomerId := nextCustomerId + 1;

      var account := CreateNewAccount(savedCustomer);
      if Consistent(old(customers), old(accounts)) {
        CreateKeepsConsistent(old(customers), old(accounts), id, savedCustomer, account);
      }
      if UniqueMobiles(old(customers)) {
        CreateKeepsUniqueMobiles(old(customers), id, savedCustomer);
      }
      accounts := accounts[account.accountNumber := account];
      r := Ok(());
    }

    /**
     * The customer registered with the mobile number together with its
     * account; fails if either lookup finds nothing.
     */
    method FetchAccount(mobileNumber: string) returns (r: Result<CustomerDto>)
      requires Valid()
      ensures !MobileRegistered(customers, mobileNumber) <==>
        r == Err(ResourceNotFound("Customer", "mobileNumber", mobileNumber))
      ensures r.Err? && MobileRegistered(customers, mobileNumber) ==>
        exists id :: id in customers && customers[id].mobileNumber == mobileNumber
          && !HasAccount(accounts, id)
          && r.error == ResourceNotFound("Accounts", "customerId", LongText.Format(id))
      ensures r.Ok? ==>
        exists id, n :: id in customers && customers[id].mobileNumber == mobileNumber
          && n in accounts && accounts[n].customerId == id
          && r.value == AccountDetails(customers[id], accounts[n])
    {
      var customer := FindByMobileNumber(mobileNumber);
      if customer.None? {
        return Err(ResourceNotFound("Customer", "mobileNumber", mobileNumber));
      }
      var customerId := customer.value.customerId.value;

      var account := FindByCustomerId(customerId);
      if account.None? {
        return Err(ResourceNotFound("Accounts", "customerId", LongText.Format(customerId)));
      }

      var customerDto := CustomerMapper.MapToCustomerDto(customer.value, NewCustomerDto());
      customerDto := customerDto.(accountsDto := Some(AccountsMapper.MapToAccountsDto(account.value, NewAccountsDto())));
      r := Ok(customerDto);
    }

    /**
     * Overwrites the type and branch of the account with the given number
     * and then name, email and mobile number of the customer that account
     * names. Without an account part it does nothing and answers false.
     */
    method UpdateAccount(customerDto: CustomerDto) returns (r: Result<bool>)
      requires Valid()
      modifies this
      ensures Valid()
      ensures nextCustomerId == old(nextCustomerId)
      ensures customerDto.accountsDto.None? ==>
        r == Ok(false) && customers == old(customers) && accounts == old(accounts)
      ensures customerDto.accountsDto.Some? && customerDto.accountsDto.value.accountNumber !in old(accounts) ==>
        && r == Err(ResourceNotFound("Accounts", "customerId", LongText.Format(customerDto.accountsDto.value.accountNumber)))
        && customers == old(customers) && accounts == old(accounts)
      ensures customerDto.accountsDto.Some? && customerDto.accountsDto.value.accountNumber in old(accounts) ==>
        var dto := customerDto.accountsDto.value;
        var stored := old(accounts)[dto.accountNumber];
        && accounts == old(accounts)[dto.accountNumber :=
             stored.(accountType := dto.accountType, branchAddress := dto.branchAddress)]
        && (stored.customerId !in old(customers) ==>
              r == Err(ResourceNotFound("Customer", "customerId", LongText.Format(stored.customerId)))
              && customers == old(customers))
        && (stored.customerId in old(customers) ==>
              r == Ok(true)
              && customers == old(customers)[stored.customerId := old(customers)[stored.customerId].(
                   name := customerDto.name, email := customerDto.email, mobileNumber := customerDto.mobileNumber)])
      ensures old(Consistent(customers, accounts)) ==> Consistent(customers, accounts)
    {
      var isUpdated := false;
      var accountsDto := customerDto.accountsDto;

      if accountsDto.Some? {
        var dto := accountsDto.value;
        if dto.accountNumber !in accounts {
          return Err(ResourceNotFound("Accounts", "customerId", LongText.Format(dto.accountNumber)));
        }
        var account := accounts[dto.accountNumber];

        account := AccountsMapper.MapToAccountsEntity(dto, account);
        accounts := accounts[account.accountNumber := account];

        var customerId := account.customerId;
        if customerId !in customers {
          return Err(ResourceNotFound("Customer", "customerId", LongText.Format(customerId)));
        }
        var customer := customers[customerId];

        customer := CustomerMapper.MapToCustomerEntity(customerDto, customer);
        customers := customers[customer.customerId.value := customer];
        isUpdated := true;
      }
      r := Ok(isUpdated);
    }

    /**
     * Removes the customer registered with the mobile number and every
     * account naming it; answers true once the customer was found.
     */
    method DeleteAccount(mobileNumber: string) returns (r: Result<bool>)
      requires Valid()
      modifies this
      ensures Valid()
      ensures nextCustomerId == old(nextCustomerId)
      ensures !MobileRegistered(old(customers), mobileNumber) ==>
        && r == Err(ResourceNotFound("Customer", "mobileNumber", mobileNumber))
        && customers == old(customers) && accounts == old(accounts)
      ensures MobileRegistered(old(customers), mobileNumber) ==>
        && r == Ok(true)
        && exists id :: id in old(customers) && old(customers)[id].mobileNumber == mobileNumber
             && customers == old(customers) - {id}
             && accounts == DeleteByCustomerId(old(accounts), id)
      ensures old(Consistent(customers, accounts)) ==> Consistent(customers, accounts)
      ensures old(UniqueMobiles(customers)) ==> UniqueMobiles(customers)
    {
      var customer := FindByMobileNumber(mobileNumber);
      if customer.None? {
        return Err(ResourceNotFound("Customer", "mobileNumber", mobileNumber));
      }
      var customerId := customer.value.customerId.value;

      accounts := DeleteByCustomerId(accounts, customerId);
      customers := customers - {customerId};
      if Consistent(old(customers), old(accounts)) {
        DeleteKeepsConsistent(old(customers), old(accounts), customerId);
      }
      r := Ok(true);
    }
  }
}
