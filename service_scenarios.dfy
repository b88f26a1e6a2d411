/**
 * Sequences of service calls and what they add up to: the create, fetch,
 * update and delete round trips the service's callers rely on.
 */
module ServiceScenarios {
  import opened Entities
  import opened Stores
  import opened AccountsService
  import LongText

  /**
   * Creating a customer with an unused mobile number and then fetching that
   * number gives back the submitted name, email and mobile number with a
   * ten-digit savings account at the default branch.
   */
  method CreateThenFetch(service: AccountsServiceImpl, customerDto: CustomerDto)
    returns (created: Result<()>, fetched: Result<CustomerDto>)
    requires service.Valid() && Consistent(service.customers, service.accounts)
    requires !MobileRegistered(service.customers, customerDto.mobileNumber)
    modifies service
    ensures service.Valid()
    ensures created == Ok(())
    ensures fetched.Ok?
    ensures fetched.value.name == customerDto.name
    ensures fetched.value.email == customerDto.email
    ensures fetched.value.mobileNumber == customerDto.mobileNumber
    ensures fetched.value.accountsDto.Some?
    ensures IsGeneratedAccountNumber(fetched.value.accountsDto.value.accountNumber)
    ensures |LongText.Format(fetched.value.accountsDto.value.accountNumber)| == 10
    ensures fetched.value.accountsDto.value.accountType == SAVINGS
    ensures fetched.value.accountsDto.value.branchAddress == ADDRESS
  {
    ghost var id := service.nextCustomerId;
    ghost var c := CustomerEntity(Some(id), customerDto.name, customerDto.email, customerDto.mobileNumber);
    created := service.CreateAccount(customerDto);
    ghost var n :| IsGeneratedAccountNumber(n)
      && service.accounts == old(service.accounts)[n := AccountsEntity(n, id, SAVINGS, ADDRESS)];
    ghost var a := AccountsEntity(n, id, SAVINGS, ADDRESS);
    assert service.customers == old(service.customers)[id := c];
    assert forall i :: i in service.customers && service.customers[i].mobileNumber == customerDto.mobileNumber ==> i == id;
    assert HasAccount(service.accounts, id) by {
      assert n in service.accounts && service.accounts[n].customerId == id;
    }
    assert forall m :: m in service.accounts && service.accounts[m].customerId == id ==> m == n;

    fetched := service.FetchAccount(customerDto.mobileNumber);
    assert MobileRegistered(service.customers, customerDto.mobileNumber) by {
      assert id in service.customers;
    }
    assert fetched == Ok(AccountDetails(c, a));
    GeneratedAccountNumberDigits(n);
  }

  /**
   * A second create with the same mobile number fails and leaves exactly
   * the customer and the account the first one made.
   */
  method CreateTwice(service: AccountsServiceImpl, customerDto: CustomerDto)
    returns (first: Result<()>, second: Result<()>)
    requires service.Valid() && Consistent(service.customers, service.accounts)
    requires !MobileRegistered(service.customers, customerDto.mobileNumber)
    modifies service
    ensures service.Valid() && Consistent(service.customers, service.accounts)
    ensures first == Ok(())
    ensures second == Err(CustomerAlreadyExists(customerDto.mobileNumber))
    ensures |service.customers| == |old(service.customers)| + 1
    ensures forall i :: i in service.customers && service.customers[i].mobileNumber == customerDto.mobileNumber ==>
      i == old(service.nextCustomerId)
    ensures old(service.nextCustomerId) in service.customers
    ensures HasAccount(service.accounts, old(service.nextCustomerId))
  {
    ghost var id := service.nextCustomerId;
    first := service.CreateAccount(customerDto);
    ghost var n :| IsGeneratedAccountNumber(n)
      && service.accounts == old(service.accounts)[n := AccountsEntity(n, id, SAVINGS, ADDRESS)];
    assert n in service.accounts && service.accounts[n].customerId == id;
    assert id in service.customers;
    second := service.CreateAccount(customerDto);
  }

  /**
   * Deleting a registered mobile number answers true, removes the
   * customer's accounts, and a later fetch of that number finds no customer.
   */
  method DeleteThenFetch(service: AccountsServiceImpl, mobileNumber: string)
    returns (deleted: Result<bool>, fetched: Result<CustomerDto>)
    requires service.Valid() && UniqueMobiles(service.customers)
    requires MobileRegistered(service.customers, mobileNumber)
    modifies service
    ensures service.Valid()
    ensures deleted == Ok(true)
    ensures fetched == Err(ResourceNotFound("Customer", "mobileNumber", mobileNumber))
    ensures exists id ::
              && id in old(service.customers) && old(service.customers)[id].mobileNumber == mobileNumber
              && id !in service.customers && !HasAccount(service.accounts, id)
  {
    deleted := service.DeleteAccount(mobileNumber);
    ghost var id :| id in old(service.customers) && old(service.customers)[id].mobileNumber == mobileNumber
      && service.customers == old(service.customers) - {id}
      && service.accounts == DeleteByCustomerId(old(service.accounts), id);
    DeleteUnregistersMobile(old(service.customers), id, mobileNumber);
    fetched := service.FetchAccount(mobileNumber);
  }

  /**
   * After a successful update, fetching by the submitted mobile number
   * shows the submitted customer fields and the updated account, provided
   * no other customer holds that number.
   */
  method UpdateThenFetch(service: AccountsServiceImpl, customerDto: CustomerDto)
    returns (updated: Result<bool>, fetched: Result<CustomerDto>)
    requires service.Valid() && Consistent(service.customers, service.accounts)
    requires customerDto.accountsDto.Some?
    requires customerDto.accountsDto.value.accountNumber in service.accounts
    requires forall i :: i in service.customers && service.customers[i].mobileNumber == customerDto.mobileNumber ==>
      i == service.accounts[customerDto.accountsDto.value.accountNumber].customerId
    modifies service
    ensures service.Valid() && Consistent(service.customers, service.accounts)
    ensures updated == Ok(true)
    ensures fetched == Ok(CustomerDto(customerDto.name, customerDto.email, customerDto.mobileNumber,
                                      Some(customerDto.accountsDto.value)))
  {
    ghost var dto := customerDto.accountsDto.value;
    ghost var owner := service.accounts[dto.accountNumber].customerId;
    updated := service.UpdateAccount(customerDto);
    assert owner in service.customers;
    assert service.customers[owner].mobileNumber == customerDto.mobileNumber;
    assert forall i :: i in service.customers && service.customers[i].mobileNumber == customerDto.mobileNumber ==> i == owner;
    assert service.accounts[dto.accountNumber].customerId == owner;
    assert forall m :: m in service.accounts && service.accounts[m].customerId == owner ==> m == dto.accountNumber;
    fetched := service.FetchAccount(customerDto.mobileNumber);
    assert MobileRegistered(service.customers, customerDto.mobileNumber);
    assert HasAccount(service.accounts, owner);
  }
}
