# Accounts service: a Dafny model

This project models the core of a small banking microservice. The service
keeps a customer record and a financial account record in two stores and
offers four operations on them:

- `createAccount` registers a customer and opens a savings account with a
  random ten-digit number.
- `fetchAccount` returns the customer registered with a mobile number,
  together with that customer's account.
- `updateAccount` overwrites an account, found by its number, and then the
  customer that account names.
- `deleteAccount` removes a customer and every account naming it.

The service depends on two field-copy mappers.

Files and modules:

- `entities.dfy` (`Entities`): the persisted entities `CustomerEntity` and
  `AccountsEntity`, and the request/response records `CustomerDto` and
  `AccountsDto`.
- `accounts_mapper.dfy` (`AccountsMapper`) and `customer_mapper.dfy`
  (`CustomerMapper`): the mappers. Each copies three fields onto a target,
  leaves the target's other fields alone and returns it. They are written as
  pure record updates. Their round trips and idempotence are stated as lemmas.
- `long_text.dfy` (`LongText`): `Long.toString`, which the service uses to put
  ids and account numbers into its errors. It comes with its inverse and the
  digit-count facts behind "an account number has ten digits".
- `stores.dfy` (`Stores`): the two stores as maps, `deleteByCustomerId`, and
  the relationships the service keeps between the stores. There are two:
  referential integrity with at most one account per customer
  (`Consistent`), and unique mobile numbers (`UniqueMobiles`).
- `accounts_service.dfy` (`AccountsService`): the error values, the defaults,
  the account-number generator and the class `AccountsServiceImpl`. The class
  holds the fields `customers` (keyed by customer id), `accounts` (keyed by
  account number) and `nextCustomerId`, the identity the customer store hands
  out on a first save. Each service operation is a method returning a
  `Result`. Its `ensures` clauses give the whole new state of both stores for
  every branch, and say which of the two relationships it keeps.
- `service_scenarios.dfy` (`ServiceScenarios`): call sequences that the
  tests exercise: create then fetch, create twice, update then fetch,
  delete then fetch.

Behaviour that the model keeps from the code:

- The duplicate check runs before any write. A duplicate mobile number
  changes neither store.
- A new account number is `1000000000 + r` with `0 <= r < 90000000`. The
  model proves it positive, ten digits long and starting with `1`. Its
  uniqueness is never checked: saving the new account overwrites an existing
  row with the same number, and the model states that too.
- Update finds the customer through the stored account's `customerId`, and
  not through the mobile number in the request. It overwrites that
  customer's mobile number even when it differs. On a missing account, the
  error names the field `customerId` although it carries the account number
  (AccountsServiceImpl.java:82).
- Update answers `false` without writing when the request has no account
  part.
- Delete answers `true` once the customer lookup succeeds.
- Create and delete each keep `Consistent`. Update keeps it too, but it can
  break `UniqueMobiles`, because it copies the requested mobile number
  without a duplicate check. This is why `ServiceScenarios.DeleteThenFetch`
  assumes unique mobile numbers.

## Model

| member | source | states |
|---|---|---|
| `AccountsMapper.MapToAccountsDto` | src/main/java/com/bank/accounts/mapper/AccountsMapper.java:8-15 | the result carries the entity's account number, type and branch address |
| `AccountsMapper.MapToAccountsEntity` | src/main/java/com/bank/accounts/mapper/AccountsMapper.java:17-24 | the result carries the DTO's number, type and branch, and keeps the target entity's `customerId` |
| `AccountsMapper.RoundTrip` | src/main/java/com/bank/accounts/mapper/AccountsMapper.java:8-24 | entity to DTO and back onto that entity returns the entity unchanged |
| `AccountsMapper.RoundTripDto` | src/main/java/com/bank/accounts/mapper/AccountsMapper.java:8-24 | DTO to entity and back gives the original DTO, whatever the targets held |
| `AccountsMapper.EntityIdempotent` | src/main/java/com/bank/accounts/mapper/AccountsMapper.java:17-24 | mapping the same DTO onto an entity twice equals mapping it once |
| `AccountsMapper.DtoIdempotent` | src/main/java/com/bank/accounts/mapper/AccountsMapper.java:8-15 | mapping the same entity onto a DTO twice equals mapping it once |
| `CustomerMapper.MapToCustomerDto` | src/main/java/com/bank/accounts/mapper/CustomerMapper.java:8-15 | the result carries the entity's name, email and mobile number, and keeps the target DTO's account part |
| `CustomerMapper.MapToCustomerEntity` | src/main/java/com/bank/accounts/mapper/CustomerMapper.java:17-24 | the result carries the DTO's name, email and mobile number, and keeps the target entity's `customerId` |
| `CustomerMapper.RoundTrip` | src/main/java/com/bank/accounts/mapper/CustomerMapper.java:8-24 | entity to DTO and back onto that entity returns the entity unchanged |
| `CustomerMapper.RoundTripDto` | src/main/java/com/bank/accounts/mapper/CustomerMapper.java:8-24 | DTO to entity and back onto that DTO returns the DTO unchanged |
| `CustomerMapper.EntityIdempotent` | src/main/java/com/bank/accounts/mapper/CustomerMapper.java:17-24 | mapping the same DTO onto an entity twice equals mapping it once |
| `CustomerMapper.DtoIdempotent` | src/main/java/com/bank/accounts/mapper/CustomerMapper.java:8-15 | mapping the same entity onto a DTO twice equals mapping it once |
| `LongText.Decimal` | src/main/java/com/bank/accounts/service/impl/AccountsServiceImpl.java:67 | the rendering of a natural number is a non-empty string of digits with no leading zero |
| `LongText.Format` | src/main/java/com/bank/accounts/service/impl/AccountsServiceImpl.java:82 | `Long.toString` starts with `-` exactly for negative numbers, and every other character is a digit |
| `LongText.DigitsValueOfDecimal` | src/main/java/com/bank/accounts/service/impl/AccountsServiceImpl.java:67 | reading back the digits of a natural number gives that number |
| `LongText.ParseFormat` | src/main/java/com/bank/accounts/service/impl/AccountsServiceImpl.java:82 | parsing the text of any Long gives that Long back |
| `LongText.FormatInjective` | src/main/java/com/bank/accounts/service/impl/AccountsServiceImpl.java:90 | distinct ids print differently, so an error's key names exactly one record |
| `LongText.DecimalLength` | src/main/java/com/bank/accounts/service/impl/AccountsServiceImpl.java:49-50 | a number in [10^k, 10^(k+1)) has exactly k+1 digits |
| `LongText.DecimalLeadingOne` | src/main/java/com/bank/accounts/service/impl/AccountsServiceImpl.java:49-50 | a number in [10^k, 2·10^k) starts with the digit 1 |
| `Stores.DeleteByCustomerId` | src/main/java/com/bank/accounts/service/impl/AccountsServiceImpl.java:105 | exactly the rows naming the customer are removed, the rest keep their values, and no row names the customer afterwards |
| `Stores.DeleteByCustomerIdKeepsOthers` | src/main/java/com/bank/accounts/service/impl/AccountsServiceImpl.java:105 | every other customer has an account afterwards exactly when it had one before |
| `Stores.FreshIdHasNoAccount` | src/main/java/com/bank/accounts/service/impl/AccountsServiceImpl.java:38-39 | under referential integrity, an id that is not in the customer store owns no account |
| `Stores.CreateKeepsConsistent` | src/main/java/com/bank/accounts/service/impl/AccountsServiceImpl.java:38-39 | adding a fresh customer and an account naming it keeps referential integrity and at most one account per customer, even when the account replaces a row with the same number |
| `Stores.CreateKeepsUniqueMobiles` | src/main/java/com/bank/accounts/service/impl/AccountsServiceImpl.java:33-38 | adding a customer whose mobile number nobody has keeps mobile numbers unique |
| `Stores.DeleteKeepsConsistent` | src/main/java/com/bank/accounts/service/impl/AccountsServiceImpl.java:105-106 | removing a customer and its accounts keeps referential integrity |
| `Stores.DeleteUnregistersMobile` | src/main/java/com/bank/accounts/service/impl/AccountsServiceImpl.java:102-106 | with unique mobile numbers, removing the matching customer leaves nobody registered with that number |
| `AccountsService.GeneratedAccountNumberDigits` | src/main/java/com/bank/accounts/service/impl/AccountsServiceImpl.java:49-50 | every generated account number is positive, has exactly ten digits and starts with 1 |
| `AccountsService.NextInt` | src/main/java/com/bank/accounts/service/impl/AccountsServiceImpl.java:47-49 | the random draw lies in [0, bound) |
| `AccountsService.CreateNewAccount` | src/main/java/com/bank/accounts/service/impl/AccountsServiceImpl.java:43-58 | the new account's number lies in [1000000000, 1090000000), it names the saved customer, and it has type `SAVINGS` and branch `ADDRESS` |
| `AccountsService.AccountsServiceImpl.constructor` | src/main/java/com/bank/accounts/service/impl/AccountsServiceImpl.java:21-26 | the service wraps the two stores it is given, which may already hold rows, provided each row sits under its own key and every customer id is below the id counter |
| `AccountsService.AccountsServiceImpl.FindByMobileNumber` | src/main/java/com/bank/accounts/service/impl/AccountsServiceImpl.java:33 | the lookup finds nothing exactly when no customer has the number; otherwise it returns a stored customer with that number and an assigned id |
| `AccountsService.AccountsServiceImpl.FindByCustomerId` | src/main/java/com/bank/accounts/service/impl/AccountsServiceImpl.java:66 | the lookup finds nothing exactly when no account names the customer; otherwise it returns a stored account naming the customer |
| `AccountsService.AccountsServiceImpl.CreateAccount` | src/main/java/com/bank/accounts/service/impl/AccountsServiceImpl.java:29-41 | a taken mobile number gives `CustomerAlreadyExists` with both stores unchanged; otherwise exactly one customer (the draft's name, email and mobile number, with the next id) and one account (a generated number, that id, `SAVINGS`, `ADDRESS`) are added and nothing else changes; `Consistent` and `UniqueMobiles` are kept |
| `AccountsService.AccountsServiceImpl.FetchAccount` | src/main/java/com/bank/accounts/service/impl/AccountsServiceImpl.java:61-73 | an unregistered number gives `ResourceNotFound("Customer","mobileNumber",m)` and nothing else does; a customer without an account gives `ResourceNotFound("Accounts","customerId",id)`; a success is that customer's name, email and mobile number with that account's number, type and branch |
| `AccountsService.AccountsServiceImpl.UpdateAccount` | src/main/java/com/bank/accounts/service/impl/AccountsServiceImpl.java:76-97 | no account part gives `false` with no writes; an unknown number gives `ResourceNotFound("Accounts","customerId",number)` with no writes; otherwise the account's type and branch are overwritten, then the customer named by the stored account's `customerId` gets the request's name, email and mobile number and the answer is `true`; a missing customer gives `ResourceNotFound("Customer","customerId",id)` after the account write; `Consistent` is kept |
| `AccountsService.AccountsServiceImpl.DeleteAccount` | src/main/java/com/bank/accounts/service/impl/AccountsServiceImpl.java:100-109 | an unregistered number gives `ResourceNotFound("Customer","mobileNumber",m)` with no writes; otherwise a customer with that number is removed with every account naming it and the answer is `true`; `Consistent` and `UniqueMobiles` are kept |
| `ServiceScenarios.CreateThenFetch` | src/test/java/com/bank/accounts/integration/AccountsIntegrationTest.java:224-251 | starting from a `Consistent` state in which the mobile number is unused, create followed by a fetch of that number returns the draft's name, email and mobile number with a ten-digit `SAVINGS` account at `ADDRESS` |
| `ServiceScenarios.CreateTwice` | src/test/java/com/bank/accounts/service/impl/AccountsServiceImplTest.java:114-128 | a second create with the same mobile number fails with `CustomerAlreadyExists`; exactly one new customer, which owns an account, is left |
| `ServiceScenarios.UpdateThenFetch` | src/test/java/com/bank/accounts/integration/AccountsIntegrationTest.java:142-187 | starting from a `Consistent` state, when the request's account number exists and no customer other than that account's owner holds the request's mobile number, update answers `true` and a fetch by that mobile number returns the request's customer fields with the updated account |
| `ServiceScenarios.DeleteThenFetch` | src/test/java/com/bank/accounts/integration/AccountsIntegrationTest.java:193-219 | with unique mobile numbers and the number registered, delete answers `true`, the customer and its accounts are gone, and a later fetch of the number fails with `ResourceNotFound("Customer","mobileNumber",m)` |

## Left out

- The HTTP layer (`AccountsApi`), application bootstrap, configuration
  binding (`ContactInfoDto`) and the auditor (`AuditAwareImpl`) are outside
  the core. Audit timestamps and actors are not modelled.
- Request validation (mobile number pattern, name length, email format) runs
  before the service in the Jakarta Validation library. The model accepts
  any strings.
- The source of `AccountsConstants` is not available, so the values of its
  two constants are taken from elsewhere. `SAVINGS` is `"Savings"`, the
  value the tests check. The value of `ADDRESS` is assumed, and every
  property is stated in terms of the constant.
- The repositories are modelled as two maps with the semantics the service
  relies on. `save` inserts or overwrites by key, and gives a new customer
  the next identity from a counter. `deleteByCustomerId` removes every row
  naming the customer.
- `AccountsService.AccountsServiceImpl.FindByMobileNumber`: when several
  customers share a mobile number, the model returns any one of them. The
  real query method would raise an error for a non-unique result. Duplicates
  can arise in three ways: through update, through stores the service is
  built on, and through the concurrent create race left out below.
- `AccountsService.AccountsServiceImpl.FindByCustomerId`: in the same way,
  the model returns any one of several accounts. Under `Consistent` there
  is at most one.
- `AccountsService.NextInt`: `java.util.Random` is a nondeterministic choice
  in range, so the model does not capture the distribution.
- Java `null`: a freshly constructed entity or DTO has its unset strings
  written as `""` and its number as `0`; every one is overwritten before it
  is read. A request whose account part has a null account number is not
  modelled, because account numbers are plain integers here.
- `Long` and `int` widths: account numbers and ids are unbounded integers.
  The generator's sum never leaves the `int` range, so no wrap-around
  arises.
- Mapper object identity: the mappers return their target object. The model
  expresses this as "the result is the target with three fields replaced";
  aliasing of the Java objects is not modelled.
- Concurrency and transactions: the check-then-insert race on the mobile
  number, and the unguarded two-step writes of create and delete, are not
  expressible in this sequential model. Only the sequential behaviour is
  stated.
