/**
 * Field transcription between an account row and the account part of a
 * request or response. The Java mappers call setters on the object they are
 * given and return that object; here each returns the target with the three
 * copied fields replaced and every other field as it was.
 */
module AccountsMapper {
  import opened Entities

  /** Copies number, type and branch of the entity onto the DTO. */
  function MapToAccountsDto(accountsEntity: AccountsEntity, accountsDto: AccountsDto): (r: AccountsDto)
    ensures r.accountNumber == accountsEntity.accountNumber
    ensures r.accountType == accountsEntity.accountType
    ensures r.branchAddress == accountsEntity.branchAddress
  {
    accountsDto.(accountNumber := accountsEntity.accountNumber,
                 accountType := accountsEntity.accountType,
                 branchAddress := accountsEntity.branchAddress)
  }

  /** Copies number, type and branch of the DTO onto the entity; its customerId stays. */
  function MapToAccountsEntity(accountsDto: AccountsDto, accountsEntity: AccountsEntity): (r: AccountsEntity)
    ensures r.accountNumber == accountsDto.accountNumber
    ensures r.accountType == accountsDto.accountType
    ensures r.branchAddress == accountsDto.branchAddress
    ensures r.customerId == accountsEntity.customerId
  {
    accountsEntity.(accountNumber := accountsDto.accountNumber,
                    accountType := accountsDto.accountType,
                    branchAddress := accountsDto.branchAddress)
  }

  /** Entity to DTO and back onto the same entity gives the entity back unchanged. */
  lemma RoundTrip(e: AccountsEntity, d: AccountsDto)
    ensures MapToAccountsEntity(MapToAccountsDto(e, d), e) == e
  {
  }

  /** DTO to entity and back gives a DTO equal to the original, whatever the targets held. */
  lemma RoundTripDto(d: AccountsDto, e: AccountsEntity, d0: AccountsDto)
    ensures MapToAccountsDto(MapToAccountsEntity(d, e), d0) == d
  {
  }

  /** Mapping the same DTO onto an entity a second time changes nothing more. */
  lemma EntityIdempotent(d: AccountsDto, e: AccountsEntity)
    ensures MapToAccountsEntity(d, MapToAccountsEntity(d, e)) == MapToAccountsEntity(d, e)
  {
  }

  /** Mapping the same entity onto a DTO a second time changes nothing more. */
  lemma DtoIdempotent(e: AccountsEntity, d: AccountsDto)
    ensures MapToAccountsDto(e, MapToAccountsDto(e, d)) == MapToAccountsDto(e, d)
  {
  }
}
