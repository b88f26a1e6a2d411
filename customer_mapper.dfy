/**
 * Field transcription between a customer row and a customer request or
 * response. As in AccountsMapper, each function returns its target with
 * name, email and mobile number replaced and its other fields (the entity's
 * customerId, the DTO's account part) untouched.
 */
module CustomerMapper {
  import opened Entities

  /** Copies name, email and mobile number of the entity onto the DTO; its account part stays. */
  function MapToCustomerDto(customerEntity: CustomerEntity, customerDto: CustomerDto): (r: CustomerDto)
    ensures r.name == customerEntity.name
    ensures r.email == customerEntity.email
    ensures r.mobileNumber == customerEntity.mobileNumber
    ensures r.accountsDto == customerDto.accountsDto
  {
    customerDto.(name := customerEntity.name,
                 email := customerEntity.email,
                 mobileNumber := customerEntity.mobileNumber)
  }

  /** Copies name, email and mobile number of the DTO onto the entity; its customerId stays. */
  function MapToCustomerEntity(customerDto: CustomerDto, customerEntity: CustomerEntity): (r: CustomerEntity)
    ensures r.name == customerDto.name
    ensures r.email == customerDto.email
    ensures r.mobileNumber == customerDto.mobileNumber
    ensures r.customerId == customerEntity.customerId
  {
    customerEntity.(name := customerDto.name,
                    email := customerDto.email,
                    mobileNumber := customerDto.mobileNumber)
  }

  /** Entity to DTO and back onto the same entity gives the entity back unchanged. */
  lemma RoundTrip(e: CustomerEntity, d: CustomerDto)
    ensures MapToCustomerEntity(MapToCustomerDto(e, d), e) == e
  {
  }

  /** DTO to entity and back onto the same DTO gives the DTO back unchanged. */
  lemma RoundTripDto(d: CustomerDto, e: CustomerEntity)
    ensures MapToCustomerDto(MapToCustomerEntity(d, e), d) == d
  {
  }

  /** Mapping the same DTO onto an entity a second time changes nothing more. */
  lemma EntityIdempotent(d: CustomerDto, e: CustomerEntity)
    ensures MapToCustomerEntity(d, MapToCustomerEntity(d, e)) == MapToCustomerEntity(d, e)
  {
  }

  /** Mapping the same entity onto a DTO a second time changes nothing more. */
  lemma DtoIdempotent(e: CustomerEntity, d: CustomerDto)
    ensures MapToCustomerDto(e, MapToCustomerDto(e, d)) == MapToCustomerDto(e, d)
  {
  }
}
