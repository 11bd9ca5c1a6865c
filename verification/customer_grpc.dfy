/** The customer gRPC server (internal/customer/grpc/server.go): where service
    errors become gRPC status codes and customers become wire responses. */
module CustomerGrpc {
  import opened Errors
  import opened Results
  import opened Values
  import CustomerRepo
  import CustomerService

  /** The gRPC status codes the server uses. */
  datatype Code = NotFound | Internal

  /** `codes.Code.String()` */
  function CodeName(c: Code): string {
    match c
    case NotFound => "NotFound"
    case Internal => "Internal"
  }

  datatype Status = Status(code: Code, message: string)

  /** A unary call's outcome: a response message or a status error. */
  datatype Reply<+T> = Reply(value: T) | Failed(status: Status)

  /** `pb.CustomerResponse`. The RFC 3339 rendering of the creation time is
      not modelled; the field carries the time itself. */
  datatype CustomerResponse = CustomerResponse(id: string, idn: Bytes, createdAt: Time)

  function ToResponse(c: CustomerRepo.Customer): (resp: CustomerResponse)
    ensures resp.id == c.id && resp.idn == c.idn && resp.createdAt == c.createdAt
  {
    CustomerResponse(c.id, c.idn, c.createdAt)
  }

  /** A served call that may have changed the customers table. */
  datatype Served = Served(table: CustomerRepo.CustomerTable, reply: Reply<CustomerResponse>)

  function UpsertCustomer(t: CustomerRepo.CustomerTable, idn: Bytes, env: CustomerRepo.UpsertEnv): (r: Served)
    ensures r.table == CustomerService.UpsertCustomer(t, idn, env).state
    // every failure, a malformed idn included, is INTERNAL
    ensures r.reply.Failed? ==> r.reply.status.code == Internal
    ensures r.reply.Failed? <==> CustomerService.UpsertCustomer(t, idn, env).result.Err?
    ensures r.reply.Failed? ==>
      r.reply.status.message == "failed to upsert customer: " + Text(CustomerService.UpsertCustomer(t, idn, env).result.error)
    ensures !CustomerService.IsIdn(idn) ==>
      r == Served(t, Failed(Status(Internal, "failed to upsert customer: " + CustomerService.IdnMessage)))
    ensures r.reply.Reply? ==>
      idn in r.table && r.reply.value.id == r.table[idn].id && r.reply.value.idn == r.table[idn].idn
      && r.reply.value.createdAt == r.table[idn].createdAt
  {
    var s := CustomerService.UpsertCustomer(t, idn, env);
    match s.result
    case Err(e) => Served(s.state, Failed(Status(Internal, "failed to upsert customer: " + Text(e))))
    case Ok(c) => Served(s.state, Reply(ToResponse(c)))
  }

  /** As written: NOT_FOUND is chosen by comparing the error's text with the
      repository's miss message, which the service has already prefixed. */
  function GetCustomer(t: CustomerRepo.CustomerTable, idn: Bytes, fault: Option<string>): (r: Reply<CustomerResponse>)
    ensures r.Reply? <==> CustomerService.IsIdn(idn) && fault.None? && idn in t
    ensures r.Reply? ==> r.value == ToResponse(t[idn])
    // the NOT_FOUND branch is dead
    ensures r.Failed? ==> r.status.code == Internal
    ensures r.Failed? ==>
      r.status.message == "failed to get customer: " + Text(CustomerService.GetCustomer(t, idn, fault).error)
  {
    match CustomerService.GetCustomer(t, idn, fault)
    case Err(e) =>
      if Text(e) == CustomerRepo.NotFoundMessage then Failed(Status(NotFound, CustomerRepo.NotFoundMessage))
      else Failed(Status(Internal, "failed to get customer: " + Text(e)))
    case Ok(c) => Reply(ToResponse(c))
  }

  /** A well-formed idn with no row answers INTERNAL, with the context twice. */
  lemma MissingCustomerIsInternal(t: CustomerRepo.CustomerTable, idn: Bytes)
    requires CustomerService.IsIdn(idn) && idn !in t
    ensures GetCustomer(t, idn, None)
      == Failed(Status(Internal, "failed to get customer: " + "failed to get customer: " + CustomerRepo.NotFoundMessage))
  {
  }

  /** Corrected: NOT_FOUND when the error chain holds the repository's miss,
      as `errors.Is` against a not-found sentinel would decide. */
  function GetCustomerFixed(t: CustomerRepo.CustomerTable, idn: Bytes, fault: Option<string>): (r: Reply<CustomerResponse>)
    ensures r.Reply? <==> CustomerService.IsIdn(idn) && fault.None? && idn in t
    ensures r.Reply? ==> r.value == ToResponse(t[idn])
    ensures r.Failed? && r.status.code == NotFound <==> CustomerService.IsIdn(idn) && fault.None? && idn !in t
    ensures r.Failed? && r.status.code == NotFound ==> r.status.message == CustomerRepo.NotFoundMessage
  {
    match CustomerService.GetCustomer(t, idn, fault)
    case Err(e) =>
      if IsMissing(e) then Failed(Status(NotFound, CustomerRepo.NotFoundMessage))
      else Failed(Status(Internal, "failed to get customer: " + Text(e)))
    case Ok(c) => Reply(ToResponse(c))
  }

  /** The two versions differ exactly on a miss. */
  lemma FixedDiffersOnlyOnMiss(t: CustomerRepo.CustomerTable, idn: Bytes, fault: Option<string>)
    ensures GetCustomerFixed(t, idn, fault) != GetCustomer(t, idn, fault) <==>
      CustomerService.IsIdn(idn) && fault.None? && idn !in t
  {
  }
}
