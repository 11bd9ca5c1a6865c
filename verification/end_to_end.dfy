/** The two services wired together: the shipment service's upstream is the
    customer gRPC server, reached over a connection that delivers every call
    (transport failures are the abstract upstream's business, not this one's). */
module EndToEnd {
  import opened Errors
  import opened Results
  import opened Values
  import CustomerRepo
  import CustomerService
  import CustomerGrpc
  import ShipmentRepo
  import ShipmentService
  import ShipmentHttp

  /** The client side's view of a status error: grpc-go renders it as
      "rpc error: code = <code> desc = <message>". */
  function StatusError(s: CustomerGrpc.Status): (e: Error)
    ensures Text(e) == "rpc error: code = " + CustomerGrpc.CodeName(s.code) + " desc = " + s.message
    ensures !IsMissing(e)
  {
    Plain("rpc error: code = " + CustomerGrpc.CodeName(s.code) + " desc = " + s.message)
  }

  /** `UpsertCustomer` through the client stub, against the customer server. */
  function UpsertCall(t: CustomerRepo.CustomerTable, idn: Bytes, env: CustomerRepo.UpsertEnv)
    : (r: Step<CustomerRepo.CustomerTable, CustomerGrpc.CustomerResponse>)
    ensures r.state == CustomerGrpc.UpsertCustomer(t, idn, env).table
    ensures r.result.Ok? <==> CustomerGrpc.UpsertCustomer(t, idn, env).reply.Reply?
    ensures r.result.Ok? ==> r.result.value == CustomerGrpc.UpsertCustomer(t, idn, env).reply.value
    ensures r.result.Err? ==> r.result.error == StatusError(CustomerGrpc.UpsertCustomer(t, idn, env).reply.status)
  {
    var served := CustomerGrpc.UpsertCustomer(t, idn, env);
    match served.reply
    case Reply(resp) => Step(served.table, Ok(resp))
    case Failed(st) => Step(served.table, Err(StatusError(st)))
  }

  function CustomerUpstream(env: CustomerRepo.UpsertEnv): ShipmentService.Upstream<CustomerRepo.CustomerTable> {
    (t: CustomerRepo.CustomerTable, idn: Bytes) => UpsertCall(t, idn, env)
  }

  /** Every idn the customer service accepts passes the shipment service's
      length check. */
  lemma ValidIdnHasIdnLength(idn: Bytes)
    requires CustomerService.ValidateIDN(idn).Ok?
    ensures ShipmentService.HasIdnLength(idn)
  {
  }

  /** The converse fails: twelve bytes that are not all digits pass the
      length check and are refused only by the customer service. Six
      two-byte UTF-8 runes (here "é" six times) are twelve bytes as well. */
  lemma LengthCheckIsWeaker()
    ensures var mixed: Bytes := [49, 50, 51, 52, 53, 54, 55, 56, 57, 48, 49, 97];
            ShipmentService.HasIdnLength(mixed) && CustomerService.ValidateIDN(mixed).Err?
    ensures var accented: Bytes := [0xC3, 0xA9, 0xC3, 0xA9, 0xC3, 0xA9, 0xC3, 0xA9, 0xC3, 0xA9, 0xC3, 0xA9];
            ShipmentService.HasIdnLength(accented) && CustomerService.ValidateIDN(accented).Err?
  {
  }

  /** Such an idn reaches the customer service, is refused there, and the
      POST answers 500 with the error text of both services; no table changes. */
  lemma NonDigitIdnFailsUpstream(t: CustomerRepo.CustomerTable, ships: ShipmentRepo.ShipmentTable,
                                 body: ShipmentHttp.CreateShipmentBody,
                                 cenv: CustomerRepo.UpsertEnv, senv: ShipmentRepo.InsertEnv)
    requires ShipmentService.HasIdnLength(body.customerIdn) && !CustomerService.IsIdn(body.customerIdn)
    ensures ShipmentHttp.CreateShipment(t, ships, Some(body), CustomerUpstream(cenv), senv)
      == ShipmentHttp.Handled(t, ships, ShipmentHttp.ErrorResponse(ShipmentHttp.StatusInternalServerError,
           "failed to upsert customer: "
           + ("rpc error: code = Internal desc = " + ("failed to upsert customer: " + CustomerService.IdnMessage))))
  {
    var msg := "failed to upsert customer: " + CustomerService.IdnMessage;
    var rpc := StatusError(CustomerGrpc.Status(CustomerGrpc.Internal, msg));
    assert UpsertCall(t, body.customerIdn, cenv) == Step(t, Err(rpc));
    var e := Wrapped("failed to upsert customer", rpc);
    assert ShipmentService.CreateShipment(t, ships, ShipmentHttp.Request(body), CustomerUpstream(cenv), senv)
      == ShipmentService.Created(t, ships, Err(e));
    InternalStatusText(msg);
    UpsertContextText(rpc);
  }

  lemma InternalStatusText(m: string)
    ensures Text(StatusError(CustomerGrpc.Status(CustomerGrpc.Internal, m))) == "rpc error: code = Internal desc = " + m
  {
    assert "rpc error: code = " + "Internal" + " desc = " == "rpc error: code = Internal desc = ";
  }

  lemma UpsertContextText(e: Error)
    ensures Text(Wrapped("failed to upsert customer", e)) == "failed to upsert customer: " + Text(e)
  {
    assert "failed to upsert customer" + ": " == "failed to upsert customer: ";
  }


  /** The happy path of a POST: 201, and the body's `customerId` is the id the
      customer service then reports for that idn. */
  lemma PostResolvesCustomer(t: CustomerRepo.CustomerTable, ships: ShipmentRepo.ShipmentTable,
                             body: ShipmentHttp.CreateShipmentBody,
                             cenv: CustomerRepo.UpsertEnv, senv: ShipmentRepo.InsertEnv)
    requires CustomerService.IsIdn(body.customerIdn)
    requires cenv.selectFault.None? && cenv.insertFault.None? && cenv.freshId !in CustomerRepo.Ids(t)
    requires senv.fault.None? && senv.freshId !in ships
    ensures var h := ShipmentHttp.CreateShipment(t, ships, Some(body), CustomerUpstream(cenv), senv);
            var got := CustomerGrpc.GetCustomer(h.customers, body.customerIdn, None);
            && h.response.code == ShipmentHttp.StatusCreated
            && h.response.body.Json?
            && got.Reply?
            && h.response.body.shipment.customerId == got.value.id
            && h.response.body.shipment.status == ShipmentRepo.StatusCreated
  {
  }

  /** A failed shipment insert leaves the customer the upsert created: there
      is no compensation. */
  lemma CustomerKeptWhenInsertFails(t: CustomerRepo.CustomerTable, ships: ShipmentRepo.ShipmentTable,
                                    body: ShipmentHttp.CreateShipmentBody,
                                    cenv: CustomerRepo.UpsertEnv, senv: ShipmentRepo.InsertEnv)
    requires CustomerService.IsIdn(body.customerIdn) && body.customerIdn !in t
    requires cenv.selectFault.None? && cenv.insertFault.None? && cenv.freshId !in CustomerRepo.Ids(t)
    requires senv.fault.Some?
    ensures var h := ShipmentHttp.CreateShipment(t, ships, Some(body), CustomerUpstream(cenv), senv);
            && h.response.code == ShipmentHttp.StatusInternalServerError
            && h.shipments == ships
            && h.customers == t[body.customerIdn := CustomerRepo.Customer(cenv.freshId, body.customerIdn, cenv.now)]
  {
  }

  /** Two POSTs with the same idn name the same customer, and the second
      creates no second customer. */
  lemma RepeatedPostReusesCustomer(t: CustomerRepo.CustomerTable, ships: ShipmentRepo.ShipmentTable,
                                   body1: ShipmentHttp.CreateShipmentBody, body2: ShipmentHttp.CreateShipmentBody,
                                   cenv1: CustomerRepo.UpsertEnv, senv1: ShipmentRepo.InsertEnv,
                                   cenv2: CustomerRepo.UpsertEnv, senv2: ShipmentRepo.InsertEnv)
    requires body1.customerIdn == body2.customerIdn
    requires cenv2.selectFault.None?
    requires ShipmentHttp.CreateShipment(t, ships, Some(body1), CustomerUpstream(cenv1), senv1).response.code
             == ShipmentHttp.StatusCreated
    ensures var h1 := ShipmentHttp.CreateShipment(t, ships, Some(body1), CustomerUpstream(cenv1), senv1);
            var h2 := ShipmentHttp.CreateShipment(h1.customers, h1.shipments, Some(body2), CustomerUpstream(cenv2), senv2);
            && h2.customers == h1.customers
            && (h2.response.code == ShipmentHttp.StatusCreated ==>
                  h2.response.body.shipment.customerId == h1.response.body.shipment.customerId)
  {
  }

  /** A POST whose customer call fails, for whatever reason, stores no
      shipment and answers 500. */
  lemma UpstreamFailureStoresNothing<S>(customers: S, ships: ShipmentRepo.ShipmentTable,
                                        body: ShipmentHttp.CreateShipmentBody,
                                        upstream: ShipmentService.Upstream<S>, senv: ShipmentRepo.InsertEnv)
    requires upstream(customers, body.customerIdn).result.Err?
    ensures var h := ShipmentHttp.CreateShipment(customers, ships, Some(body), upstream, senv);
            h.shipments == ships && h.response.code == ShipmentHttp.StatusInternalServerError
  {
  }
}
