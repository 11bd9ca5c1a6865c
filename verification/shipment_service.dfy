/** The shipment service (internal/shipment/service/service.go): the
    create-shipment workflow across the customer service and the shipment
    repository. The customer service is reached through `upstream`, a call
    that may fail and may change the customer side's state `S`; there is no
    compensation for what it did when a later step fails. */
module ShipmentService {
  import opened Errors
  import opened Results
  import opened Values
  import CustomerGrpc
  import ShipmentRepo

  /** The same words as the customer service's format error, for a weaker check. */
  const IdnLengthMessage := "idn must be exactly 12 digits"

  datatype CreateShipmentRequest = CreateShipmentRequest(route: string, price: Price, idn: Bytes)

  /** The upsert call to the customer service. */
  type Upstream<!S> = (S, Bytes) -> Step<S, CustomerGrpc.CustomerResponse>

  /** The customer side's state and the shipments table after a create, and its result. */
  datatype Created<S> = Created(customers: S, shipments: ShipmentRepo.ShipmentTable, result: Result<ShipmentRepo.Shipment>)

  /** `len(idn) != 12`: Go's `len` counts bytes and looks at nothing else. */
  predicate HasIdnLength(idn: Bytes) {
    |idn| == 12
  }

  /** The struct handed to the repository: no id and no time yet. */
  function Draft(req: CreateShipmentRequest, resp: CustomerGrpc.CustomerResponse): (s: ShipmentRepo.Shipment)
    ensures s.id == "" && s.createdAt == 0 && s.status == ShipmentRepo.StatusCreated
    ensures s.route == req.route && s.price == req.price && s.customerId == resp.id
  {
    ShipmentRepo.Shipment("", req.route, req.price, ShipmentRepo.StatusCreated, resp.id, 0)
  }

  function CreateShipment<S>(customers: S, shipments: ShipmentRepo.ShipmentTable, req: CreateShipmentRequest,
                             upstream: Upstream<S>, env: ShipmentRepo.InsertEnv): (r: Created<S>)
    // step 1: a wrong length stops before the customer service is called
    ensures !HasIdnLength(req.idn) ==> r == Created(customers, shipments, Err(Plain(IdnLengthMessage)))
    // step 2: an upstream failure is wrapped and no shipment is stored
    ensures HasIdnLength(req.idn) && upstream(customers, req.idn).result.Err? ==>
      r == Created(upstream(customers, req.idn).state, shipments,
                   Err(Wrapped("failed to upsert customer", upstream(customers, req.idn).result.error)))
    // step 3: an insert failure is wrapped; the upstream's effect stays
    ensures HasIdnLength(req.idn) && upstream(customers, req.idn).result.Ok? && r.result.Err? ==>
      r.customers == upstream(customers, req.idn).state && r.shipments == shipments
      && ShipmentRepo.CreateShipment(shipments, Draft(req, upstream(customers, req.idn).result.value), env).err.Some?
      && r.result.error == Wrapped("failed to create shipment",
           ShipmentRepo.CreateShipment(shipments, Draft(req, upstream(customers, req.idn).result.value), env).err.value)
    ensures r.result.Ok? <==>
      HasIdnLength(req.idn) && upstream(customers, req.idn).result.Ok? && env.fault.None? && env.freshId !in shipments
    // success: a CREATED shipment for the resolved customer, with the repository's id and time, stored under that id
    ensures r.result.Ok? ==>
      r.customers == upstream(customers, req.idn).state
      && r.result.value == ShipmentRepo.Shipment(env.freshId, req.route, req.price, ShipmentRepo.StatusCreated,
                                                 upstream(customers, req.idn).result.value.id, env.now)
      && r.shipments == shipments[env.freshId := ShipmentRepo.Stored(r.result.value, env.column)]
    ensures ShipmentRepo.Valid(shipments) ==> ShipmentRepo.Valid(r.shipments)
  {
    if !HasIdnLength(req.idn) then Created(customers, shipments, Err(Plain(IdnLengthMessage)))
    else
      var up := upstream(customers, req.idn);
      match up.result
      case Err(e) => Created(up.state, shipments, Err(Wrapped("failed to upsert customer", e)))
      case Ok(resp) =>
        var ins := ShipmentRepo.CreateShipment(shipments, Draft(req, resp), env);
        if ins.err.Some? then Created(up.state, ins.table, Err(Wrapped("failed to create shipment", ins.err.value)))
        else Created(up.state, ins.table, Ok(ins.filled))
  }

  function GetShipment(shipments: ShipmentRepo.ShipmentTable, id: string, fault: Option<string>)
    : (r: Result<ShipmentRepo.Shipment>)
    ensures r.Ok? <==> fault.None? && id in shipments
    ensures r.Ok? ==> r.value == shipments[id]
    // every repository error gets the context, a miss included
    ensures r.Err? ==> r.error == Wrapped("failed to get shipment", ShipmentRepo.GetShipment(shipments, id, fault).error)
    ensures r.Err? ==> (IsMissing(r.error) <==> fault.None? && id !in shipments)
  {
    var g := ShipmentRepo.GetShipment(shipments, id, fault);
    if g.Err? then Err(Wrapped("failed to get shipment", g.error)) else g
  }

  /** A shipment the service created is what the service then finds, its
      time as the column kept it. */
  lemma CreateThenGet<S>(customers: S, shipments: ShipmentRepo.ShipmentTable, req: CreateShipmentRequest,
                         upstream: Upstream<S>, env: ShipmentRepo.InsertEnv)
    requires CreateShipment(customers, shipments, req, upstream, env).result.Ok?
    ensures var r := CreateShipment(customers, shipments, req, upstream, env);
            GetShipment(r.shipments, r.result.value.id, None) == Ok(ShipmentRepo.Stored(r.result.value, env.column))
  {
  }
}
