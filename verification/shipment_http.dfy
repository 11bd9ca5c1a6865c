/** The shipment HTTP handlers (internal/shipment/http/handlers.go): the
    status code each outcome gets and the JSON body copied from a shipment.
    JSON decoding is abstract: the handler receives the decoded body, or
    `None` when decoding failed. */
module ShipmentHttp {
  import opened Errors
  import opened Results
  import opened Values
  import ShipmentRepo
  import ShipmentService

  const StatusOK := 200
  const StatusCreated := 201
  const StatusBadRequest := 400
  const StatusNotFound := 404
  const StatusInternalServerError := 500

  const InvalidBodyMessage := "invalid request body"

  /** The decoded `{route, price, customer: {idn}}` body. */
  datatype CreateShipmentBody = CreateShipmentBody(route: string, price: Price, customerIdn: Bytes)

  /** `ShipmentResponse`, the JSON `{id, route, price, status, customerId, created_at}`. */
  datatype ShipmentJson = ShipmentJson(
    id: string,
    route: string,
    price: Price,
    status: string,
    customerId: string,
    createdAt: Time)

  datatype Body = Json(shipment: ShipmentJson) | TextBody(text: string)

  datatype Response = Response(code: int, body: Body)

  /** `http.Error(w, msg, code)`: the message and a newline, as plain text. */
  function ErrorResponse(code: int, msg: string): (r: Response)
    ensures r.code == code && r.body.TextBody? && r.body.text == msg + "\n"
  {
    Response(code, TextBody(msg + "\n"))
  }

  function ToJson(s: ShipmentRepo.Shipment): (j: ShipmentJson)
    ensures j.id == s.id && j.route == s.route && j.price == s.price && j.status == s.status
    ensures j.customerId == s.customerId && j.createdAt == s.createdAt
  {
    ShipmentJson(s.id, s.route, s.price, s.status, s.customerId, s.createdAt)
  }

  /** A handled request that may have changed both sides' state. */
  datatype Handled<S> = Handled(customers: S, shipments: ShipmentRepo.ShipmentTable, response: Response)

  function CreateShipment<S>(customers: S, shipments: ShipmentRepo.ShipmentTable, decoded: Option<CreateShipmentBody>,
                             upstream: ShipmentService.Upstream<S>, env: ShipmentRepo.InsertEnv): (r: Handled<S>)
    // a body that does not decode is a 400 and the service is not called
    ensures decoded.None? ==>
      r == Handled(customers, shipments, ErrorResponse(StatusBadRequest, InvalidBodyMessage))
    ensures decoded.Some? ==>
      var c := ShipmentService.CreateShipment(customers, shipments, Request(decoded.value), upstream, env);
      && r.customers == c.customers
      && r.shipments == c.shipments
      // every service failure is a 500 carrying the error text, the idn length error included
      && (c.result.Err? ==> r.response == ErrorResponse(StatusInternalServerError, Text(c.result.error)))
      && (c.result.Ok? ==> r.response == Response(StatusCreated, Json(ToJson(c.result.value))))
    ensures r.response.code in {StatusCreated, StatusBadRequest, StatusInternalServerError}
  {
    match decoded
    case None => Handled(customers, shipments, ErrorResponse(StatusBadRequest, InvalidBodyMessage))
    case Some(body) =>
      var c := ShipmentService.CreateShipment(customers, shipments, Request(body), upstream, env);
      match c.result
      case Err(e) => Handled(c.customers, c.shipments, ErrorResponse(StatusInternalServerError, Text(e)))
      case Ok(s) => Handled(c.customers, c.shipments, Response(StatusCreated, Json(ToJson(s))))
  }

  /** The service request built from the decoded body. */
  function Request(body: CreateShipmentBody): (req: ShipmentService.CreateShipmentRequest)
    ensures req.route == body.route && req.price == body.price && req.idn == body.customerIdn
  {
    ShipmentService.CreateShipmentRequest(body.route, body.price, body.customerIdn)
  }

  /** As written: 404 is chosen by comparing the error's text with the
      repository's miss message, which the service has already prefixed. */
  function GetShipment(shipments: ShipmentRepo.ShipmentTable, id: string, fault: Option<string>): (r: Response)
    ensures r.code == StatusOK <==> fault.None? && id in shipments
    ensures r.code == StatusOK ==> r.body == Json(ToJson(shipments[id]))
    // the 404 branch is dead: every failure is a 500
    ensures r.code != StatusOK ==>
      r == ErrorResponse(StatusInternalServerError, Text(ShipmentService.GetShipment(shipments, id, fault).error))
  {
    match ShipmentService.GetShipment(shipments, id, fault)
    case Err(e) =>
      WrappedTextIsLonger("failed to get shipment", ShipmentRepo.GetShipment(shipments, id, fault).error);
      if Text(e) == ShipmentRepo.NotFoundMessage then ErrorResponse(StatusNotFound, ShipmentRepo.NotFoundMessage)
      else ErrorResponse(StatusInternalServerError, Text(e))
    case Ok(s) => Response(StatusOK, Json(ToJson(s)))
  }

  /** A missing shipment is answered 500, with the context in front of the miss. */
  lemma MissingShipmentIs500(shipments: ShipmentRepo.ShipmentTable, id: string)
    requires id !in shipments
    ensures GetShipment(shipments, id, None)
      == ErrorResponse(StatusInternalServerError, "failed to get shipment: " + ShipmentRepo.NotFoundMessage)
  {
  }

  /** Corrected: 404 when the error chain holds the repository's miss, as
      `errors.Is` against a not-found sentinel would decide. */
  function GetShipmentFixed(shipments: ShipmentRepo.ShipmentTable, id: string, fault: Option<string>): (r: Response)
    ensures r.code == StatusOK <==> fault.None? && id in shipments
    ensures r.code == StatusOK ==> r.body == Json(ToJson(shipments[id]))
    ensures r.code == StatusNotFound <==> fault.None? && id !in shipments
    ensures r.code == StatusNotFound ==> r == ErrorResponse(StatusNotFound, ShipmentRepo.NotFoundMessage)
    ensures r.code == StatusInternalServerError <==> fault.Some?
  {
    match ShipmentService.GetShipment(shipments, id, fault)
    case Err(e) =>
      if IsMissing(e) then ErrorResponse(StatusNotFound, ShipmentRepo.NotFoundMessage)
      else ErrorResponse(StatusInternalServerError, Text(e))
    case Ok(s) => Response(StatusOK, Json(ToJson(s)))
  }

  /** Creating through the handler and reading the new id back gives the same
      JSON, except `created_at`: the POST answers with the in-memory time, the
      GET with what the column kept of it. */
  lemma PostThenGet<S>(customers: S, shipments: ShipmentRepo.ShipmentTable, body: CreateShipmentBody,
                       upstream: ShipmentService.Upstream<S>, env: ShipmentRepo.InsertEnv)
    requires CreateShipment(customers, shipments, Some(body), upstream, env).response.code == StatusCreated
    ensures var h := CreateShipment(customers, shipments, Some(body), upstream, env);
            h.response.body.Json?
            && GetShipment(h.shipments, h.response.body.shipment.id, None)
               == Response(StatusOK, Json(h.response.body.shipment.(createdAt := env.column(h.response.body.shipment.createdAt))))
  {
  }
}
