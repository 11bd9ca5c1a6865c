# Customer and shipment services, modelled in Dafny

The system has two small services. The **customer service** keeps a
`customers` table. It is keyed by an identification number (the *idn*, a
Go string that must be exactly twelve ASCII digits) and is reached over
gRPC. The **shipment service** takes `POST /shipments` and
`GET /shipments/{id}` over HTTP. To create a shipment it checks the idn's
length and asks the customer service to find or create the customer (an
*upsert*). It then inserts a `CREATED` shipment row that points at that
customer.

This model covers the request path of both services:

- `results.dfy` (`Results`) holds `Option`, `Result` and the table-changing `Step`.
- `errors.dfy` (`Errors`) holds Go errors as a wrap chain. `Text` is
  `err.Error()`, the string the boundaries compare. `IsMissing` is what
  `errors.Is` against a not-found sentinel would answer.
- `values.dfy` (`Values`) holds the scalar types. An idn is a sequence of
  bytes, because Go's `len` counts bytes. A `time.Time` is a `nat`, and 0 is
  the zero time. A price is an opaque `real`.
- `customer_repo.dfy` (`CustomerRepo`) is find-or-create over
  `map<idn, Customer>`. It includes the `ON CONFLICT (idn)` fallback and
  the two point lookups.
- `customer_service.dfy` (`CustomerService`) is the `^\d{12}$` gate and the
  error contexts.
- `customer_grpc.dfy` (`CustomerGrpc`) maps errors to gRPC codes and copies
  responses.
- `shipment_repo.dfy` (`ShipmentRepo`) fills defaults, inserts, and looks up
  by id.
- `shipment_service.dfy` (`ShipmentService`) is the three-step create
  workflow. The customer service is an abstract `upstream` call: it may
  fail, and it may change the customer side's state.
- `shipment_http.dfy` (`ShipmentHttp`) picks the status code and copies the
  JSON body.
- `end_to_end.dfy` (`EndToEnd`) plugs the customer gRPC server in as the
  shipment service's upstream. It proves properties of the whole POST path.

Fresh ids (`uuid.New`), clock readings (`time.Now`) and database failures
are parameters of each step. With those fixed, every operation is a pure
function that returns the new table and a result. For the customer upsert,
the table that the INSERT sees is a separate argument
(`UpsertCustomerRaced`). This models a row committed by another session
between the lookup and the insert. Real interleavings are not modelled.

Where the documented behaviour of the services and the code disagree, the model follows the
code:

- A missing customer reaches a gRPC client as `INTERNAL`, not `NOT_FOUND`.
- A missing shipment is answered 500, not 404.
- The JSON request names the customer field `idn`, not `identifier`.

## Model

| member | source | states |
|---|---|---|
| `CustomerService.ValidateIDN` | internal/customer/service/service.go:19-26 | succeeds iff the idn is exactly 12 bytes, each an ASCII digit; otherwise fails with exactly "idn must be exactly 12 digits", unwrapped |
| `CustomerService.DigitRunIsDigits` | internal/customer/service/service.go:19 | the anchored regular expression `\d{n}$` matches iff the text is n bytes long and each is an ASCII digit (a trailing newline is refused) |
| `CustomerService.UpsertCustomer` | internal/customer/service/service.go:28-39 | a bad idn returns the validation error and leaves the table unchanged; a good one returns the repository's customer unchanged, or its error under "failed to upsert customer"; succeeds iff the idn is valid, the lookup works, and the row exists or can be inserted; the returned customer is the row stored under the idn |
| `CustomerService.GetCustomer` | internal/customer/service/service.go:41-52 | a bad idn performs no lookup; success iff valid, no fault and the idn is present, returning that row; every repository error, a miss included, is wrapped with "failed to get customer", so the error text never equals "customer not found" |
| `CustomerService.UpsertThenGet` | internal/customer/service/service.go:28-52 | what the service upserts, the service then finds |
| `CustomerRepo.SelectByIdn` | internal/customer/repo/postgres.go:38-55 | the lookup finds the idn's row iff there is no fault and the idn is present; a fault is never a miss |
| `CustomerRepo.InsertOnConflict` | internal/customer/repo/postgres.go:63-76 | an existing row with the idn wins and is returned with the table unchanged; otherwise the row is added under its idn, unless the id is already taken or the driver fails, in which case the table is unchanged |
| `CustomerRepo.UpsertCustomerRaced` | internal/customer/repo/postgres.go:29-79 | found: that row; query fault: "failed to query customer: …"; a row that appears between lookup and insert is returned with its own id and time, not the fresh ones; insert fault: "failed to insert customer: …"; one row per idn and unique ids are preserved |
| `CustomerRepo.UpsertCustomer` | internal/customer/repo/postgres.go:29-79 | success iff no query fault and the row exists or can be inserted; an existing row is returned and the table unchanged; a miss stores `(freshId, idn, now)` under idn and changes no other key; any failure leaves the table unchanged; the table's constraints are preserved |
| `CustomerRepo.GetCustomer` | internal/customer/repo/postgres.go:81-109 | read-only lookup by idn; a miss is exactly "customer not found"; a fault is "failed to query customer: …" |
| `CustomerRepo.GetCustomerByID` | internal/customer/repo/postgres.go:111-139 | read-only lookup by id; succeeds iff there is no fault and some row has the id, returning such a row; a miss is exactly "customer not found"; with unique ids the row is the one stored under its idn |
| `CustomerRepo.UpsertIsIdempotent` | internal/customer/repo/postgres.go:38-79 | a second upsert of the same idn returns the same row (id and creation time) and changes nothing |
| `CustomerRepo.UpsertThenGet` | internal/customer/repo/postgres.go:90-108 | after a successful upsert, the lookup by idn returns the upserted row |
| `CustomerGrpc.UpsertCustomer` | internal/customer/grpc/server.go:31-56 | every failure, a malformed idn included, is INTERNAL with "failed to upsert customer: " before the service's text; a reply carries the id, idn and time of the row now stored under the idn |
| `CustomerGrpc.GetCustomer` | internal/customer/grpc/server.go:58-86 | as written: a reply iff the idn is valid and present, carrying that row; every failure is INTERNAL, so the NOT_FOUND branch is dead |
| `CustomerGrpc.MissingCustomerIsInternal` | internal/customer/grpc/server.go:67-74 | a valid idn with no row answers INTERNAL "failed to get customer: failed to get customer: customer not found" |
| `CustomerGrpc.GetCustomerFixed` | internal/customer/grpc/server.go:67-74 | corrected: NOT_FOUND "customer not found" iff the idn is valid, there is no fault and there is no row |
| `CustomerGrpc.FixedDiffersOnlyOnMiss` | internal/customer/grpc/server.go:70 | the corrected and the written mapping differ exactly on a miss |
| `ShipmentRepo.FillDefaults` | internal/shipment/repo/postgres.go:42-50 | an empty id becomes the fresh id and a non-empty one is kept; an empty status becomes "CREATED" and a non-empty one is kept; a zero time becomes now and a non-zero one is kept; route, price and customer id are untouched |
| `ShipmentRepo.FillDefaultsIsIdempotent` | internal/shipment/repo/postgres.go:42-50 | once filled with a non-empty id and a non-zero time, filling again changes nothing |
| `ShipmentRepo.CreateShipment` | internal/shipment/repo/postgres.go:32-71 | the caller's struct holds the defaults even on failure; success iff no fault and the id is free, storing the filled row under its id, with its time as the `created_at` column keeps it, and nothing else; failure is "failed to insert shipment: …" with the table unchanged |
| `ShipmentRepo.GetShipment` | internal/shipment/repo/postgres.go:73-106 | read-only lookup by id; a miss is exactly "shipment not found"; a fault is "failed to query shipment: …" |
| `ShipmentRepo.CreateThenGet` | internal/shipment/repo/postgres.go:83-105 | a created shipment is found again by its id with every field as filled, except the time, which comes back as the `created_at` column kept it |
| `ShipmentService.CreateShipment` | internal/shipment/service/service.go:34-70 | a byte length other than 12 fails with "idn must be exactly 12 digits", with no upstream call and no change; an upstream failure is "failed to upsert customer: …" with no shipment stored; an insert failure is exactly "failed to create shipment: " before the repository's error, and keeps the upstream's effect; success iff all three steps succeed, returning a CREATED shipment with the upstream's customer id, the request's route and price, and the repository's id and in-memory time, stored under that id with the time the column keeps |
| `ShipmentService.GetShipment` | internal/shipment/service/service.go:72-85 | every repository error, a miss included, is wrapped with "failed to get shipment"; success returns the stored row |
| `ShipmentService.CreateThenGet` | internal/shipment/service/service.go:64-69 | the shipment the service returns is what the service then finds under its id, except that the found time is the one the column kept |
| `ShipmentHttp.CreateShipment` | internal/shipment/http/handlers.go:41-85 | an undecodable body is 400 "invalid request body" and the service is not called; every service error, the idn length error included, is 500 with its text; success is 201 with the shipment's fields; no other code is possible |
| `ShipmentHttp.GetShipment` | internal/shipment/http/handlers.go:87-128 | as written: 200 with the stored shipment's fields iff there is no fault and the id is present; every other outcome is 500, so the 404 branch is dead |
| `ShipmentHttp.MissingShipmentIs500` | internal/shipment/http/handlers.go:100-108 | an unknown id is answered 500 "failed to get shipment: shipment not found" |
| `ShipmentHttp.GetShipmentFixed` | internal/shipment/http/handlers.go:100-108 | corrected: 404 "shipment not found" iff there is no fault and no row; 500 iff the query failed |
| `ShipmentHttp.PostThenGet` | internal/shipment/http/handlers.go:111-121 | after a 201, a GET of the returned id answers 200 with the same JSON fields, except `created_at`, which the POST takes from memory and the GET from the column |
| `EndToEnd.UpsertCall` | internal/shipment/grpc/client.go:35-38 | the stub's upsert returns the server's response, or its status rendered as "rpc error: code = … desc = …", and the customer table the server left |
| `EndToEnd.ValidIdnHasIdnLength` | internal/shipment/service/service.go:44 | every idn the customer service accepts passes the shipment service's length check |
| `EndToEnd.LengthCheckIsWeaker` | internal/shipment/service/service.go:44 | "12345678901a", and six two-byte runes, pass the length check but are refused by the customer service |
| `EndToEnd.NonDigitIdnFailsUpstream` | internal/shipment/service/service.go:44-53 | a 12-byte idn that is not all digits makes the POST answer 500 with both services' contexts, and changes neither table |
| `EndToEnd.PostResolvesCustomer` | internal/shipment/http/handlers.go:41-78 | with a valid idn and no failures the POST answers 201 with status CREATED, and its customerId is the id that GetCustomer then reports for the idn |
| `EndToEnd.CustomerKeptWhenInsertFails` | internal/shipment/service/service.go:49-67 | when the shipment insert fails after a new customer was created, the POST answers 500, no shipment is stored, and the new customer stays |
| `EndToEnd.RepeatedPostReusesCustomer` | internal/customer/repo/postgres.go:38-50 | a second POST with the same idn changes no customer and, when it succeeds, names the same customer id |
| `EndToEnd.UpstreamFailureStoresNothing` | internal/shipment/service/service.go:49-53 | whatever makes the customer call fail, the POST answers 500 and stores no shipment |
| `Errors.WrappedTextIsLonger` | internal/customer/service/service.go:48 | a wrapped error's text starts with its context and ": ", so it is longer than that context |

## Left out

- Tracing is not modelled: OpenTelemetry spans, their attributes, recorded errors, and the trace-id log lines. None of them changes control flow.
- Process start-up is not modelled: both `main.go` files, environment defaults, DSN formatting, tracer providers, `StartGRPCServer`, the router and signal handling.
- The client stub's `NewClient`, `GetCustomer` and `Close` are not modelled. The shipment service never calls the stub's `GetCustomer`.
- Transport failures are not modelled directly. The abstract upstream of `ShipmentService.CreateShipment` may fail for any reason, and `EndToEnd` assumes a connection that delivers every call.
- SQL, the driver and the database are replaced by maps. Each statement's failure is an input message. The duplicate-key error is a fixed text, because the driver's exact wording (which names the constraint) is not modelled.
- The `created_at` column of `shipments` keeps a time through a caller-supplied function (`InsertEnv.column`), standing for the database's microsecond precision. The customer side needs no such function: `RETURNING` hands back the stored row, so the model stores and returns one value. Time zones are not modelled.
- JSON decoding and encoding are not modelled. The handler receives the decoded body or nothing. The RFC 3339 rendering of times is left out, and the encoder's ignored write error is left out.
- `http.Error`'s response headers and the `Content-Type` header are not modelled. The body is the message plus a newline.
- EndToEnd.UpsertCall: an idn is any byte sequence, but JSON decoding replaces invalid UTF-8 with U+FFFD and the proto3 stub refuses to marshal such a string. For idns that are not valid UTF-8, the reply this member and `EndToEnd.NonDigitIdnFailsUpstream` describe is not what the program answers. Such idns never reach the stub through the HTTP handler.
- EndToEnd.NonDigitIdnFailsUpstream: its exact error text holds for idns that are valid UTF-8. For the others, see the line above.
- Price is an opaque `real`. No `float64` arithmetic takes place.
- Context cancellation and deadlines are not modelled. Concurrent requests are not modelled either. Of the upsert race, only the "row already present at insert" case is modelled.

## Findings

| source | as written | input that shows it | evidently intended | confidence | as-written member | corrected member |
|---|---|---|---|---|---|---|
| internal/customer/grpc/server.go:70 | NOT_FOUND is chosen when the error text equals "customer not found". The service has already wrapped the repository's miss as "failed to get customer: customer not found". | `GetCustomer` with a valid idn that has no row answers INTERNAL "failed to get customer: failed to get customer: customer not found" | NOT_FOUND for an absent customer | high; not executed | `CustomerGrpc.MissingCustomerIsInternal` | `CustomerGrpc.GetCustomerFixed` |
| internal/shipment/http/handlers.go:103 | 404 is chosen when the error text equals "shipment not found". The service has already wrapped the miss as "failed to get shipment: shipment not found". | `GET /shipments/{id}` for an id with no row answers 500 "failed to get shipment: shipment not found" | 404 for an absent shipment | high; not executed | `ShipmentHttp.MissingShipmentIs500` | `ShipmentHttp.GetShipmentFixed` |
