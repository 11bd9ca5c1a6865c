/** The shipment repository (internal/shipment/repo/postgres.go) over an
    abstract `shipments` table keyed by id. */
module ShipmentRepo {
  import opened Errors
  import opened Results
  import opened Values

  datatype Shipment = Shipment(
    id: string,
    route: string,
    price: Price,
    status: string,
    customerId: string,
    createdAt: Time)

  /** The `shipments` table, keyed by its primary key `id`. */
  type ShipmentTable = map<string, Shipment>

  /** Each row sits under its own id. */
  ghost predicate Valid(t: ShipmentTable) {
    forall k | k in t :: t[k].id == k
  }

  const StatusCreated := "CREATED"
  const NotFoundMessage := "shipment not found"

  /** The values `CreateShipment` takes from outside: the id `uuid.New` would
      return, the `time.Now` reading, the INSERT's driver error, if any, and
      what the `created_at` column keeps of a time (a PostgreSQL timestamp
      keeps microseconds, a Go time nanoseconds). */
  datatype InsertEnv = InsertEnv(freshId: string, now: Time, fault: Option<string>, column: Time -> Time)

  /** The row the database holds for a shipment struct. */
  function Stored(s: Shipment, column: Time -> Time): (row: Shipment)
    ensures row.createdAt == column(s.createdAt)
    ensures row.(createdAt := s.createdAt) == s
  {
    s.(createdAt := column(s.createdAt))
  }

  /** The defaults written into the caller's struct before the INSERT runs. */
  function FillDefaults(s: Shipment, freshId: string, now: Time): (f: Shipment)
    ensures s.id == "" ==> f.id == freshId
    ensures s.id != "" ==> f.id == s.id
    ensures s.status == "" ==> f.status == StatusCreated
    ensures s.status != "" ==> f.status == s.status
    ensures s.createdAt == 0 ==> f.createdAt == now
    ensures s.createdAt != 0 ==> f.createdAt == s.createdAt
    ensures f.route == s.route && f.price == s.price && f.customerId == s.customerId
  {
    s.(id := if s.id == "" then freshId else s.id,
       status := if s.status == "" then StatusCreated else s.status,
       createdAt := if s.createdAt == 0 then now else s.createdAt)
  }

  /** Once the id, status and time are set, filling defaults again changes nothing. */
  lemma FillDefaultsIsIdempotent(s: Shipment, freshId: string, now: Time, freshId': string, now': Time)
    requires freshId != "" && now != 0
    ensures FillDefaults(FillDefaults(s, freshId, now), freshId', now') == FillDefaults(s, freshId, now)
  {
  }

  /** `CreateShipment` mutates the caller's struct and returns only an error:
      `filled` is the struct afterwards, failure or not. */
  datatype Insert = Insert(table: ShipmentTable, filled: Shipment, err: Option<Error>)

  function CreateShipment(t: ShipmentTable, s: Shipment, env: InsertEnv): (r: Insert)
    ensures r.filled == FillDefaults(s, env.freshId, env.now)
    ensures r.err.None? <==> env.fault.None? && r.filled.id !in t
    // the row is stored as filled, its time as the column keeps it, under its id, and nothing else changes
    ensures r.err.None? ==> r.table == t[r.filled.id := Stored(r.filled, env.column)]
    ensures r.err.Some? ==> r.table == t
    ensures env.fault.Some? ==>
      r.err == Some(Wrapped("failed to insert shipment", DriverError(env.fault.value)))
    ensures r.err.Some? ==>
      r.err.value.Wrapped? && r.err.value.context == "failed to insert shipment" && !IsMissing(r.err.value)
    ensures Valid(t) ==> Valid(r.table)
  {
    var f := FillDefaults(s, env.freshId, env.now);
    if env.fault.Some? then Insert(t, f, Some(Wrapped("failed to insert shipment", DriverError(env.fault.value))))
    else if f.id in t then Insert(t, f, Some(Wrapped("failed to insert shipment", UniqueViolation)))
    else Insert(t[f.id := Stored(f, env.column)], f, None)
  }

  /** Point lookup by id; read-only. */
  function GetShipment(t: ShipmentTable, id: string, fault: Option<string>): (r: Result<Shipment>)
    ensures r.Ok? <==> fault.None? && id in t
    ensures r.Ok? ==> r.value == t[id]
    ensures fault.None? && id !in t ==> r == Err(Missing(NotFoundMessage))
    ensures fault.Some? ==> r == Err(Wrapped("failed to query shipment", DriverError(fault.value)))
  {
    if fault.Some? then Err(Wrapped("failed to query shipment", DriverError(fault.value)))
    else if id in t then Ok(t[id])
    else Err(Missing(NotFoundMessage))
  }

  /** A created shipment is found again by its id: every field as filled,
      except the time, which comes back as the column kept it. */
  lemma CreateThenGet(t: ShipmentTable, s: Shipment, env: InsertEnv)
    requires CreateShipment(t, s, env).err.None?
    ensures var r := CreateShipment(t, s, env);
            && GetShipment(r.table, r.filled.id, None).Ok?
            && GetShipment(r.table, r.filled.id, None).value.(createdAt := r.filled.createdAt) == r.filled
            && GetShipment(r.table, r.filled.id, None).value.createdAt == env.column(r.filled.createdAt)
  {
  }
}
