/** The customer repository (internal/customer/repo/postgres.go) over an
    abstract `customers` table. Fresh ids and the current time are inputs, and
    each statement's driver failure, if any, is an input too. */
module CustomerRepo {
  import opened Errors
  import opened Results
  import opened Values

  datatype Customer = Customer(id: string, idn: Bytes, createdAt: Time)

  /** The `customers` table, keyed by its unique `idn` column. */
  type CustomerTable = map<Bytes, Customer>

  /** The table's constraints: each row sits under its own idn, and the
      primary key `id` is unique. */
  ghost predicate Valid(t: CustomerTable) {
    && (forall k | k in t :: t[k].idn == k)
    && (forall k1, k2 | k1 in t && k2 in t && t[k1].id == t[k2].id :: k1 == k2)
  }

  /** The `id` column. */
  function Ids(t: CustomerTable): set<string> {
    set k | k in t :: t[k].id
  }

  const NotFoundMessage := "customer not found"

  /** The values `UpsertCustomer` takes from outside: the id `uuid.New` would
      return, the `time.Now` reading, and the driver error, if any, of the
      SELECT and of the INSERT. */
  datatype UpsertEnv = UpsertEnv(
    freshId: string,
    now: Time,
    selectFault: Option<string>,
    insertFault: Option<string>)

  /** `SELECT id, idn, created_at FROM customers WHERE idn = $1`. */
  datatype Lookup = Found(row: Customer) | NoRows | QueryFailed(cause: Error)

  function SelectByIdn(t: CustomerTable, idn: Bytes, fault: Option<string>): (r: Lookup)
    ensures r.Found? <==> fault.None? && idn in t
    ensures r.Found? ==> r.row == t[idn]
    ensures r.QueryFailed? ==> !IsMissing(r.cause)
  {
    if fault.Some? then QueryFailed(DriverError(fault.value))
    else if idn in t then Found(t[idn])
    else NoRows
  }

  /** `INSERT ... ON CONFLICT (idn) DO UPDATE SET idn = EXCLUDED.idn RETURNING
      id, idn, created_at`: a row already holding the idn wins and is returned
      unchanged; a clash on the primary key is a driver error. */
  function InsertOnConflict(t: CustomerTable, row: Customer, fault: Option<string>): (r: Step<CustomerTable, Customer>)
    ensures r.result.Ok? <==> fault.None? && (row.idn in t || row.id !in Ids(t))
    ensures r.result.Ok? ==> row.idn in r.state && r.state[row.idn] == r.result.value
    ensures row.idn in t && r.result.Ok? ==> r == Step(t, Ok(t[row.idn]))
    ensures row.idn !in t && r.result.Ok? ==> r == Step(t[row.idn := row], Ok(row))
    ensures r.result.Err? ==> r.state == t && !IsMissing(r.result.error)
  {
    if fault.Some? then Step(t, Err(DriverError(fault.value)))
    else if row.idn in t then Step(t, Ok(t[row.idn]))
    else if row.id in Ids(t) then Step(t, Err(UniqueViolation))
    else Step(t[row.idn := row], Ok(row))
  }

  /** `UpsertCustomer` when the SELECT sees table `seen` and the INSERT runs
      against `atInsert`: another session may have committed rows in between.
      Two real sessions interleaving is not modelled, only the table the
      second statement finds. */
  function UpsertCustomerRaced(seen: CustomerTable, atInsert: CustomerTable, idn: Bytes, env: UpsertEnv): (r: Step<CustomerTable, Customer>)
    ensures env.selectFault.Some? ==>
      r == Step(seen, Err(Wrapped("failed to query customer", DriverError(env.selectFault.value))))
    ensures env.selectFault.None? && idn in seen ==> r == Step(seen, Ok(seen[idn]))
    // the race: the row appeared after the lookup; its id and time are returned, not the fresh ones
    ensures env.selectFault.None? && idn !in seen && idn in atInsert && env.insertFault.None? ==>
      r == Step(atInsert, Ok(atInsert[idn]))
    ensures env.selectFault.None? && idn !in seen && env.insertFault.Some? ==>
      r == Step(atInsert, Err(Wrapped("failed to insert customer", DriverError(env.insertFault.value))))
    ensures r.result.Err? ==> !IsMissing(r.result.error)
    // one row per idn and a unique id, whichever table the step ends on
    ensures Valid(seen) && Valid(atInsert) ==> Valid(r.state)
  {
    match SelectByIdn(seen, idn, env.selectFault)
    case Found(c) => Step(seen, Ok(c))
    case QueryFailed(e) => Step(seen, Err(Wrapped("failed to query customer", e)))
    case NoRows =>
      var ins := InsertOnConflict(atInsert, Customer(env.freshId, idn, env.now), env.insertFault);
      if ins.result.Err? then Step(ins.state, Err(Wrapped("failed to insert customer", ins.result.error)))
      else ins
  }

  /** Find-or-create by idn, with nothing committed between the two statements. */
  function UpsertCustomer(t: CustomerTable, idn: Bytes, env: UpsertEnv): (r: Step<CustomerTable, Customer>)
    ensures r.result.Ok? <==>
      env.selectFault.None? && (idn in t || (env.insertFault.None? && env.freshId !in Ids(t)))
    // found: that row, and the table is untouched
    ensures env.selectFault.None? && idn in t ==> r == Step(t, Ok(t[idn]))
    // missed: a new row with the fresh id, the idn and the current time, under idn
    ensures idn !in t && r.result.Ok? ==>
      r.result.value == Customer(env.freshId, idn, env.now) && r.state == t[idn := r.result.value]
    ensures r.result.Ok? ==> idn in r.state && r.state[idn] == r.result.value
    ensures r.result.Err? ==> r.state == t
    ensures env.selectFault.Some? ==>
      r.result == Err(Wrapped("failed to query customer", DriverError(env.selectFault.value)))
    ensures env.selectFault.None? && idn !in t && r.result.Err? ==>
      r.result.error.Wrapped? && r.result.error.context == "failed to insert customer"
    ensures Valid(t) ==> Valid(r.state)
  {
    UpsertCustomerRaced(t, t, idn, env)
  }

  /** Point lookup by idn; read-only. */
  function GetCustomer(t: CustomerTable, idn: Bytes, fault: Option<string>): (r: Result<Customer>)
    ensures r.Ok? <==> fault.None? && idn in t
    ensures r.Ok? ==> r.value == t[idn]
    ensures fault.None? && idn !in t ==> r == Err(Missing(NotFoundMessage))
    ensures fault.Some? ==> r == Err(Wrapped("failed to query customer", DriverError(fault.value)))
  {
    match SelectByIdn(t, idn, fault)
    case Found(c) => Ok(c)
    case NoRows => Err(Missing(NotFoundMessage))
    case QueryFailed(e) => Err(Wrapped("failed to query customer", e))
  }

  /** Point lookup by the `id` column; read-only. Without ORDER BY the driver
      may return any matching row, so the choice is left open. */
  method GetCustomerByID(t: CustomerTable, id: string, fault: Option<string>) returns (r: Result<Customer>)
    ensures r.Ok? <==> fault.None? && id in Ids(t)
    ensures r.Ok? ==> r.value in t.Values && r.value.id == id
    ensures fault.None? && id !in Ids(t) ==> r == Err(Missing(NotFoundMessage))
    ensures fault.Some? ==> r == Err(Wrapped("failed to query customer", DriverError(fault.value)))
    // with a unique primary key there is only one row to return
    ensures Valid(t) && r.Ok? ==> r.value.idn in t && t[r.value.idn] == r.value
  {
    if fault.Some? {
      r := Err(Wrapped("failed to query customer", DriverError(fault.value)));
    } else if id in Ids(t) {
      var k :| k in t && t[k].id == id;
      r := Ok(t[k]);
    } else {
      r := Err(Missing(NotFoundMessage));
    }
  }

  /** Upserting the same idn twice returns the same row, id and creation time
      included, and the second call changes nothing. */
  lemma UpsertIsIdempotent(t: CustomerTable, idn: Bytes, first: UpsertEnv, second: UpsertEnv)
    requires UpsertCustomer(t, idn, first).result.Ok?
    requires second.selectFault.None?
    ensures var one := UpsertCustomer(t, idn, first);
            var two := UpsertCustomer(one.state, idn, second);
            two == one && two.result.value.id == one.result.value.id
              && two.result.value.createdAt == one.result.value.createdAt
  {
  }

  /** Upsert followed by a lookup of the same idn finds the upserted row. */
  lemma UpsertThenGet(t: CustomerTable, idn: Bytes, env: UpsertEnv)
    requires UpsertCustomer(t, idn, env).result.Ok?
    ensures GetCustomer(UpsertCustomer(t, idn, env).state, idn, None) == UpsertCustomer(t, idn, env).result
  {
  }
}
