/** The customer service (internal/customer/service/service.go): the idn
    format gate in front of the repository, and the context it adds to the
    repository's errors. */
module CustomerService {
  import opened Errors
  import opened Results
  import opened Values
  import CustomerRepo

  const IdnMessage := "idn must be exactly 12 digits"

  /** RE2's `\d`: the ASCII digits only. */
  predicate IsDigit(b: byte) {
    '0' as byte <= b <= '9' as byte
  }

  /** What a customer identification number is: twelve ASCII digits, nothing else. */
  ghost predicate IsIdn(s: Bytes) {
    |s| == 12 && forall i | 0 <= i < |s| :: IsDigit(s[i])
  }

  /** Whether `s` matches `\d{n}$` from its first byte. Without the `m` flag
      RE2's `$` holds only at the end of the text, not before a final newline.
      Go matches runes, not bytes, but a rune of two or more bytes and an
      invalid byte are both outside `\d`, so counting bytes gives the same answer. */
  function MatchesDigitRun(s: Bytes, n: nat): bool
    decreases n
  {
    if n == 0 then |s| == 0
    else |s| > 0 && IsDigit(s[0]) && MatchesDigitRun(s[1..], n - 1)
  }

  lemma {:induction false} DigitRunIsDigits(s: Bytes, n: nat)
    ensures MatchesDigitRun(s, n) <==> |s| == n && forall i | 0 <= i < |s| :: IsDigit(s[i])
    decreases n
  {
    if n > 0 && |s| > 0 {
      DigitRunIsDigits(s[1..], n - 1);
      assert forall i | 1 <= i < |s| :: s[i] == s[1..][i - 1];
    }
  }

  /** `idnRegex.MatchString(idn)` with `idnRegex = ^\d{12}$`. */
  function ValidateIDN(idn: Bytes): (r: Result<()>)
    ensures r.Ok? <==> IsIdn(idn)
    ensures r.Err? ==> r.error == Plain(IdnMessage)
  {
    DigitRunIsDigits(idn, 12);
    if MatchesDigitRun(idn, 12) then Ok(()) else Err(Plain(IdnMessage))
  }

  function UpsertCustomer(t: CustomerRepo.CustomerTable, idn: Bytes, env: CustomerRepo.UpsertEnv)
    : (r: Step<CustomerRepo.CustomerTable, CustomerRepo.Customer>)
    // a bad idn never reaches the table, and its error is not wrapped
    ensures !IsIdn(idn) ==> r == Step(t, Err(Plain(IdnMessage)))
    ensures r.result.Ok? <==>
      IsIdn(idn) && env.selectFault.None? && (idn in t || (env.insertFault.None? && env.freshId !in CustomerRepo.Ids(t)))
    ensures IsIdn(idn) ==> r.state == CustomerRepo.UpsertCustomer(t, idn, env).state
    ensures IsIdn(idn) && r.result.Ok? ==> r.result == CustomerRepo.UpsertCustomer(t, idn, env).result
    ensures IsIdn(idn) && r.result.Err? ==>
      r.result.error == Wrapped("failed to upsert customer", CustomerRepo.UpsertCustomer(t, idn, env).result.error)
    ensures r.result.Ok? ==> idn in r.state && r.state[idn] == r.result.value
    ensures r.result.Err? ==> r.state == t && !IsMissing(r.result.error)
    ensures CustomerRepo.Valid(t) ==> CustomerRepo.Valid(r.state)
  {
    match ValidateIDN(idn)
    case Err(e) => Step(t, Err(e))
    case Ok(_) =>
      var s := CustomerRepo.UpsertCustomer(t, idn, env);
      if s.result.Err? then Step(s.state, Err(Wrapped("failed to upsert customer", s.result.error)))
      else s
  }

  function GetCustomer(t: CustomerRepo.CustomerTable, idn: Bytes, fault: Option<string>)
    : (r: Result<CustomerRepo.Customer>)
    // a bad idn performs no lookup
    ensures !IsIdn(idn) ==> r == Err(Plain(IdnMessage))
    ensures r.Ok? <==> IsIdn(idn) && fault.None? && idn in t
    ensures r.Ok? ==> r.value == t[idn]
    ensures IsIdn(idn) && r.Err? ==>
      r.error == Wrapped("failed to get customer", CustomerRepo.GetCustomer(t, idn, fault).error)
    // even a miss is wrapped, so the text is never the repository's own
    ensures r.Err? ==> Text(r.error) != CustomerRepo.NotFoundMessage
    ensures r.Err? ==> (IsMissing(r.error) <==> IsIdn(idn) && fault.None? && idn !in t)
  {
    match ValidateIDN(idn)
    case Err(e) => Err(e)
    case Ok(_) =>
      var g := CustomerRepo.GetCustomer(t, idn, fault);
      if g.Err? then
        WrappedTextIsLonger("failed to get customer", g.error);
        Err(Wrapped("failed to get customer", g.error))
      else g
  }

  /** A customer the service has upserted is what the service then finds. */
  lemma UpsertThenGet(t: CustomerRepo.CustomerTable, idn: Bytes, env: CustomerRepo.UpsertEnv)
    requires UpsertCustomer(t, idn, env).result.Ok?
    ensures GetCustomer(UpsertCustomer(t, idn, env).state, idn, None) == UpsertCustomer(t, idn, env).result
  {
  }
}
