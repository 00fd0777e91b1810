/** Tenant quotas and retention policies. */
module Policy {
  import opened Basics

  datatype RetentionPolicy = RetentionPolicy(id: string, repositoryPrefix: string, keepLast: int, maxAge: int,
                                             enabled: bool) {

    function Validate(): Outcome {
      if id == "" then Fail(Validation("policy.id"))
      else if keepLast < 0 then Fail(Validation("policy.keepLast"))
      else if maxAge < 0 then Fail(Validation("policy.maxAge"))
      else Pass
    }

    predicate Applies(repository: string) { enabled && repositoryPrefix <= repository }

    /** Whether this policy keeps the manifest at `index` of the newest-first order. */
    predicate Keeps(repository: string, index: int, createdAt: int, now: int) {
      Applies(repository) && (keepLast > index || (maxAge > 0 && createdAt > now - maxAge))
    }
  }

  datatype QuotaValue = QuotaValue(limit: int, used: int, reserved: int, version: int)

  /** Nothing negative, and never more than the limit. */
  ghost predicate QuotaOk(q: QuotaValue) {
    0 <= q.used && 0 <= q.reserved && q.used + q.reserved <= q.limit
  }

  function Remaining(q: QuotaValue): int { q.limit - q.used - q.reserved }

  function Reserved(q: QuotaValue, n: int): Result<QuotaValue> {
    if n < 0 then Failure(Validation("reservation"))
    else if n > Remaining(q) then Failure(QuotaExceeded)
    else Success(q.(reserved := q.reserved + n, version := q.version + 1))
  }

  function Committed(q: QuotaValue, reserved: int, actual: int): Result<QuotaValue> {
    if reserved < 0 || actual < 0 || reserved > q.reserved then Failure(QuotaExceeded)
    else Success(q.(reserved := q.reserved - reserved, used := q.used + actual, version := q.version + 1))
  }

  function Released(q: QuotaValue, n: int): Result<QuotaValue> {
    if n < 0 || n > q.reserved then Failure(QuotaExceeded)
    else Success(q.(reserved := q.reserved - n, version := q.version + 1))
  }

  class Quota {
    const tenant: string
    const limit: int
    var used: int
    var reserved: int
    var version: int

    constructor (tenant: string, v: QuotaValue)
      ensures Value() == v && this.tenant == tenant
    {
      this.tenant := tenant;
      limit, used, reserved, version := v.limit, v.used, v.reserved, v.version;
    }

    function Value(): QuotaValue
      reads this
    {
      QuotaValue(limit, used, reserved, version)
    }

    method Reserve(n: int) returns (o: Outcome)
      modifies this
      ensures match Reserved(old(Value()), n)
              case Success(v) => o.Pass? && Value() == v
              case Failure(e) => o == Fail(e) && Value() == old(Value())
    {
      if n < 0 { return Fail(Validation("reservation")); }
      if n > limit - used - reserved { return Fail(QuotaExceeded); }
      reserved := reserved + n;
      version := version + 1;
      return Pass;
    }

    method Commit(amount: int, actual: int) returns (o: Outcome)
      modifies this
      ensures match Committed(old(Value()), amount, actual)
              case Success(v) => o.Pass? && Value() == v
              case Failure(e) => o == Fail(e) && Value() == old(Value())
    {
      if amount < 0 || actual < 0 || amount > reserved { return Fail(QuotaExceeded); }
      reserved := reserved - amount;
      used := used + actual;
      version := version + 1;
      return Pass;
    }

    method Release(n: int) returns (o: Outcome)
      modifies this
      ensures match Released(old(Value()), n)
              case Success(v) => o.Pass? && Value() == v
              case Failure(e) => o == Fail(e) && Value() == old(Value())
    {
      if n < 0 || n > reserved { return Fail(QuotaExceeded); }
      reserved := reserved - n;
      version := version + 1;
      return Pass;
    }
  }

  /** Bytes are reserved exactly when they are not negative and fit beside the used and the reserved ones. What is given
      back or used up must be reserved. Each call moves just these bytes, and raises the version. */
  lemma QuotaAnswers(q: QuotaValue, n: int, actual: int)
    ensures Reserved(q, n).Success? <==> 0 <= n && q.used + q.reserved + n <= q.limit
    ensures Reserved(q, n).Failure? ==>
        Reserved(q, n).error == if n < 0 then Validation("reservation") else QuotaExceeded
    ensures Reserved(q, n).Success? ==>
        Reserved(q, n).value == QuotaValue(q.limit, q.used, q.reserved + n, q.version + 1)
    ensures Released(q, n).Success? <==> 0 <= n <= q.reserved
    ensures Released(q, n).Failure? ==> Released(q, n).error == QuotaExceeded
    ensures Released(q, n).Success? ==>
        Released(q, n).value == QuotaValue(q.limit, q.used, q.reserved - n, q.version + 1)
    ensures Committed(q, n, actual).Success? <==> 0 <= n <= q.reserved && 0 <= actual
    ensures Committed(q, n, actual).Failure? ==> Committed(q, n, actual).error == QuotaExceeded
    ensures Committed(q, n, actual).Success? ==>
        Committed(q, n, actual).value == QuotaValue(q.limit, q.used + actual, q.reserved - n, q.version + 1)
  {
  }

  /** Reserving, releasing, and committing no more than was reserved stay within the limit. */
  lemma QuotaCallsKeepBound(q: QuotaValue, n: int, actual: int)
    requires QuotaOk(q)
    ensures Reserved(q, n).Success? ==> QuotaOk(Reserved(q, n).value)
    ensures Released(q, n).Success? ==> QuotaOk(Released(q, n).value)
    ensures Committed(q, n, actual).Success? ==>
        (QuotaOk(Committed(q, n, actual).value) <==> actual - n <= Remaining(q))
  {
  }
}
