/**
 * The token store: the `registrations` and `token_usage` tables of the
 * SQLite database, held in memory in insertion order.
 *
 * Every SQL statement that can fail takes a fault flag, so that the
 * behaviour on failure is part of what is proved. No uniqueness or foreign-key
 * constraint is assumed: the schema is not part of this model.
 */
module TokenStore {
  import opened Wrappers
  import opened Domain

  datatype DbError =
    | BeginFailed
    | UpdateFailed
    | InsertFailed
    | CommitFailed
    | QueryFailed
    | ScanFailed
    | NoRows          // sql.ErrNoRows from a single-row query

  /** Which statements of the MarkTokenUsed transaction fail. */
  datatype TxFaults = TxFaults(beginFails: bool, updateFails: bool, insertFails: bool, commitFails: bool) {
    predicate Clean() {
      !beginFails && !updateFails && !insertFails && !commitFails
    }
  }

  /**
   * How a list query goes wrong: the query itself fails, the Scan of the
   * k-th result row fails, or the cursor stops (rows.Next() returns false)
   * after k rows.
   */
  datatype QueryFaults = QueryFaults(queryFails: bool, scanFailsAt: Option<nat>, cursorEndsAt: Option<nat>)

  /** `SELECT … FROM registrations WHERE token = ?`: the first row with that token. */
  function FindRegistration(regs: seq<Registration>, token: string): (r: Option<Registration>)
    ensures r.None? <==> forall i :: 0 <= i < |regs| ==> regs[i].token != token
    ensures r.Some? ==>
      exists k :: 0 <= k < |regs| && regs[k] == r.value && regs[k].token == token && (forall j :: 0 <= j < k ==> regs[j].token != token)
  {
    match FirstWhere(regs, (r: Registration) => r.token == token)
    case None => None
    case Some(k) => Some(regs[k])
  }

  /** `SELECT … FROM token_usage WHERE token = ?`: the first usage row with that token. */
  function FindUsage(usages: seq<TokenUsage>, token: string): (r: Option<TokenUsage>)
    ensures r.None? <==> forall i :: 0 <= i < |usages| ==> usages[i].token != token
    ensures r.Some? ==>
      exists k :: 0 <= k < |usages| && usages[k] == r.value && usages[k].token == token && (forall j :: 0 <= j < k ==> usages[j].token != token)
  {
    match FirstWhere(usages, (u: TokenUsage) => u.token == token)
    case None => None
    case Some(k) => Some(usages[k])
  }

  /** `SELECT … FROM registrations WHERE used = ?`: the matching rows in table order. */
  function Select(regs: seq<Registration>, used: bool): (r: seq<Registration>)
    ensures |r| <= |regs|
    ensures forall x :: x in r ==> x in regs && x.used == used
    ensures forall i :: 0 <= i < |regs| && regs[i].used == used ==> regs[i] in r
    decreases |regs|
  {
    if |regs| == 0 then []
    else if regs[0].used == used then [regs[0]] + Select(regs[1..], used)
    else Select(regs[1..], used)
  }

  /** `UPDATE registrations SET used = TRUE WHERE token = ?` */
  function MarkUsed(regs: seq<Registration>, token: string): (r: seq<Registration>)
    ensures |r| == |regs|
    ensures forall i :: 0 <= i < |r| ==> r[i].id == regs[i].id && r[i].token == regs[i].token
    ensures forall i :: 0 <= i < |r| && regs[i].token == token ==> r[i].used
    ensures forall i :: 0 <= i < |r| && regs[i].token != token ==> r[i] == regs[i]
  {
    seq(|regs|, i requires 0 <= i < |regs| =>
      if regs[i].token == token then regs[i].(used := true) else regs[i])
  }

  /**
   * The registrations table only grows, no row changes its id or token, and
   * no `used` flag goes back from true to false.
   */
  ghost predicate FlagsMonotone(before: seq<Registration>, after: seq<Registration>) {
    && |before| <= |after|
    && forall i :: 0 <= i < |before| ==>
         && after[i].id == before[i].id
         && after[i].token == before[i].token
         && (before[i].used ==> after[i].used)
  }

  lemma FlagsMonotoneTransitive(a: seq<Registration>, b: seq<Registration>, c: seq<Registration>)
    requires FlagsMonotone(a, b) && FlagsMonotone(b, c)
    ensures FlagsMonotone(a, c)
  {
  }

  /** The used and the unused rows together are the whole table, each row exactly once. */
  lemma {:induction false} SelectPartitions(regs: seq<Registration>)
    ensures multiset(Select(regs, true)) + multiset(Select(regs, false)) == multiset(regs)
    decreases |regs|
  {
    if |regs| > 0 {
      SelectPartitions(regs[1..]);
      assert regs == [regs[0]] + regs[1..];
    }
  }

  /** No row is listed both as used and as unused. */
  lemma SelectDisjoint(regs: seq<Registration>)
    ensures forall x :: x in Select(regs, true) ==> x !in Select(regs, false)
  {
  }

  /** Marking twice is marking once. */
  lemma MarkUsedIdempotent(regs: seq<Registration>, token: string)
    ensures MarkUsed(MarkUsed(regs, token), token) == MarkUsed(regs, token)
  {
  }

  /** After a token is marked, the registration lookup never finds it unused. */
  lemma {:induction false} MarkedTokenNotUnused(regs: seq<Registration>, token: string)
    ensures match FindRegistration(MarkUsed(regs, token), token)
      case None => true
      case Some(r) => r.used
  {
    var marked := MarkUsed(regs, token);
    var k := FirstWhere(marked, (r: Registration) => r.token == token);
    if k.Some? {
      assert marked[k.value].token == token;
      assert regs[k.value].token == token;
    }
  }

  /** A token that was not in the table is found, unused, right after it is created. */
  lemma {:induction false} CreatedTokenFound(regs: seq<Registration>, token: string, id: int)
    requires FindRegistration(regs, token).None?
    ensures FindRegistration(regs + [Registration(id, token, false)], token) == Some(Registration(id, token, false))
  {
    var r := regs + [Registration(id, token, false)];
    var p := (x: Registration) => x.token == token;
    assert forall j :: 0 <= j < |regs| ==> !p(regs[j]);
    assert forall j :: 0 <= j < |regs| ==> r[j] == regs[j];
    assert p(r[|regs|]);
    var k := FirstWhere(r, p);
    assert k == Some(|regs|);
  }

  /** A row appended for a token that already has a row does not change what the lookup finds. */
  lemma FindRegistrationKeepsFirst(regs: seq<Registration>, r: Registration)
    requires FindRegistration(regs, r.token).Some?
    ensures FindRegistration(regs + [r], r.token) == FindRegistration(regs, r.token)
  {
    var p := (x: Registration) => x.token == r.token;
    FirstWhereAppend(regs, r, p);
    var k := FirstWhere(regs, p).value;
    assert (regs + [r])[k] == regs[k];
  }

  /**
   * The usage lookup returns the oldest usage row of a token: once a token has
   * a usage row, a later usage row for it is never returned.
   */
  lemma {:induction false} UsageLookupKeepsFirst(usages: seq<TokenUsage>, u: TokenUsage)
    requires FindUsage(usages, u.token).Some?
    ensures FindUsage(usages + [u], u.token) == FindUsage(usages, u.token)
  {
    var p := (x: TokenUsage) => x.token == u.token;
    var k := FirstWhere(usages, p).value;
    var all := usages + [u];
    assert forall j :: 0 <= j < |usages| ==> all[j] == usages[j];
    var k' := FirstWhere(all, p);
    assert k'.Some? && k'.value <= k;
    assert k'.value == k;
  }

  /** A token's first usage row is the one its first consumption added. */
  lemma {:induction false} UsageLookupFindsNew(usages: seq<TokenUsage>, u: TokenUsage)
    requires FindUsage(usages, u.token).None?
    ensures FindUsage(usages + [u], u.token) == Some(u)
  {
    var p := (x: TokenUsage) => x.token == u.token;
    var all := usages + [u];
    assert forall j :: 0 <= j < |usages| ==> all[j] == usages[j];
    assert p(all[|usages|]);
    assert FirstWhere(all, p) == Some(|usages|);
  }

  /** How many usage rows record the token. */
  function UsageCount(usages: seq<TokenUsage>, token: string): nat
    decreases |usages|
  {
    if |usages| == 0 then 0
    else (if usages[0].token == token then 1 else 0) + UsageCount(usages[1..], token)
  }

  /** Every consumption adds a usage row, so nothing bounds a token's usage rows to one. */
  lemma {:induction false} UsageCountGrows(usages: seq<TokenUsage>, u: TokenUsage)
    ensures UsageCount(usages + [u], u.token) == UsageCount(usages, u.token) + 1
    decreases |usages|
  {
    if |usages| > 0 {
      UsageCountGrows(usages[1..], u);
      assert (usages + [u])[1..] == usages[1..] + [u];
    }
  }

  /** The Go loop over a result cursor: Scan each row and append it, until the cursor ends. */
  method CollectRows(rows: seq<Registration>, faults: QueryFaults) returns (r: Result<seq<Registration>, DbError>)
    ensures var n := Delivered(|rows|, faults.cursorEndsAt);
      && (faults.scanFailsAt.Some? && faults.scanFailsAt.value < n ==> r == Err(ScanFailed))
      && (!(faults.scanFailsAt.Some? && faults.scanFailsAt.value < n) ==> r == Ok(rows[..n]))
  {
    var n := Delivered(|rows|, faults.cursorEndsAt);
    var tokens: seq<Registration> := [];
    var i := 0;
    while i < n
      invariant 0 <= i <= n
      invariant tokens == rows[..i]
      invariant forall k :: 0 <= k < i ==> faults.scanFailsAt != Some(k)
    {
      if faults.scanFailsAt == Some(i) {
        return Err(ScanFailed);
      }
      tokens := tokens + [rows[i]];
      i := i + 1;
    }
    return Ok(tokens);
  }

  /** The number of rows a cursor over `count` rows yields before it ends. */
  function Delivered(count: nat, endsAt: Option<nat>): (n: nat)
    ensures n <= count
  {
    match endsAt
    case Some(k) => if k < count then k else count
    case None => count
  }

  class SqliteRepository {
    var registrations: seq<Registration>
    var usages: seq<TokenUsage>

    /** Row ids are 1, 2, 3, … in insertion order, as SQLite assigns them to a table nothing is deleted from. */
    ghost predicate Valid()
      reads this
    {
      && (forall i :: 0 <= i < |registrations| ==> registrations[i].id == i + 1)
      && (forall i :: 0 <= i < |usages| ==> usages[i].id == i + 1)
    }

    /** Row ids identify rows: no two rows of a table share an id. */
    lemma IdsDistinct()
      requires Valid()
      ensures forall i, j :: 0 <= i < j < |registrations| ==> registrations[i].id != registrations[j].id
      ensures forall i, j :: 0 <= i < j < |usages| ==> usages[i].id != usages[j].id
    {
    }

    /** The next row id of a table is above every id it holds, so a new row never reuses one. */
    lemma NextIdFresh()
      requires Valid()
      ensures forall i :: 0 <= i < |registrations| ==> registrations[i].id < |registrations| + 1
      ensures forall i :: 0 <= i < |usages| ==> usages[i].id < |usages| + 1
    {
    }

    /** A freshly migrated, empty database. */
    constructor ()
      ensures Valid() && registrations == [] && usages == []
    {
      registrations := [];
      usages := [];
    }

    /** `INSERT INTO registrations (token) VALUES (?)`, which fails when `insertFails`. */
    method Create(token: string, insertFails: bool) returns (err: Outcome<DbError>)
      requires Valid()
      modifies this
      ensures Valid()
      ensures usages == old(usages)
      ensures FlagsMonotone(old(registrations), registrations)
      ensures insertFails ==> err == Fail(InsertFailed) && registrations == old(registrations)
      ensures !insertFails ==>
        && err == Pass
        && registrations == old(registrations) + [Registration(|old(registrations)| + 1, token, false)]
    {
      if insertFails {
        return Fail(InsertFailed);
      }
      registrations := registrations + [Registration(|registrations| + 1, token, false)];
      return Pass;
    }

    /** The first registration with the token; NoRows when there is none. */
    method GetByToken(token: string, queryFails: bool) returns (r: Result<Registration, DbError>)
      ensures queryFails ==> r == Err(QueryFailed)
      ensures !queryFails && FindRegistration(registrations, token).None? ==> r == Err(NoRows)
      ensures r.Ok? ==> r.value in registrations && r.value.token == token
      ensures !queryFails && FindRegistration(registrations, token).Some? ==>
        r == Ok(FindRegistration(registrations, token).value)
    {
      if queryFails {
        return Err(QueryFailed);
      }
      var found := FindRegistration(registrations, token);
      match found
      case None => return Err(NoRows);
      case Some(reg) => return Ok(reg);
    }

    /**
     * The consumption transaction: set `used` on every registration with the
     * token, then append the usage row, then commit. The token is not checked
     * to exist or to be unused. A failure at any step rolls back, and neither
     * table changes.
     */
    method MarkTokenUsed(token: string, name: string, phone: string, faults: TxFaults) returns (err: Outcome<DbError>)
      requires Valid()
      modifies this
      ensures Valid()
      ensures FlagsMonotone(old(registrations), registrations)
      ensures err.Pass? <==> faults.Clean()
      ensures err.Fail? ==> registrations == old(registrations) && usages == old(usages)
      ensures err.Pass? ==>
        && registrations == MarkUsed(old(registrations), token)
        && usages == old(usages) + [TokenUsage(|old(usages)| + 1, token, name, phone)]
    {
      if faults.beginFails {
        return Fail(BeginFailed);
      }
      // The transaction works on its own copy of both tables until it commits.
      var txRegistrations := registrations;
      var txUsages := usages;
      if faults.updateFails {
        return Fail(UpdateFailed);
      }
      txRegistrations := MarkUsed(txRegistrations, token);
      if faults.insertFails {
        return Fail(InsertFailed);
      }
      txUsages := txUsages + [TokenUsage(|txUsages| + 1, token, name, phone)];
      if faults.commitFails {
        return Fail(CommitFailed);
      }
      registrations, usages := txRegistrations, txUsages;
      return Pass;
    }

    /** The first usage row of the token; NoRows when the token was never consumed. */
    method GetTokenUsage(token: string, queryFails: bool) returns (r: Result<TokenUsage, DbError>)
      ensures queryFails ==> r == Err(QueryFailed)
      ensures !queryFails && FindUsage(usages, token).None? ==> r == Err(NoRows)
      ensures r.Ok? ==> r.value in usages && r.value.token == token
      ensures !queryFails && FindUsage(usages, token).Some? ==> r == Ok(FindUsage(usages, token).value)
    {
      if queryFails {
        return Err(QueryFailed);
      }
      var found := FindUsage(usages, token);
      match found
      case None => return Err(NoRows);
      case Some(u) => return Ok(u);
    }

    /**
     * The used registrations in table order. The cursor's own error is
     * never consulted, so a cursor that ends early yields a shorter list and
     * no error.
     */
    method GetUsedTokens(faults: QueryFaults) returns (r: Result<seq<Registration>, DbError>)
      ensures r == ListQuery(registrations, true, faults)
    {
      if faults.queryFails {
        return Err(QueryFailed);
      }
      r := CollectRows(Select(registrations, true), faults);
    }

    /** The unused registrations in table order, with the same fault behaviour as GetUsedTokens. */
    method GetUnusedTokens(faults: QueryFaults) returns (r: Result<seq<Registration>, DbError>)
      ensures r == ListQuery(registrations, false, faults)
    {
      if faults.queryFails {
        return Err(QueryFailed);
      }
      r := CollectRows(Select(registrations, false), faults);
    }
  }

  /** What a list query over the registrations returns. */
  function ListQuery(regs: seq<Registration>, used: bool, faults: QueryFaults): (r: Result<seq<Registration>, DbError>)
    ensures faults.queryFails ==> r == Err(QueryFailed)
    ensures r.Ok? ==> forall x :: x in r.value ==> x in regs && x.used == used
    ensures r.Ok? && faults.cursorEndsAt.None? ==> r.value == Select(regs, used)
  {
    if faults.queryFails then Err(QueryFailed)
    else
      var rows := Select(regs, used);
      var n := Delivered(|rows|, faults.cursorEndsAt);
      if faults.scanFailsAt.Some? && faults.scanFailsAt.value < n then Err(ScanFailed)
      else Ok(rows[..n])
  }

  /**
   * When neither query meets a fault, the used and the unused lists together
   * hold every registration exactly once.
   */
  lemma ListsPartition(regs: seq<Registration>, faults: QueryFaults)
    requires !faults.queryFails && faults.scanFailsAt.None? && faults.cursorEndsAt.None?
    ensures ListQuery(regs, true, faults).Ok? && ListQuery(regs, false, faults).Ok?
    ensures multiset(ListQuery(regs, true, faults).value) + multiset(ListQuery(regs, false, faults).value)
      == multiset(regs)
  {
    SelectPartitions(regs);
    assert Select(regs, true)[..|Select(regs, true)|] == Select(regs, true);
    assert Select(regs, false)[..|Select(regs, false)|] == Select(regs, false);
  }
}
