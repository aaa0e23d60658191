/**
 * The registration service: link issuance, validate-then-decode, and the
 * three-step registration of a member, over the token store and the token
 * codec.
 *
 * The CRM is an abstract collaborator. Its answers are inputs of the methods
 * that call it, and the calls made to it are recorded in `crmCalls`, so that
 * what was called, in which order, and with what, can be stated. The clock
 * reading that becomes a fresh token and the random bytes of the nonce are
 * inputs too.
 */
module RegistrationService {
  import opened Wrappers
  import opened Domain
  import opened Decimal
  import opened Base64Url
  import opened TokenCodec
  import opened TokenStore

  /** A failure reported by the CRM collaborator. */
  datatype CrmError = CrmError(detail: string)

  /** A request made to the CRM collaborator. */
  datatype CrmCall = CreateClientCall(client: Client) | ChangeClientBonusCall(clientId: int)

  datatype ServiceError =
    | StoreError(db: DbError)
    | CodecFailure(codec: CodecError)
    | InvalidToken(cause: CodecError)
    | InvalidOrUsedToken
    | CreateClientFailed(crm: CrmError)
    | ChangeBonusFailed(crm: CrmError)
    | MarkTokenUsedFailed(db: DbError)

  /** What ValidateAndDecode answers for a given table. */
  function Validation(regs: seq<Registration>, g: Aead, encrypted: string, lookupFails: bool): (r: Result<string, ServiceError>)
    ensures r.Ok? ==> DecryptToken(g, encrypted) == Ok(r.value)
    ensures r.Ok? <==>
      && DecryptToken(g, encrypted).Ok?
      && !lookupFails
      && FindRegistration(regs, DecryptToken(g, encrypted).value).Some?
      && !FindRegistration(regs, DecryptToken(g, encrypted).value).value.used
    ensures DecryptToken(g, encrypted).Err? ==> r == Err(InvalidToken(DecryptToken(g, encrypted).error))
    ensures DecryptToken(g, encrypted).Ok? && r.Err? ==> r == Err(InvalidOrUsedToken)
  {
    match DecryptToken(g, encrypted)
    case Err(e) => Err(InvalidToken(e))
    case Ok(token) =>
      if lookupFails then Err(InvalidOrUsedToken)
      else
        match FindRegistration(regs, token)
        case None => Err(InvalidOrUsedToken)
        case Some(reg) => if reg.used then Err(InvalidOrUsedToken) else Ok(token)
  }

  /**
   * A newly issued link validates and yields its token, unless the table
   * already held that token with its first row used (a clock collision with
   * a consumed token).
   */
  lemma IssuedLinkValidates(regs: seq<Registration>, g: Aead, random: seq<byte>, clockNanos: int)
    requires OpenInvertsSeal(g)
    requires |random| >= NonceSize
    requires var found := FindRegistration(regs, FormatInt(clockNanos)); found.None? || !found.value.used
    ensures var token := FormatInt(clockNanos);
      Validation(regs + [Registration(|regs| + 1, token, false)], g, EncryptToken(g, random, token).value, false)
        == Ok(token)
  {
    var token := FormatInt(clockNanos);
    DecryptEncrypt(g, random, token);
    if FindRegistration(regs, token).None? {
      CreatedTokenFound(regs, token, |regs| + 1);
    } else {
      FindRegistrationKeepsFirst(regs, Registration(|regs| + 1, token, false));
    }
  }

  /**
   * Only the first row with the token decides: a used first row rejects the
   * token even when a later duplicate row is unused.
   */
  lemma FirstRowDecides(regs: seq<Registration>, g: Aead, encrypted: string, token: string, k: nat)
    requires DecryptToken(g, encrypted) == Ok(token)
    requires k < |regs| && regs[k].token == token && regs[k].used
    requires forall j :: 0 <= j < k ==> regs[j].token != token
    ensures forall lookupFails :: Validation(regs, g, encrypted, lookupFails) == Err(InvalidOrUsedToken)
  {
  }

  /** Once a token is consumed, no encrypted form of it validates again. */
  lemma ConsumedTokenRejected(regs: seq<Registration>, g: Aead, encrypted: string, token: string, lookupFails: bool)
    requires DecryptToken(g, encrypted) == Ok(token)
    ensures Validation(MarkUsed(regs, token), g, encrypted, lookupFails) == Err(InvalidOrUsedToken)
  {
    MarkedTokenNotUnused(regs, token);
  }

  class Service {
    const repo: SqliteRepository
    var crmCalls: seq<CrmCall>

    constructor (repo: SqliteRepository)
      ensures this.repo == repo && crmCalls == []
    {
      this.repo := repo;
      crmCalls := [];
    }

    /**
     * The plaintext token is the decimal clock reading in nanoseconds. It is
     * stored first and encrypted afterwards: a failed insert returns before
     * any encryption, and a failed encryption leaves the stored token behind.
     */
    method GenerateUniqueLink(baseUrl: string, clockNanos: int, createFails: bool, g: Aead, random: seq<byte>)
      returns (r: Result<string, ServiceError>)
      requires repo.Valid()
      modifies repo
      ensures repo.Valid() && repo.usages == old(repo.usages)
      ensures FlagsMonotone(old(repo.registrations), repo.registrations)
      ensures createFails ==>
        r == Err(StoreError(InsertFailed)) && repo.registrations == old(repo.registrations)
      ensures !createFails ==>
        repo.registrations == old(repo.registrations) + [Registration(|old(repo.registrations)| + 1, FormatInt(clockNanos), false)]
      ensures !createFails && |random| < NonceSize ==> r == Err(CodecFailure(RandomUnavailable))
      ensures !createFails && |random| >= NonceSize ==>
        r == Ok(baseUrl + EncryptToken(g, random, FormatInt(clockNanos)).value)
      ensures r.Ok? && OpenInvertsSeal(g) ==>
        r.value[..|baseUrl|] == baseUrl && DecryptToken(g, r.value[|baseUrl|..]) == Ok(FormatInt(clockNanos))
    {
      var token := FormatInt(clockNanos);
      var err := repo.Create(token, createFails);
      if err.Fail? {
        return Err(StoreError(err.error));
      }
      var encrypted := EncryptToken(g, random, token);
      if encrypted.Err? {
        return Err(CodecFailure(encrypted.error));
      }
      r := Ok(baseUrl + encrypted.value);
      if OpenInvertsSeal(g) {
        DecryptEncrypt(g, random, token);
        assert r.value[|baseUrl|..] == encrypted.value;
      }
    }

    /**
     * Decrypt, then look the token up. A decryption failure is "invalid
     * token"; a token that is missing, used, or whose lookup fails is
     * "invalid or used token". The store is only read.
     */
    method ValidateAndDecode(encrypted: string, g: Aead, lookupFails: bool) returns (r: Result<string, ServiceError>)
      ensures r == Validation(repo.registrations, g, encrypted, lookupFails)
    {
      var decoded := DecryptToken(g, encrypted);
      if decoded.Err? {
        return Err(InvalidToken(decoded.error));
      }
      var reg := repo.GetByToken(decoded.value, lookupFails);
      if reg.Err? || reg.value.used {
        return Err(InvalidOrUsedToken);
      }
      return Ok(decoded.value);
    }

    /** Consume the token on behalf of the client: only the name and phone are recorded. */
    method MarkTokenUsed(token: string, client: Client, faults: TxFaults) returns (err: Outcome<DbError>)
      requires repo.Valid()
      modifies repo
      ensures repo.Valid()
      ensures err.Pass? <==> faults.Clean()
      ensures err.Fail? ==> repo.registrations == old(repo.registrations) && repo.usages == old(repo.usages)
      ensures err.Pass? ==>
        && repo.registrations == MarkUsed(old(repo.registrations), token)
        && repo.usages == old(repo.usages) + [TokenUsage(|old(repo.usages)| + 1, token, client.name, client.phone)]
    {
      err := repo.MarkTokenUsed(token, client.name, client.phone, faults);
    }

    /**
     * Create (or find) the client in the CRM, grant the bonus, consume the
     * token, stopping at the first failure. Nothing is undone on a later
     * failure, and the token is neither decrypted nor checked here.
     */
    method RegisterUser(token: string, name: string, phone: string, birthday: string,
                        created: Result<int, CrmError>, bonus: Outcome<CrmError>, faults: TxFaults)
      returns (r: Outcome<ServiceError>)
      requires repo.Valid()
      modifies this, repo
      ensures repo.Valid()
      ensures FlagsMonotone(old(repo.registrations), repo.registrations)
      ensures created.Err? ==>
        && crmCalls == old(crmCalls) + [CreateClientCall(Client(name, phone, birthday, 0))]
        && r == Fail(CreateClientFailed(created.error))
      ensures created.Ok? ==>
        crmCalls == old(crmCalls) + [CreateClientCall(Client(name, phone, birthday, 0)), ChangeClientBonusCall(created.value)]
      ensures created.Ok? && bonus.Fail? ==> r == Fail(ChangeBonusFailed(bonus.error))
      ensures created.Ok? && bonus.Pass? && !faults.Clean() ==> r.Fail? && r.error.MarkTokenUsedFailed?
      ensures r.Pass? <==> created.Ok? && bonus.Pass? && faults.Clean()
      ensures r.Fail? ==> repo.registrations == old(repo.registrations) && repo.usages == old(repo.usages)
      ensures r.Pass? ==>
        && repo.registrations == MarkUsed(old(repo.registrations), token)
        && repo.usages == old(repo.usages) + [TokenUsage(|old(repo.usages)| + 1, token, name, phone)]
    {
      var client := Client(name, phone, birthday, 0);
      crmCalls := crmCalls + [CreateClientCall(client)];
      if created.Err? {
        return Fail(CreateClientFailed(created.error));
      }
      crmCalls := crmCalls + [ChangeClientBonusCall(created.value)];
      if bonus.Fail? {
        return Fail(ChangeBonusFailed(bonus.error));
      }
      var err := MarkTokenUsed(token, client, faults);
      if err.Fail? {
        return Fail(MarkTokenUsedFailed(err.error));
      }
      return Pass;
    }

    /** The store's answer, passed through unchanged. */
    method GetTokenUsage(token: string, queryFails: bool) returns (r: Result<TokenUsage, DbError>)
      ensures queryFails ==> r == Err(QueryFailed)
      ensures !queryFails && FindUsage(repo.usages, token).None? ==> r == Err(NoRows)
      ensures !queryFails && FindUsage(repo.usages, token).Some? ==> r == Ok(FindUsage(repo.usages, token).value)
    {
      var usage := repo.GetTokenUsage(token, queryFails);
      if usage.Err? {
        return Err(usage.error);
      }
      return Ok(usage.value);
    }

    /** The store's answer, passed through unchanged. */
    method GetUsedTokens(faults: QueryFaults) returns (r: Result<seq<Registration>, DbError>)
      ensures r == ListQuery(repo.registrations, true, faults)
    {
      r := repo.GetUsedTokens(faults);
    }

    /** The store's answer, passed through unchanged. */
    method GetUnusedTokens(faults: QueryFaults) returns (r: Result<seq<Registration>, DbError>)
      ensures r == ListQuery(repo.registrations, false, faults)
    {
      r := repo.GetUnusedTokens(faults);
    }
  }
}
