/**
 * The CRM adapter's decisions: the phone search over the client list the
 * CRM returned, the reuse-or-create branch of client creation, the field
 * mapping of a new client and the bonus request. The HTTP exchanges are
 * not modelled; their outcomes are inputs.
 */
module Poster {
  import opened Wrappers
  import opened Domain
  import opened Decimal

  /** The bonus every registration grants. */
  const BonusCount: int := 1000
  /** The client group new clients are put in. */
  const ClientGroup: int := 2

  /** The CRM's client record, as sent by `clients.createClient`. */
  datatype PosterClient = PosterClient(clientName: string, clientSex: int, clientGroupsId: int, phone: string, birthday: string)

  /** The body sent by `clients.changeClientBonus`. */
  datatype BonusUpdateRequest = BonusUpdateRequest(clientId: int, count: int)

  /** One entry of the decoded `clients.getClients` answer; the CRM sends the id as text. */
  datatype ClientEntry = ClientEntry(clientId: string, phone: string)

  datatype PosterError =
    | TransportFailed         // the request, or reading or decoding its answer, failed
    | BadClientId(text: string) // a matching entry's id is not a decimal integer
    | LookupFailed(cause: PosterError) // the phone search before a create failed

  /** The entry at k is the first whose phone is exactly `phone`. */
  predicate FirstPhoneMatch(entries: seq<ClientEntry>, phone: string, k: nat) {
    k < |entries| && entries[k].phone == phone && forall j :: 0 <= j < k ==> entries[j].phone != phone
  }

  /**
   * The answer of the phone search: the id of the first entry with exactly
   * that phone (`strconv.Atoi` of its text), or 0 when no entry has it.
   */
  function Lookup(entries: seq<ClientEntry>, phone: string): (r: Result<int, PosterError>)
    ensures (forall j :: 0 <= j < |entries| ==> entries[j].phone != phone) ==> r == Ok(0)
    ensures r.Err? ==>
      exists k: nat :: FirstPhoneMatch(entries, phone, k) && ParseInt64(entries[k].clientId).None? && r.error == BadClientId(entries[k].clientId)
    ensures r.Ok? && r.value != 0 ==>
      exists k: nat :: FirstPhoneMatch(entries, phone, k) && ParseInt64(entries[k].clientId) == Some(r.value)
  {
    match FirstWhere(entries, (e: ClientEntry) => e.phone == phone)
    case None => Ok(0)
    case Some(k) =>
      match ParseInt64(entries[k].clientId)
      case None => Err(BadClientId(entries[k].clientId))
      case Some(id) => Ok(id)
  }

  /** `findClientByPhone`, over the outcome `fetched` of fetching and decoding the client list. */
  method FindClientByPhone(fetched: Result<seq<ClientEntry>, PosterError>, phone: string)
    returns (r: Result<int, PosterError>)
    ensures fetched.Err? ==> r == Err(fetched.error)
    ensures fetched.Ok? ==> r == Lookup(fetched.value, phone)
  {
    if fetched.Err? {
      return Err(fetched.error);
    }
    var entries := fetched.value;
    var i := 0;
    while i < |entries|
      invariant 0 <= i <= |entries|
      invariant forall j :: 0 <= j < i ==> entries[j].phone != phone
    {
      if entries[i].phone == phone {
        var k := FirstWhere(entries, (e: ClientEntry) => e.phone == phone);
        assert k == Some(i);
        var id := ParseInt64(entries[i].clientId);
        if id.None? {
          return Err(BadClientId(entries[i].clientId));
        }
        return Ok(id.value);
      }
      i := i + 1;
    }
    return Ok(0);
  }

  /** No entry with the phone: the search answers 0. */
  lemma LookupMissing(entries: seq<ClientEntry>, phone: string)
    requires forall j :: 0 <= j < |entries| ==> entries[j].phone != phone
    ensures Lookup(entries, phone) == Ok(0)
  {
  }

  /**
   * The entry at k is the first with the phone: the search answers its
   * parsed id, or BadClientId when its id is not an integer; later entries
   * with the same phone play no part.
   */
  lemma LookupFirstMatch(entries: seq<ClientEntry>, phone: string, k: nat)
    requires FirstPhoneMatch(entries, phone, k)
    ensures ParseInt64(entries[k].clientId).None? ==> Lookup(entries, phone) == Err(BadClientId(entries[k].clientId))
    ensures ParseInt64(entries[k].clientId).Some? ==> Lookup(entries, phone) == Ok(ParseInt64(entries[k].clientId).value)
  {
  }

  /** `toPosterClient`: the domain client's fields, in group 2. */
  function ToPosterClient(c: Client): (p: PosterClient)
    ensures p.clientGroupsId == ClientGroup
    ensures p.clientName == c.name && p.clientSex == c.sex && p.phone == c.phone && p.birthday == c.birthday
  {
    PosterClient(c.name, c.sex, ClientGroup, c.phone, c.birthday)
  }

  /**
   * `CreateClient`: search by phone first; reuse a non-zero id; otherwise
   * send the mapped client, whose outcome `created` is the answer. The
   * second result is the create request sent, if any.
   */
  method CreateClient(c: Client, fetched: Result<seq<ClientEntry>, PosterError>, created: Result<int, PosterError>)
    returns (r: Result<int, PosterError>, request: Option<PosterClient>)
    ensures fetched.Err? ==> r == Err(LookupFailed(fetched.error)) && request == None
    ensures fetched.Ok? ==>
      var found := Lookup(fetched.value, c.phone);
      && (found.Err? ==> r == Err(LookupFailed(found.error)) && request == None)
      && (found.Ok? && found.value != 0 ==> r == found && request == None)
      && (found.Ok? && found.value == 0 ==> r == created && request == Some(ToPosterClient(c)))
    ensures request.Some? ==> request.value.phone == c.phone && request.value.clientGroupsId == ClientGroup
  {
    var existing := FindClientByPhone(fetched, c.phone);
    if existing.Err? {
      return Err(LookupFailed(existing.error)), None;
    }
    if existing.value != 0 {
      return existing, None;
    }
    return created, Some(ToPosterClient(c));
  }

  /** A matching entry whose id reads as 0 counts as no match: the client is created anew. */
  lemma ZeroIdCountsAsMissing(entries: seq<ClientEntry>, phone: string, k: nat)
    requires FirstPhoneMatch(entries, phone, k)
    requires ParseInt64(entries[k].clientId) == Some(0)
    ensures Lookup(entries, phone) == Lookup([], phone)
  {
    LookupFirstMatch(entries, phone, k);
  }

  /** The request `ChangeClientBonus` sends, and its outcome. */
  datatype BonusCall = BonusCall(request: BonusUpdateRequest, result: Outcome<PosterError>)

  /**
   * `ChangeClientBonus(clientId)`: `sent` is the outcome of the POST and
   * `body` that of reading the answer; the answer's content is not looked at.
   */
  function ChangeClientBonus(clientId: int, sent: Outcome<PosterError>, body: Result<string, PosterError>): (b: BonusCall)
    ensures b.request == BonusUpdateRequest(clientId, BonusCount)
    ensures b.result.Pass? <==> sent.Pass? && body.Ok?
    ensures sent.Fail? ==> b.result == Fail(sent.error)
    ensures sent.Pass? && body.Err? ==> b.result == Fail(body.error)
  {
    var request := BonusUpdateRequest(clientId, BonusCount);
    if sent.Fail? then BonusCall(request, Fail(sent.error))
    else if body.Err? then BonusCall(request, Fail(body.error))
    else BonusCall(request, Pass)
  }

  /** Whatever the CRM answers, a read answer means success. */
  lemma BonusIgnoresAnswer(clientId: int, a1: string, a2: string)
    ensures ChangeClientBonus(clientId, Pass, Ok(a1)) == ChangeClientBonus(clientId, Pass, Ok(a2))
    ensures ChangeClientBonus(clientId, Pass, Ok(a1)).result == Pass
  {
  }
}
