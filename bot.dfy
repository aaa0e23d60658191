/**
 * The decisions of the administrators' chat bot: who counts as an
 * administrator, and which reply each command gets, given the service's
 * answer. Each result also says which service call the handler made.
 * Polling and sending messages are not part of this model.
 */
module Bot {
  import opened Wrappers
  import opened Domain

  const PermissionDenied: string := "У вас нет прав для использования этой команды."
  const LinkFailed: string := "Ошибка при создании ссылки"
  const LinkPrefix: string := "Ваша ссылка: "
  const EnterToken: string := "Введите токен для проверки:"
  const LookupFailed: string := "Ошибка при поиске данных или токен не найден."
  const UsedListFailed: string := "Ошибка при получении использованных токенов."
  const UnusedListFailed: string := "Ошибка при получении неиспользованных токенов."
  const NoUsedTokens: string := "Нет использованных токенов."
  const NoUnusedTokens: string := "Нет неиспользованных токенов."
  const UsageHead: string := "Данные по токену:\n👤 Имя: "
  const UsagePhone: string := "\n📞 Телефон: "
  const UsedHeader: string := "📌 *Список использованных токенов:*\n"
  const UnusedHeader: string := "📌 *Список неиспользованных токенов:*\n"
  const UsedBullet: string := "🔹"
  const UnusedBullet: string := "🟢"

  /** The bot's own state: the link prefix and the set of administrator ids. */
  datatype Bot = Bot(baseUrl: string, admins: set<int>)

  /** A message sent in reply; `markdown` when it is to be rendered as Markdown. */
  datatype Reply = Reply(text: string, markdown: bool)

  datatype ServiceCall = GenerateUniqueLink(baseUrl: string) | GetTokenUsage(token: string) | GetUsedTokens | GetUnusedTokens

  /** The reply sent (None: no reply at all) and the service call made (None: no call). */
  datatype Handled = Handled(reply: Option<Reply>, call: Option<ServiceCall>)

  /** `NewBot`: `connected` is the outcome of creating the chat client, which may fail. */
  method NewBot<E>(baseUrl: string, adminIds: seq<int>, connected: Outcome<E>) returns (r: Result<Bot, E>)
    ensures connected.Fail? ==> r == Err(connected.error)
    ensures connected.Pass? ==> r.Ok? && r.value.baseUrl == baseUrl
    ensures r.Ok? ==> forall id :: IsAdmin(r.value, id) <==> id in adminIds
  {
    if connected.Fail? {
      return Err(connected.error);
    }
    var admins: set<int> := {};
    var i := 0;
    while i < |adminIds|
      invariant 0 <= i <= |adminIds|
      invariant forall id :: id in admins <==> id in adminIds[..i]
    {
      admins := admins + {adminIds[i]};
      i := i + 1;
    }
    assert adminIds[..i] == adminIds;
    return Ok(Bot(baseUrl, admins));
  }

  predicate IsAdmin(b: Bot, id: int) {
    id in b.admins
  }

  function Denied(): Handled {
    Handled(Some(Reply(PermissionDenied, false)), None)
  }

  /** `/register`, with the answer `link` that GenerateUniqueLink gives when it is called. */
  function OnRegister<E>(b: Bot, sender: int, link: Result<string, E>): (h: Handled)
    ensures !IsAdmin(b, sender) ==> h == Denied()
    ensures IsAdmin(b, sender) ==> h.call == Some(GenerateUniqueLink(b.baseUrl))
    ensures IsAdmin(b, sender) && link.Err? ==> h.reply == Some(Reply(LinkFailed, false))
    ensures IsAdmin(b, sender) && link.Ok? ==> h.reply == Some(Reply(LinkPrefix + link.value, false))
  {
    if !IsAdmin(b, sender) then Denied()
    else
      match link
      case Err(_) => Handled(Some(Reply(LinkFailed, false)), Some(GenerateUniqueLink(b.baseUrl)))
      case Ok(l) => Handled(Some(Reply(LinkPrefix + l, false)), Some(GenerateUniqueLink(b.baseUrl)))
  }

  /** `/check_token`: a prompt for the token, no service call. */
  function OnCheckToken(b: Bot, sender: int): (h: Handled)
    ensures h.call == None
    ensures !IsAdmin(b, sender) ==> h == Denied()
    ensures IsAdmin(b, sender) ==> h.reply == Some(Reply(EnterToken, false))
  {
    if !IsAdmin(b, sender) then Denied() else Handled(Some(Reply(EnterToken, false)), None)
  }

  /** The reply to a token lookup: the heading and name line, then the phone line. */
  function UsageText(u: TokenUsage): string {
    UsageHead + u.username + UsagePhone + u.phone
  }

  /**
   * Plain text: from a non-administrator it is silently ignored; from an
   * administrator it is looked up as a token, with the answer `usage`.
   */
  function OnText<E>(b: Bot, sender: int, text: string, usage: Result<TokenUsage, E>): (h: Handled)
    ensures !IsAdmin(b, sender) ==> h == Handled(None, None)
    ensures IsAdmin(b, sender) ==> h.call == Some(GetTokenUsage(text))
    ensures IsAdmin(b, sender) && usage.Err? ==> h.reply == Some(Reply(LookupFailed, false))
    ensures IsAdmin(b, sender) && usage.Ok? ==>
      h.reply == Some(Reply(UsageHead + usage.value.username + UsagePhone + usage.value.phone, false))
  {
    if !IsAdmin(b, sender) then Handled(None, None)
    else
      match usage
      case Err(_) => Handled(Some(Reply(LookupFailed, false)), Some(GetTokenUsage(text)))
      case Ok(u) => Handled(Some(Reply(UsageText(u), false)), Some(GetTokenUsage(text)))
  }

  /** `strings.ReplaceAll(t, "`", "\\`")`: a backslash in front of every backtick. */
  function Escape(t: string): (e: string)
    ensures |e| >= |t|
    decreases |t|
  {
    if |t| == 0 then ""
    else (if t[0] == '`' then "\\`" else [t[0]]) + Escape(t[1..])
  }

  /** The inverse of Escape: drop the backslash of every backslash-backtick pair. */
  function Unescape(e: string): string
    decreases |e|
  {
    if |e| == 0 then ""
    else if |e| >= 2 && e[0] == '\\' && e[1] == '`' then "`" + Unescape(e[2..])
    else [e[0]] + Unescape(e[1..])
  }

  /** An escaped token never starts with a backtick. */
  lemma EscapeHead(t: string)
    ensures |Escape(t)| > 0 ==> Escape(t)[0] != '`'
  {
  }

  /** Escaping loses nothing: the token can be recovered from the escaped text. */
  lemma {:induction false} UnescapeEscape(t: string)
    ensures Unescape(Escape(t)) == t
    decreases |t|
  {
    if |t| > 0 {
      var rest := Escape(t[1..]);
      UnescapeEscape(t[1..]);
      EscapeHead(t[1..]);
      if t[0] == '`' {
        assert Escape(t) == "\\`" + rest;
        assert Escape(t)[2..] == rest;
      } else {
        assert Escape(t) == [t[0]] + rest;
        assert Escape(t)[1..] == rest;
      }
      assert t == [t[0]] + t[1..];
    }
  }

  /** Every backtick of an escaped token has a backslash in front of it. */
  lemma {:induction false} EscapedBackticksGuarded(t: string)
    ensures forall i :: 0 <= i < |Escape(t)| && Escape(t)[i] == '`' ==> i > 0 && Escape(t)[i - 1] == '\\'
    decreases |t|
  {
    if |t| > 0 {
      var head := if t[0] == '`' then "\\`" else [t[0]];
      var rest := Escape(t[1..]);
      EscapedBackticksGuarded(t[1..]);
      EscapeHead(t[1..]);
      assert Escape(t) == head + rest;
      forall i | 0 <= i < |Escape(t)| && Escape(t)[i] == '`'
        ensures i > 0 && Escape(t)[i - 1] == '\\'
      {
        if i >= |head| {
          assert Escape(t)[i] == rest[i - |head|];
        }
      }
    }
  }

  /** One list line: the bullet, then the escaped token in backticks. */
  function Line(bullet: string, r: Registration): string {
    bullet + " `" + Escape(r.token) + "`\n"
  }

  /** The lines for the tokens, in the order the service listed them. */
  function Lines(bullet: string, tokens: seq<Registration>): string
    decreases |tokens|
  {
    if |tokens| == 0 then "" else Lines(bullet, tokens[..|tokens| - 1]) + Line(bullet, tokens[|tokens| - 1])
  }

  lemma {:induction false} LinesAppend(bullet: string, a: seq<Registration>, b: seq<Registration>)
    ensures Lines(bullet, a + b) == Lines(bullet, a) + Lines(bullet, b)
    decreases |b|
  {
    if |b| == 0 {
      assert a + b == a;
    } else {
      var ab := a + b;
      var init := b[..|b| - 1];
      var last := Line(bullet, b[|b| - 1]);
      LinesAppend(bullet, a, init);
      assert ab[..|ab| - 1] == a + init;
      assert ab[|ab| - 1] == b[|b| - 1];
      calc {
        Lines(bullet, ab);
        Lines(bullet, a + init) + last;
        (Lines(bullet, a) + Lines(bullet, init)) + last;
        Lines(bullet, a) + (Lines(bullet, init) + last);
        Lines(bullet, a) + Lines(bullet, b);
      }
    }
  }

  /** The list reply of `/used_tokens` and `/unused_tokens`: the header, then one line per token. */
  method ListText(header: string, bullet: string, tokens: seq<Registration>) returns (text: string)
    ensures text == header + Lines(bullet, tokens)
  {
    text := header;
    var i := 0;
    while i < |tokens|
      invariant 0 <= i <= |tokens|
      invariant text == header + Lines(bullet, tokens[..i])
    {
      assert tokens[..i + 1][..i] == tokens[..i];
      text := text + Line(bullet, tokens[i]);
      i := i + 1;
    }
    assert tokens[..i] == tokens;
  }

  /** The lines of a list are the lines of its tokens one after the other. */
  lemma LinesOfCons(bullet: string, r: Registration, rest: seq<Registration>)
    ensures Lines(bullet, [r] + rest) == Line(bullet, r) + Lines(bullet, rest)
  {
    LinesAppend(bullet, [r], rest);
    assert [r][..0] == [];
  }

  /** A list command: permission check, the service's answer, the empty case, the list. */
  method OnList<E>(b: Bot, sender: int, call: ServiceCall, failed: string, none: string,
                   header: string, bullet: string, tokens: Result<seq<Registration>, E>)
    returns (h: Handled)
    ensures !IsAdmin(b, sender) ==> h == Denied()
    ensures IsAdmin(b, sender) ==> h.call == Some(call)
    ensures IsAdmin(b, sender) && tokens.Err? ==> h.reply == Some(Reply(failed, false))
    ensures IsAdmin(b, sender) && tokens.Ok? && tokens.value == [] ==> h.reply == Some(Reply(none, false))
    ensures IsAdmin(b, sender) && tokens.Ok? && tokens.value != [] ==>
      h.reply == Some(Reply(header + Lines(bullet, tokens.value), true))
  {
    if !IsAdmin(b, sender) {
      return Denied();
    }
    if tokens.Err? {
      return Handled(Some(Reply(failed, false)), Some(call));
    }
    if |tokens.value| == 0 {
      return Handled(Some(Reply(none, false)), Some(call));
    }
    var text := ListText(header, bullet, tokens.value);
    return Handled(Some(Reply(text, true)), Some(call));
  }

  /** `/used_tokens`, with the answer `tokens` of GetUsedTokens. */
  method OnUsedTokens<E>(b: Bot, sender: int, tokens: Result<seq<Registration>, E>) returns (h: Handled)
    ensures !IsAdmin(b, sender) ==> h == Denied()
    ensures IsAdmin(b, sender) ==> h.call == Some(GetUsedTokens)
    ensures IsAdmin(b, sender) && tokens.Err? ==> h.reply == Some(Reply(UsedListFailed, false))
    ensures IsAdmin(b, sender) && tokens.Ok? && tokens.value == [] ==> h.reply == Some(Reply(NoUsedTokens, false))
    ensures IsAdmin(b, sender) && tokens.Ok? && tokens.value != [] ==>
      h.reply == Some(Reply(UsedHeader + Lines(UsedBullet, tokens.value), true))
  {
    h := OnList(b, sender, GetUsedTokens, UsedListFailed, NoUsedTokens, UsedHeader, UsedBullet, tokens);
  }

  /** `/unused_tokens`, with the answer `tokens` of GetUnusedTokens. */
  method OnUnusedTokens<E>(b: Bot, sender: int, tokens: Result<seq<Registration>, E>) returns (h: Handled)
    ensures !IsAdmin(b, sender) ==> h == Denied()
    ensures IsAdmin(b, sender) ==> h.call == Some(GetUnusedTokens)
    ensures IsAdmin(b, sender) && tokens.Err? ==> h.reply == Some(Reply(UnusedListFailed, false))
    ensures IsAdmin(b, sender) && tokens.Ok? && tokens.value == [] ==> h.reply == Some(Reply(NoUnusedTokens, false))
    ensures IsAdmin(b, sender) && tokens.Ok? && tokens.value != [] ==>
      h.reply == Some(Reply(UnusedHeader + Lines(UnusedBullet, tokens.value), true))
  {
    h := OnList(b, sender, GetUnusedTokens, UnusedListFailed, NoUnusedTokens, UnusedHeader, UnusedBullet, tokens);
  }
}
