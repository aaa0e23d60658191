# links-bot in Dafny

A model of the core of links-bot. This Telegram bot lets administrators issue one-time registration links. An issued link carries an encrypted token. The person who opens the link fills in a form, which registers them in the Poster CRM, grants them a bonus and consumes the token. The model covers:

- **Token store** (`TokenStore`): the SQLite repository as a class.
  - Its two tables, `registrations` and `token_usage`, are sequences of rows. A row's id is its position plus one, as SQLite assigns row ids when nothing is deleted.
  - Failures of the SQL engine are inputs.
  - `MarkTokenUsed` is a transaction: both writes are staged and committed together, or neither is.
  - The list queries copy the result set row by row, as the Go cursor loop does.
- **Token codec** (`TokenCodec`, `Base64Url`): the framing of a link token, `base64url(nonce ‖ AES-GCM-seal(nonce, token))`.
  - Base64 with the URL alphabet is modelled concretely, includes padding and follows Go's `URLEncoding`.
  - AES-GCM is an abstract pair of functions (`Aead`). The round-trip lemmas take the hypothesis that opening inverts sealing.
  - The key is the hard-coded 32-byte constant, so the cipher is AES-256.
  - The 12 random nonce bytes are an input.
- **Registration service** (`RegistrationService`): a class over the repository.
  - It issues links and validates tokens.
  - It runs the create-client / grant-bonus / consume-token sequence and stops at the first failure.
  - The CRM's answers are inputs. A `crmCalls` field logs which CRM calls were made.
- **Configuration** (`Config`, `Decimal`): `LoadConfig` and its environment lookups, the admin list parser and a model of `fmt.Sscanf("%d")`.
- **HTTP handlers** (`HttpServer`) and **bot commands** (`Bot`): the response each request gets, given the service's answer, and which service call was made.
  - The bot model includes the admin gate and the backtick-escaped Markdown lists.
- **CRM adapter** (`Poster`): the phone search over the client list, the reuse-or-create decision, the field mapping and the bonus request.

Two behaviours of the code are worth knowing before reading the contracts:

- **Duplicate usage rows.** `MarkTokenUsed` does not check whether the token exists or was already used before it inserts a usage row, and no schema constraint is modelled. A second call therefore appends a second usage row (`TokenStore.UsageCountGrows`), and `GetTokenUsage` keeps answering with the first one (`TokenStore.UsageLookupKeepsFirst`).
- **Unused encryption key.** `LoadConfig` requires `ENCRYPTION_KEY` to be set, but the codec never uses it. The codec uses its own constant key.

## Model

| member | source | states |
|---|---|---|
| Wrappers.FirstWhere | internal/adapters/sqlite_repository.go:52 | the index found is the first whose element satisfies the predicate; None exactly when none does |
| Wrappers.FirstWhereAppend | internal/adapters/sqlite_repository.go:52 | appending a row keeps an earlier first match; with no earlier match, the new row is the match exactly when it satisfies the predicate |
| Wrappers.Map | internal/config/config.go:68-70 | one result per element, in order, each the function applied to its element |
| TokenStore.FindRegistration | internal/adapters/sqlite_repository.go:51-59 | `WHERE token = ?` with `QueryRow`: None exactly when no row has the token; otherwise the first row with it |
| TokenStore.FindUsage | internal/adapters/sqlite_repository.go:87-95 | the same for the usage table: None exactly when no usage row has the token; otherwise the first one with it |
| TokenStore.FindRegistrationKeepsFirst | internal/adapters/sqlite_repository.go:51-59 | inserting another row with a token already present does not change what the token lookup returns |
| TokenStore.SqliteRepository.IdsDistinct | internal/adapters/sqlite_repository.go:45-48 | no two rows of either table share an id |
| TokenStore.SqliteRepository.NextIdFresh | internal/adapters/sqlite_repository.go:76 | every id in a table is below the id the next insert gets |
| TokenStore.Select | internal/adapters/sqlite_repository.go:99 | the `WHERE used = …` result set holds every row with that flag, and only rows of the table with that flag |
| TokenStore.MarkUsed | internal/adapters/sqlite_repository.go:69 | `UPDATE … SET used = TRUE WHERE token = ?` keeps length, ids and tokens, flags the matching rows and leaves every other row unchanged |
| TokenStore.FlagsMonotoneTransitive | internal/adapters/sqlite_repository.go:45-84 | "rows only grow and a used flag is never cleared" composes across operations |
| TokenStore.SelectPartitions | internal/adapters/sqlite_repository.go:98-135 | the used and unused result sets together are exactly the table, as multisets |
| TokenStore.SelectDisjoint | internal/adapters/sqlite_repository.go:98-135 | no row is listed as both used and unused |
| TokenStore.MarkUsedIdempotent | internal/adapters/sqlite_repository.go:69 | marking a token twice is the same as marking it once |
| TokenStore.MarkedTokenNotUnused | internal/adapters/sqlite_repository.go:51-84 | after the update, the lookup of that token finds no unused row |
| TokenStore.CreatedTokenFound | internal/adapters/sqlite_repository.go:45-59 | a new token inserted as unused is what the token lookup then finds |
| TokenStore.UsageLookupKeepsFirst | internal/adapters/sqlite_repository.go:87-95 | a further usage row for an already-used token does not change what the usage lookup returns |
| TokenStore.UsageLookupFindsNew | internal/adapters/sqlite_repository.go:87-95 | the first usage row for a token is what the usage lookup returns |
| TokenStore.UsageCountGrows | internal/adapters/sqlite_repository.go:62-84 | every committed mark adds one usage row for that token, with no limit |
| TokenStore.CollectRows | internal/adapters/sqlite_repository.go:105-114 | the cursor loop returns the rows delivered before the cursor stops, in order, or the first scan error met |
| TokenStore.Delivered | internal/adapters/sqlite_repository.go:106 | a cursor never delivers more rows than the result set holds |
| TokenStore.ListQuery | internal/adapters/sqlite_repository.go:98-135 | a query error is returned as is; a listed row is a table row with the requested flag; with no fault, the list is the whole result set |
| TokenStore.ListsPartition | internal/adapters/sqlite_repository.go:98-135 | with no fault, both lists succeed and together hold every registration exactly once |
| TokenStore.SqliteRepository.constructor | internal/adapters/sqlite_repository.go:41 | a new repository has two empty tables |
| TokenStore.SqliteRepository.Create | internal/adapters/sqlite_repository.go:45-48 | a successful insert appends exactly one unused row with the next id and that token; a failed insert changes nothing; the usage table never changes |
| TokenStore.SqliteRepository.GetByToken | internal/adapters/sqlite_repository.go:51-59 | the first row with that token, `NoRows` when none exists, or the query error |
| TokenStore.SqliteRepository.MarkTokenUsed | internal/adapters/sqlite_repository.go:62-84 | the commit succeeds exactly when none of begin, update, insert and commit fails; on failure both tables are unchanged; on success the matching rows are flagged and one usage row (next id, token, name, phone) is appended |
| TokenStore.SqliteRepository.GetTokenUsage | internal/adapters/sqlite_repository.go:87-95 | the first usage row for the token, `NoRows` when none exists, or the query error |
| TokenStore.SqliteRepository.GetUsedTokens | internal/adapters/sqlite_repository.go:98-115 | the answer is the used-rows query over the current table |
| TokenStore.SqliteRepository.GetUnusedTokens | internal/adapters/sqlite_repository.go:118-135 | the answer is the unused-rows query over the current table |
| Base64Url.SextetChar | internal/services/utils.go:61 | an encoded character is never a line break or the padding character |
| Base64Url.CharSextet | internal/services/utils.go:15 | a character of the URL alphabet decodes to the 6-bit value that encodes back to it |
| Base64Url.SextetRoundTrip | internal/services/utils.go:15 | a 6-bit value's character decodes back to the value |
| Base64Url.StripNewlines | internal/services/utils.go:15 | dropping `\r` and `\n` never lengthens the text, leaves no line break and keeps every other character |
| Base64Url.StripAppend | internal/services/utils.go:15 | dropping line breaks from joined texts is dropping them from each text, then joining |
| Base64Url.LineBreakIgnored | internal/services/utils.go:15 | a `\r` or `\n` anywhere in the text does not change what it decodes to |
| Base64Url.Decode | internal/services/utils.go:15-18 | decoding succeeds exactly when the text, without its line breaks, is well padded |
| Base64Url.StripWithoutNewlines | internal/services/utils.go:15 | text without line breaks passes the line-break filter unchanged |
| Base64Url.EncodingHasNoNewlines | internal/services/utils.go:61 | the text `Encode` produces contains no line break |
| Base64Url.GroupRoundTrip | internal/services/utils.go:14-62 | a full three-byte group decodes back to its bytes |
| Base64Url.OneByteRoundTrip | internal/services/utils.go:14-62 | a final group of one byte, padded with `==`, decodes back to it |
| Base64Url.TwoBytesFinal | internal/services/utils.go:14-62 | the three sextets of two bytes, with one `=`, decode back to the two bytes |
| Base64Url.TwoBytesRoundTrip | internal/services/utils.go:14-62 | a final group of two bytes, padded with `=`, decodes back to them |
| Base64Url.DecodeEncodeQuanta | internal/services/utils.go:14-62 | the quanta of an encoding decode back to the bytes |
| Base64Url.LongRoundTripStep | internal/services/utils.go:14-62 | when the encoding of the bytes after the first three decodes back, so does the encoding of all of them |
| Base64Url.DecodeEncode | internal/services/utils.go:14-62 | decoding the text `Encode` produces gives back the bytes |
| Base64Url.FinalAcceptsWellPadded | internal/services/utils.go:15 | a single quantum is accepted exactly when it is four alphabet characters, or ends in `=` or `==` after alphabet characters |
| Base64Url.WellPaddedCons | internal/services/utils.go:15 | a text of several quanta is well padded exactly when its first quantum has no padding and the rest is well padded |
| Base64Url.DecodeAcceptsWellPadded | internal/services/utils.go:15 | decoding succeeds exactly when the text is whole 4-character quanta of the alphabet, with padding only at the end of the last one |
| Base64Url.EncodedLength | internal/services/utils.go:61 | `Encode` turns n bytes into 4·⌈n/3⌉ characters |
| Base64Url.DecodedLength | internal/services/utils.go:15 | decoded data has at most three bytes per four characters |
| TokenCodec.NewCipher | internal/services/utils.go:20-23 | cipher construction succeeds exactly for 16-, 24- and 32-byte keys |
| TokenCodec.KeyIsAes256 | internal/services/utils.go:12 | the hard-coded key is 32 bytes long, so cipher construction never fails |
| TokenCodec.EncryptToken | internal/services/utils.go:44-62 | encryption fails only, and with the randomness error, when fewer than 12 random bytes are available; otherwise the text decodes to the nonce followed by the sealed token |
| TokenCodec.DecryptToken | internal/services/utils.go:14-42 | undecodable text fails as corrupt; fewer than 12 data bytes fail as short; success exactly when open accepts the data after the nonce, and then the result is what open returned |
| TokenCodec.DecryptEncrypt | internal/services/utils.go:14-62 | when opening inverts sealing, decrypting an encrypted token gives back the token |
| TokenCodec.DecryptRejectsMalformed | internal/services/utils.go:15-18 | text that is not well-padded base64url is rejected as corrupt input |
| TokenCodec.DecryptRejectsShort | internal/services/utils.go:30-33 | a text of fewer than 16 characters besides line breaks decodes to fewer than 12 bytes, so it is rejected |
| RegistrationService.Validation | internal/services/registration_service.go:40-53 | success exactly when the text decrypts, the lookup does not fail and the first row with the token is unused, and then the answer is the decrypted token; a decryption failure is wrapped as an invalid token; every other failure is "invalid or used token" |
| RegistrationService.FirstRowDecides | internal/services/registration_service.go:47-50 | when the first row with the decrypted token is used, the text is rejected, whatever rows follow |
| RegistrationService.IssuedLinkValidates | internal/services/registration_service.go:23-53 | when the clock value's token is absent or its first row is unused, the new link, once stored, validates to the decimal clock value |
| RegistrationService.ConsumedTokenRejected | internal/services/registration_service.go:40-53 | once its token is marked used, a link no longer validates |
| RegistrationService.Service.constructor | internal/services/registration_service.go:15-20 | the service starts over the given repository with no CRM calls made |
| RegistrationService.Service.GenerateUniqueLink | internal/services/registration_service.go:23-37 | the token is the decimal clock value; a failed insert changes nothing and returns the error; after the insert, the link is the base URL followed by the encrypted token, or the randomness error, with the row left in place |
| RegistrationService.Service.ValidateAndDecode | internal/services/registration_service.go:40-53 | the answer is the validation of the text against the current registrations |
| RegistrationService.Service.MarkTokenUsed | internal/services/registration_service.go:56-58 | the repository's mark with the client's name and phone, all-or-nothing |
| RegistrationService.Service.RegisterUser | internal/services/registration_service.go:61-84 | create client, grant bonus to the returned id, mark token, stopping at the first failure with its wrapped error; the token is marked only when both CRM calls succeed; the CRM calls made are logged in order |
| RegistrationService.Service.GetTokenUsage | internal/services/registration_service.go:87-94 | the repository's usage lookup |
| RegistrationService.Service.GetUsedTokens | internal/services/registration_service.go:97-99 | the repository's used-token list |
| RegistrationService.Service.GetUnusedTokens | internal/services/registration_service.go:102-104 | the repository's unused-token list |
| Decimal.DigitChar | internal/services/registration_service.go:24 | a digit value maps to its decimal digit character |
| Decimal.ParseInt64 | internal/adapters/poster.go:169 | an accepted value fits in 64 bits |
| Decimal.ParseAccepts | internal/adapters/poster.go:169 | an accepted text is a digit, or a sign and at least one digit, followed by digits only; its value is the digits' value, negated after `-` |
| Decimal.ParseRejects | internal/adapters/poster.go:169-173 | the empty text, a lone non-digit, any non-digit after the first character, a first character that is no digit or sign, and digits beyond 64 bits are all rejected |
| Decimal.FormatInt | internal/services/registration_service.go:24 | `%d` gives a non-empty text that starts with `-` exactly for negative numbers, followed by digits whose value is the number's magnitude |
| Decimal.NatDigitsShape | internal/services/registration_service.go:24 | a formatted natural number is a non-empty run of digits |
| Decimal.NatDigitsValue | internal/services/registration_service.go:24 | the digits of a formatted natural number read back as that number |
| Decimal.ParseFormatInt | internal/services/registration_service.go:24 | parsing the `%d` rendering of a 64-bit integer gives back the integer |
| Config.GetEnv | internal/config/config.go:54-59 | a set variable's value, even when empty; the default when it is unset |
| Config.Split | internal/config/config.go:67 | `strings.Split` always yields at least one piece, even for "" |
| Config.SplitCount | internal/config/config.go:67 | a text splits into one more piece than it has separators |
| Config.SplitJoin | internal/config/config.go:67 | joining the pieces with the separator gives back the text, and no piece contains the separator |
| Config.SkipSpace | internal/config/config.go:76 | the scan's white-space skip leaves a suffix of the text |
| Config.SkipSpaceSpec | internal/config/config.go:76 | what the skip drops is white space and what it keeps starts with neither white space nor a line feed; it fails only on a line feed after nothing but white space |
| Config.SkipSpaceOver | internal/config/config.go:76 | white space before a line feed fails the skip; white space before anything else is dropped |
| Config.LeadingDigits | internal/config/config.go:76 | the longest prefix of digits |
| Config.LeadingDigitsOver | internal/config/config.go:76 | the digit run of digits followed by a non-digit is those digits |
| Config.ScanToken | internal/config/config.go:76 | the `%d` verb after white space always yields a 64-bit value |
| Config.ScanInt | internal/config/config.go:74-81 | `%d` scanning always yields a 64-bit value |
| Config.ScanAfterSpace | internal/config/config.go:76 | after white space, the scan reads what follows it |
| Config.ScanTokenDigits | internal/config/config.go:76 | a digit run followed by a non-digit reads as its parsed value, or 0 when it does not parse |
| Config.ScanTokenSigned | internal/config/config.go:76 | the same after a `+` or `-` sign |
| Config.ScanTokenFormatted | internal/config/config.go:76 | a `%d`-formatted 64-bit integer followed by a non-digit reads back as the integer |
| Config.ScanTokenOverflow | internal/config/config.go:76 | a digit run beyond 64 bits followed by a non-digit reads as 0 |
| Config.ScanWithoutDigits | internal/config/config.go:74-81 | a piece with no digit yields 0 |
| Config.ScanDecimal | internal/config/config.go:74-81 | white space, a decimal 64-bit integer, then text not starting with a digit, scans as that integer: " 2" gives 2, "12abc" gives 12 |
| Config.ScanFormatted | internal/config/config.go:74-81 | an id written in decimal scans back to itself |
| Config.ScanUnexpectedNewline | internal/config/config.go:74-81 | a line feed after nothing but white space gives 0 |
| Config.ScanSignWithoutDigits | internal/config/config.go:74-81 | a sign not followed by a digit gives 0 |
| Config.ScanOtherFirst | internal/config/config.go:74-81 | a first character that is neither white space, a sign nor a digit gives 0 |
| Config.ScanOverflow | internal/config/config.go:74-81 | a digit run whose value does not fit in 64 bits gives 0 |
| Config.ParseInt | internal/config/config.go:74-81 | `parseInt` returns the `%d` scan of its text, 0 on a failed scan |
| Config.ParseAdmins | internal/config/config.go:61-72 | "" gives no ids; otherwise one id per comma-separated piece, in order, so the count is the number of commas plus one; each id is the scan of its piece |
| Config.LoadConfig | internal/config/config.go:22-52 | the first empty one of BOT_TOKEN, BASE_URL, POSTER_TOKEN and ENCRYPTION_KEY, in that order, is reported; success exactly when all four are non-empty, with the variables' values, the defaults "8080" and "registration.db?mode=rwc", and the parsed admin list |
| HttpServer.FirstValue | internal/delivery/httpserver.go:68-71 | the first value given for a key, or "" when it has none |
| HttpServer.HandleRegister | internal/delivery/httpserver.go:38-52 | no token: 400 "Token is missing" and no validation; a failed validation: the error page with "Invalid token"; otherwise the form page with the decoded token |
| HttpServer.RegisterErrorHidesCause | internal/delivery/httpserver.go:45-48 | every validation error gets the same response, so the page does not reveal the cause |
| HttpServer.HandleSubmit | internal/delivery/httpserver.go:67-85 | any empty field: 400 "Missing required fields" and no registration; all fields present: registration is called with them; a failed registration: 400 "Registration failed"; success page only after a successful registration |
| Bot.NewBot | internal/delivery/bot.go:21-42 | a client error is returned as is; otherwise `isAdmin` holds for a user exactly when their id is in the admin list |
| Bot.OnRegister | internal/delivery/bot.go:47-61 | a non-administrator gets the permission-denied reply and no link is generated; an administrator gets their link or the link error message |
| Bot.OnCheckToken | internal/delivery/bot.go:64-72 | a non-administrator is denied; an administrator is asked for the token; the service is not called |
| Bot.OnText | internal/delivery/bot.go:75-94 | a non-administrator gets no reply and no lookup; an administrator's text is looked up as a token, and the reply gives the stored name and phone or the lookup error |
| Bot.Escape | internal/delivery/bot.go:118 | escaping never shortens a token |
| Bot.EscapeHead | internal/delivery/bot.go:118 | an escaped token never starts with a backtick |
| Bot.UnescapeEscape | internal/delivery/bot.go:118 | the token can be recovered from its escaped form |
| Bot.EscapedBackticksGuarded | internal/delivery/bot.go:118 | every backtick of an escaped token has a backslash in front of it |
| Bot.LinesAppend | internal/delivery/bot.go:116-120 | the lines for two lists of tokens, one after the other, are the lines for the joined list |
| Bot.LinesOfCons | internal/delivery/bot.go:116-120 | the first line of a list reply is for the first token |
| Bot.ListText | internal/delivery/bot.go:116-120 | the reply is the header followed by one line per token, in service order |
| Bot.OnList | internal/delivery/bot.go:97-152 | the shared list command: denied without a service call; the error message; the "no tokens" message for an empty list; otherwise the Markdown list |
| Bot.OnUsedTokens | internal/delivery/bot.go:97-123 | as OnList, with the used-token texts and the 🔹 bullet |
| Bot.OnUnusedTokens | internal/delivery/bot.go:126-152 | as OnList, with the unused-token texts and the 🟢 bullet |
| Poster.FindClientByPhone | internal/adapters/poster.go:137-182 | a fetch error is returned as is; otherwise the answer is the id of the first entry with exactly that phone, an error when that id is not an integer, or 0 when no entry has the phone |
| Poster.Lookup | internal/adapters/poster.go:167-181 | no entry with the phone: 0; an error only for the first entry with the phone, when its id does not parse; a non-zero answer is the parsed id of that first entry |
| Poster.LookupMissing | internal/adapters/poster.go:180-181 | no entry with the phone: the search answers 0 |
| Poster.LookupFirstMatch | internal/adapters/poster.go:167-177 | the first entry with the phone decides the answer, its parsed id or a bad-id error, whatever follows it |
| Poster.ToPosterClient | internal/adapters/poster.go:185-193 | name, sex, phone and birthday are copied unchanged and the group is always 2 |
| Poster.CreateClient | internal/adapters/poster.go:82-134 | a search error is wrapped and nothing is created; a non-zero id found is returned with no create; otherwise the mapped client is created and the create's answer returned |
| Poster.ZeroIdCountsAsMissing | internal/adapters/poster.go:83-91 | a match whose id reads as 0 gives the same answer as no match, so a create follows |
| Poster.ChangeClientBonus | internal/adapters/poster.go:48-79 | the request is for the given client with count 1000; success exactly when the request is sent and its answer read |
| Poster.BonusIgnoresAnswer | internal/adapters/poster.go:71-78 | the content of the CRM's answer does not change the outcome |

## Left out

- I/O of every kind is outside the model. The HTTP transport and JSON coding of the Poster API are left out. The client list, the create answer and the bonus exchange are inputs with their outcomes.
- The HTTP server, static files, template parsing and rendering (`renderPage`, `httpserver.go:21-35,55-64`) are left out. A response names the template and its data.
- Telegram polling and message sending are left out. A handler's result is the reply it would send.
- Logging is left out throughout.
- The SQL driver, schema migrations and opening the database (`sqlite_repository.go:20-42`) are left out. SQL failures are fault inputs, and no UNIQUE constraint is modelled.
- AES and GCM internals are left out, because they are a foreign library. `Aead` is abstract, and the round trip is proved under the hypothesis that open inverts seal.
- TokenCodec.DecryptToken: the security promise that text not produced by encryption (a forgery) is rejected is not stated. It needs a cryptographic assumption about the abstract AEAD.
- Randomness and the clock are parameters: the nonce bytes, and the nanosecond clock value used as the token. Whether two tokens from the same clock value collide is therefore not modelled.
- Loading the `.env` file (`config.go:23`) is left out. The environment is a map.
- `cmd/main.go` is left out: wiring, goroutines and the WaitGroup are concurrency and process startup.
- The validate-then-consume race between concurrent HTTP requests is left out, because the model is sequential.
- `NewPosterAPI` and the request URLs with their `token` query parameter are left out. They only configure the transport.
- The `json.Marshal` failure branches are left out: marshalling these fixed structs cannot fail.
- Strings are sequences of characters.
  - Config.ScanInt: its white-space test covers the Unicode space characters Go's scanner skips; UTF-8 decoding of the input is not modelled.
  - Go's `string(plaintext)` conversion is folded into the abstract open function.
- Base64Url.Decode: only Go's default non-strict mode is modelled. Unused trailing bits of the last quantum are ignored; strict mode is never used by the code.
- Config.ScanInt: a `%d` value that overflows 64 bits is modelled as a failed scan that leaves 0.
- The `Config.encryptionKey` field is read and checked but never used by the codec. The model keeps it in the configuration only.
