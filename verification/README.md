# aug-session-sync core, modelled in Dafny

This project models the two pure cores of the aug-session-sync desktop tool.

1. **Credential store and remote import** (`src-tauri/src/token_manager.rs`).
   - The store is an ordered list of `TokenRecord`s. The key meant to be unique is `auth_session`.
   - `add_token`, `update_token` and `delete_token` each load the list, change it and save it. Without the file access, each becomes a function from the loaded list to either the list that would be written or the error that stops the command before anything is written.
   - For an import, `RemoteTokenRecord::to_local_token` normalises each sparse remote record. It checks three required fields, resolves five aliased fields (the canonical name wins) and fills in defaults.
   - The import loop then appends only records whose `auth_session` is not yet in the growing list, and counts imported, skipped and unconvertible records.
2. **Session exchange** (`src-tauri/src/augment_oauth.rs`). This covers the steps of `extract_token_from_session` that do not depend on the outside world:
   - the terms-accept (consent) URL;
   - reading `code`, `state` and `tenant_url` out of the consent page with `key:\s*"([^"]+)"`;
   - the token URL and the JSON body sent to it;
   - the trailing-slash normalisation of the enrichment endpoints;
   - composing `AugmentTokenResponse` from the token and the two enrichment results.

   The random verifier and state are plain inputs of `SessionExchange.ExtractTokenFromSession`. The challenge derivation (SHA-256 then base64url), the outcome of building the HTTP client, and every HTTP call are collaborators, passed in as the fields of `SessionExchange.Collaborators`. The model records the requests it would issue, so a statement such as "no token exchange was attempted" can be proved.

Modules, leaf first:

- `Wrappers` (`wrappers.dfy`): `Option` and `Result`.
- `Primitives` (`primitives.dfy`): Rust's `i32` as `Int32`, and a character search.
- `QueryString` (`query_string.dfy`): joins a query as `key=value&…` and splits it back. It is used to state that the consent URL round-trips.
- `FieldExtraction` (`field_extraction.dfy`): the regular expression as a leftmost scan, plus a declarative reading of the pattern (`IsMatch`).
- `SessionExchange` (`session_exchange.dfy`): `augment_oauth.rs`.
- `TokenStore` (`token_store.dfy`): the record types and add, update and delete.
- `RemoteImport` (`remote_import.dfy`): the remote record, its normalisation, the merge loop and the import.

A reader might expect a credential store to keep sessions unique at all times, never change `created_at`, count every record not imported as skipped, and hand back a non-empty access token on success. The code promises none of these, and the model follows the code:

- **What `skipped` counts.** It counts duplicate sessions only (`token_manager.rs:369-418`), and the code's own log names it "skipped duplicates" (`跳过重复`, line 416). Records that fail normalisation are counted separately, reported only in the log (lines 405-406) and never returned. `RemoteImport.ImportCounts` states the code's behaviour.
- **Empty access tokens.** The code accepts any `access_token` string the token endpoint returns, including `""`. Only the tenant URL is proved non-empty, because the pattern's capture is non-empty.
- **Update guards nothing.** `add_token` refuses a duplicate session, but `update_token` replaces a whole record by id and checks neither the session nor `created_at`. `TokenStore.UpdateCanDuplicateSession` exhibits two records sharing a session after an update. `TokenStore.UpdatePreservesUniqueSessions` states when uniqueness does survive.
- **Ids are never checked for uniqueness.** `add_token` checks only `auth_session`. The model does not assume unique ids: delete removes every record with the id, and update replaces the first.

## Model

| member | source | states |
|---|---|---|
| `RemoteImport.ToLocalToken` | src-tauri/src/token_manager.rs:93-222 | Fails exactly when `id` is absent, both `auth_session` spellings are absent, or `created_at` is absent. The first missing field, in that order, names the error. On success, each aliased field takes the canonical value when present and the alias only when it is absent. `tenant_url` and `access_token` default to "". `updated_at` defaults to `created_at`, `ban_status` to "ACTIVE" and `skip_check` to false. `id` and `created_at` are the input values, and the pass-through fields are copied unchanged. |
| `RemoteImport.MissingFieldMessage` | src-tauri/src/token_manager.rs:97-111 | Defined as the normalisation error for each required field: `缺少必需字段: ` followed by `id`, `auth_session` or `created_at`. |
| `RemoteImport.NormaliseRoundTrip` | src-tauri/src/token_manager.rs:99-221 | A local record written in the remote shape, under either the canonical or the alternative field names, normalises back to itself. |
| `TokenStore.ErrorMessage` | src-tauri/src/token_manager.rs:289-440 | Defined as the message of each store error: `该 Session 已存在` for a duplicate session on add (line 289), and `未找到指定的 Token 记录` for an update whose id is absent (line 440). |
| `TokenStore.HasSession` | src-tauri/src/token_manager.rs:288 | The duplicate test is true exactly when some stored record carries the session. |
| `TokenStore.AddToken` | src-tauri/src/token_manager.rs:284-296 | Fails with a duplicate-session error exactly when a stored record has the token's `auth_session`, and then nothing is written. Otherwise the result is the old list with the token appended. |
| `TokenStore.AddPreservesUniqueSessions` | src-tauri/src/token_manager.rs:287-292 | Adding to a list with unique sessions leaves the sessions unique. |
| `TokenStore.AddThenExactlyOne` | src-tauri/src/token_manager.rs:284-296 | After a successful add, exactly one record carries the added session. A second add with the same session is refused. |
| `TokenStore.DeleteToken` | src-tauri/src/token_manager.rs:423-428 | A record is in the result exactly when it was stored and its id differs from the given one. The result is never longer than the input, and an absent id is not an error. |
| `TokenStore.DeleteDistributes` | src-tauri/src/token_manager.rs:425 | Deleting from a concatenation deletes from each part separately, so the survivors keep their relative order. |
| `TokenStore.DeleteKeepsOrder` | src-tauri/src/token_manager.rs:425 | The survivors are a subsequence of the stored list. |
| `TokenStore.DeleteAbsentUnchanged` | src-tauri/src/token_manager.rs:423-428 | Deleting an id that no record carries leaves the list unchanged. |
| `TokenStore.DeleteIdempotent` | src-tauri/src/token_manager.rs:423-428 | Deleting the same id twice is the same as deleting it once. |
| `TokenStore.DeletePreservesUniqueSessions` | src-tauri/src/token_manager.rs:425 | Deleting keeps the sessions unique. |
| `TokenStore.FindId` | src-tauri/src/token_manager.rs:435 | Returns the first position holding the id, or nothing when no record holds it. |
| `TokenStore.UpdateToken` | src-tauri/src/token_manager.rs:432-442 | Fails with not-found exactly when no record has the token's id, and then nothing is written. Otherwise the length is unchanged and the record at the first matching position is replaced by the token. |
| `TokenStore.UpdateTouchesOnlyMatch` | src-tauri/src/token_manager.rs:435-436 | An update keeps the sequence of ids. Every position that changed is the first record with the id and now holds the new token. |
| `TokenStore.UpdatePreservesUniqueSessions` | src-tauri/src/token_manager.rs:432-442 | Uniqueness survives an update when no record other than the replaced one carries the new session. |
| `TokenStore.UpdateCanDuplicateSession` | src-tauri/src/token_manager.rs:432-442 | A store with unique sessions can lose that property through an update, because the session is not checked. |
| `RemoteImport.MergeStep` | src-tauri/src/token_manager.rs:377-401 | One batch record bumps exactly one counter. A conversion error leaves the list alone. A record that normalises leaves its session stored, and the list only grows at its end, by one record per import. |
| `RemoteImport.MergeStepRecord` | src-tauri/src/token_manager.rs:391-401 | A normalised record is imported exactly when its session is not yet stored, and skipped exactly when it is. Either way its session is stored afterwards, and the list is unchanged or has the record appended. |
| `RemoteImport.Merge` | src-tauri/src/token_manager.rs:369-403 | The loop extends the local list only at its end, by one record per import. Every batch record is counted exactly once: imported + skipped + conversion errors grows by the batch length. |
| `RemoteImport.MergeIsFirstNewOfConverted` | src-tauri/src/token_manager.rs:369-403 | The merged list is the local list followed by the first record of each session that is not already stored, taken from the normalisable batch records in batch order. `imported` counts those records. `skipped` counts the other normalisable records. Conversion errors count the records that fail normalisation. |
| `RemoteImport.MergePreservesUniqueSessions` | src-tauri/src/token_manager.rs:391-401 | If the local list has unique sessions, so does the merged list, even when the batch contains duplicates of its own. |
| `RemoteImport.MergeCoversBatch` | src-tauri/src/token_manager.rs:373-403 | The session of every normalisable batch record is present in the merged list. |
| `RemoteImport.ImportFromRemote` | src-tauri/src/token_manager.rs:352-418 | Fails exactly when the status is not 1; the merge is not reached and nothing is written. On success, the local list is a prefix of the written list, which grows by `imported`, and `imported` + `skipped` never exceeds the batch size. |
| `RemoteImport.ImportErrorMessage` | src-tauri/src/token_manager.rs:352-355 | Defined as the message of a failed status: `远端 API 返回失败状态`. |
| `RemoteImport.ImportCounts` | src-tauri/src/token_manager.rs:369-418 | On status 1 the written list is local plus the kept records, and `imported` is their number. `skipped` counts only duplicates. imported + skipped + conversion errors equals the batch size. Unique local sessions stay unique. |
| `RemoteImport.ImportDuplicateInBatch` | src-tauri/src/token_manager.rs:369-418 | Importing two records that share session "sA" into an empty store imports the first, with `ban_status` "ACTIVE", `skip_check` false and `updated_at` equal to its `created_at`. The second is skipped, and the result is `{imported: 1, skipped: 1}`. |
| `SessionExchange.ConsentUrl` | src-tauri/src/augment_oauth.rs:67-70 | Defined as the authorization host, `/terms-accept?`, then `response_type=code`, the challenge, the client id, the state and `prompt=login`, with nothing escaped. Its properties are stated by the two lemmas below. |
| `SessionExchange.ConsentUrlIsEncodedQuery` | src-tauri/src/augment_oauth.rs:67-70 | The consent URL is the authorization host and `/terms-accept?` followed by exactly the parameters `response_type=code`, `code_challenge`, `client_id`, `state` and `prompt=login`, in that order. |
| `SessionExchange.ConsentUrlRoundTrip` | src-tauri/src/augment_oauth.rs:57-70 | When the challenge and state are base64url text (as generated) and the client id has no `&`, reading the query back out of the consent URL recovers the five parameters. |
| `FieldExtraction.QuotedAtIsQuoted` | src-tauri/src/augment_oauth.rs:93-95 | The quoted part `"([^"]+)"` starting at a given quote captures `v` exactly when `v` is non-empty, free of `"`, and is followed by a closing quote. |
| `FieldExtraction.MatchAtIsMatch` | src-tauri/src/augment_oauth.rs:93-95 | At a fixed start, the scan returns `v` exactly when the pattern matches there with capture `v`. So the match at a start position is unique. |
| `FieldExtraction.Extract` | src-tauri/src/augment_oauth.rs:97-110 | Returns the capture at the leftmost position where the scan matches, or nothing when it matches nowhere. A capture is non-empty and contains no `"`. |
| `FieldExtraction.ExtractIsLeftmost` | src-tauri/src/augment_oauth.rs:97-110 | An extracted value is the capture of a match of `key:\s*"([^"]+)"`, and no match of the pattern starts further left. |
| `FieldExtraction.ExtractNoneIffNoMatch` | src-tauri/src/augment_oauth.rs:97-110 | Extraction finds nothing exactly when the pattern matches nowhere in the page. |
| `FieldExtraction.ExtractExample` | src-tauri/src/augment_oauth.rs:93-100 | In `{code: "abc"}` the code is `abc`. |
| `SessionExchange.ParseConsentPage` | src-tauri/src/augment_oauth.rs:97-110 | Succeeds exactly when `code`, `state` and `tenant_url` are all found. They are checked in that order, and the first one missing names the error. On success each field is the extracted value. |
| `SessionExchange.ErrorMessage` | src-tauri/src/augment_oauth.rs:75-140 | Defined as the message of each error of the exchange. A client error reads `创建HTTP客户端失败: ` plus the detail, as built in `http_client.rs` line 11. The other prefixes are those at lines 82, 87, 135 and 140, and the three session-error texts are those at lines 100, 105 and 110. |
| `SessionExchange.ErrorMessageIdentifiesError` | src-tauri/src/augment_oauth.rs:75-140 | Two errors of the exchange have the same message exactly when they are the same error, so a message names the failed step and, for transport failures, the detail. |
| `SessionExchange.SessionErrorTagged` | src-tauri/src/augment_oauth.rs:97-110 | An error message starts with `SESSION_ERROR_OR_ACCOUNT_BANNED` exactly when the consent page lacked one of its three fields. |
| `SessionExchange.TokenUrl` | src-tauri/src/augment_oauth.rs:118 | The token URL is the tenant URL followed directly by `token`, with no separator. |
| `SessionExchange.TokenRequestBody` | src-tauri/src/augment_oauth.rs:119-125 | Defined as the JSON body of the token request: `grant_type` "authorization_code", the client id, the verifier, an empty `redirect_uri` and the code. `TokenRequestFromFields` states what reaches the request. |
| `SessionExchange.EnrichmentBase` | src-tauri/src/augment_oauth.rs:200-204 | The enrichment base always ends with `/`, extends the tenant URL by at most one character, and equals the tenant URL when that already ends with `/`. |
| `SessionExchange.EnrichmentEndpoint` | src-tauri/src/augment_oauth.rs:199-238 | An enrichment endpoint is the tenant URL followed by the endpoint name, with a `/` inserted exactly when the tenant URL does not already end with one. |
| `SessionExchange.ModelsEndpoint` | src-tauri/src/augment_oauth.rs:199-206 | Defined as the enrichment endpoint named `get-models`, from which the email is read. |
| `SessionExchange.CreditEndpoint` | src-tauri/src/augment_oauth.rs:231-238 | Defined as the enrichment endpoint named `get-credit-info`, from which the balance and the billing-cycle end are read. |
| `SessionExchange.EnrichmentBaseIdempotent` | src-tauri/src/augment_oauth.rs:232-236 | Normalising the base twice is the same as normalising it once. |
| `SessionExchange.TokenUrlSharesBaseIffSlash` | src-tauri/src/augment_oauth.rs:200-206 | The token URL equals the enrichment base followed by `token` exactly when the tenant URL already ends with `/`. |
| `SessionExchange.ComposeResponse` | src-tauri/src/augment_oauth.rs:156-194 | The response carries the token and the tenant URL. The email is present exactly when the email fetch succeeded. Balance and expiry date are present together, exactly when the credit fetch succeeded. |
| `SessionExchange.ExtractTokenFromSession` | src-tauri/src/augment_oauth.rs:51-195 | When the HTTP client cannot be built, the exchange fails with the client error and issues no request. Otherwise the first request is the consent GET to the consent URL built from the challenge of the verifier, carrying `session=<session>`. A success has issued the token POST as the second request. At most four requests are issued, and more than two only on success. |
| `SessionExchange.SessionCookie` | src-tauri/src/augment_oauth.rs:78 | The cookie sent with the consent request is `session=` followed by the session, unchanged. |
| `SessionExchange.ExchangeCode` | src-tauri/src/augment_oauth.rs:73-140 | The exchange up to the token response. A client that cannot be built stops it with no request. Once built, a stop comes after one or two requests, the first being the consent GET. Reaching the token means exactly the consent GET and the token POST were issued. |
| `SessionExchange.Enrich` | src-tauri/src/augment_oauth.rs:144-194 | After the token exchange the run succeeds with the token and the tenant URL. The requests so far are kept, and at most two enrichment requests follow. |
| `SessionExchange.EnrichSends` | src-tauri/src/augment_oauth.rs:144-238 | The enrichment requests issued are one POST per call that got past building its own client. The email and the balance/expiry pair each follow their own call's outcome. |
| `SessionExchange.SentFor` | src-tauri/src/augment_oauth.rs:198-215 | An enrichment call stands for no request exactly when it failed before sending, because its own client could not be built. Otherwise it stands for its one POST. |
| `SessionExchange.NoTokenRequestWithoutFields` | src-tauri/src/augment_oauth.rs:75-135 | When the client is built but the page cannot be fetched or lacks a field, the exchange fails after the one consent request, with no token exchange. The error is a session error exactly when the page was fetched. |
| `SessionExchange.TokenRequestFromFields` | src-tauri/src/augment_oauth.rs:118-135 | Whenever the consent page is fetched and its three fields are read, the token request goes to the extracted tenant URL followed by `token`. Its body holds `grant_type` "authorization_code", the client id, the generated verifier, an empty `redirect_uri` and the extracted code. |
| `SessionExchange.ExchangeOutcome` | src-tauri/src/augment_oauth.rs:75-194 | The exchange succeeds exactly when the client is built, the page is fetched, its three fields are read and the code exchange succeeds. It then reports the extracted, non-empty tenant URL and the token that was returned. |
| `SessionExchange.EnrichmentCannotFailExchange` | src-tauri/src/augment_oauth.rs:149-194 | Replacing both enrichment collaborators does not change success, the token, the tenant URL or the first two requests. A failed run is unchanged entirely. |
| `SessionExchange.EnrichmentComposed` | src-tauri/src/augment_oauth.rs:149-194 | On success the requests after the token POST are the enrichment POSTs to the normalised base plus `get-models` and `get-credit-info`, with the new token. A call that failed before sending leaves its POST out. The email, balance and expiry fields follow the outcome of their own call. |

## Left out

- File access and path resolution: `get_tokens_file_path`, the file reads and writes in `read_tokens`/`write_tokens`, `config.rs` and `file_ops.rs`. The loaded list is a parameter and the list that would be written is the result. Load and save errors are therefore not modelled.
- HTTP plumbing: the timeouts and cookie store of `http_client.rs`, the GET, status check and JSON parsing of `import_from_remote`, and the status and JSON handling inside `get_models`/`get_credit_info`. The import starts from the parsed envelope. Whether the exchange's client builds is a collaborator outcome. For each enrichment call the model distinguishes only a failure before sending (no client) from any later one. The enrichment error texts are only logged by the code, so they are not modelled.
- Randomness, SHA-256 and base64url (`generate_random_string`, `sha256_hash`, `base64_url_encode`). The verifier and state are inputs, and the challenge is an uninterpreted function of the verifier.
- `usage_units_remaining.floor() as i32`, which is floating point. The credit collaborator returns the balance already as an `Int32`.
- `tokio::join!`. The two enrichment calls are independent collaborator results. The trace lists the email POST before the credit POST, though the code runs them concurrently.
- The serde alias mechanics. The remote datatype carries both the canonical and the `…Alt` field.
- `println!` logging, the `lib.rs` wiring and the file-picker dialog.
- The byte-index slices in the logging: `&auth_session[..20]` (`token_manager.rs` line 107), `&token[..20]` (line 126), `&response_text[..500]` (line 332), and the slices at `augment_oauth.rs` lines 53, 112, 113 and 142. Rust panics when such a cut falls inside a multi-byte UTF-8 character. The panic aborts the whole import or exchange. The model works on characters and has no such failure: on those inputs the code panics where the model returns a result.
- SessionExchange.ExtractTokenFromSession: the echoed `state` is extracted but never compared with the generated one, as in the code. The model states nothing about it beyond its presence.
- QueryString: values are written verbatim, as the consent URL writes them; percent-encoding is not modelled.
