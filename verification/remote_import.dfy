/** Import from a remote source (src-tauri/src/token_manager.rs): a sparse,
    alias-tolerant record is normalised into a `TokenRecord`, and a batch is
    folded into the local list, appending only records whose `auth_session`
    is not yet present. */
module RemoteImport {
  import opened Wrappers
  import opened Primitives
  import opened TokenStore

  /** The remote shape: every field optional, and five fields also accepted
      under an alternative name (`tenantUrl`, `accessToken`, `authSession`,
      `emailNote`, `banStatus`), which the `...Alt` fields carry. */
  datatype RemoteTokenRecord = RemoteTokenRecord(
    id: Option<string>,
    tenantUrl: Option<string>,
    accessToken: Option<string>,
    createdAt: Option<string>,
    updatedAt: Option<string>,
    portalUrl: Option<string>,
    banStatus: Option<string>,
    portalInfo: Option<PortalInfo>,
    emailNote: Option<string>,
    tagName: Option<string>,
    tagColor: Option<string>,
    authSession: Option<string>,
    suspensions: Option<string>,
    skipCheck: Option<bool>,
    balanceColorMode: Option<string>,
    tenantUrlAlt: Option<string>,
    accessTokenAlt: Option<string>,
    authSessionAlt: Option<string>,
    emailNoteAlt: Option<string>,
    banStatusAlt: Option<string>)

  /** The required field a remote record lacked. */
  datatype MissingField = MissingId | MissingAuthSession | MissingCreatedAt

  function MissingFieldMessage(m: MissingField): string {
    match m
    case MissingId => "缺少必需字段: id"
    case MissingAuthSession => "缺少必需字段: auth_session"
    case MissingCreatedAt => "缺少必需字段: created_at"
  }

  const DefaultBanStatus: string := "ACTIVE"

  /** How an aliased field resolves: the canonical value when present, the
      alternative only when the canonical one is absent, and `default` only
      when both are. */
  ghost predicate Resolves<T>(canonical: Option<T>, alternative: Option<T>, default: T, v: T) {
    && (canonical.Some? ==> v == canonical.value)
    && (canonical.None? && alternative.Some? ==> v == alternative.value)
    && (canonical.None? && alternative.None? ==> v == default)
  }

  /** `t` is what normalising `remote` must give once its required fields are
      present. */
  ghost predicate Normalises(remote: RemoteTokenRecord, t: TokenRecord) {
    && remote.id == Some(t.id)
    && remote.createdAt == Some(t.createdAt)
    && (remote.authSession.Some? || remote.authSessionAlt.Some?)
    && Resolves(remote.authSession, remote.authSessionAlt, "", t.authSession)
    && Resolves(remote.tenantUrl, remote.tenantUrlAlt, "", t.tenantUrl)
    && Resolves(remote.accessToken, remote.accessTokenAlt, "", t.accessToken)
    && Resolves(remote.banStatus, remote.banStatusAlt, DefaultBanStatus, t.banStatus)
    && (remote.emailNote.Some? ==> t.emailNote == remote.emailNote)
    && (remote.emailNote.None? ==> t.emailNote == remote.emailNoteAlt)
    && Resolves(remote.updatedAt, None, t.createdAt, t.updatedAt)
    && Resolves(remote.skipCheck, None, false, t.skipCheck)
    && t.portalUrl == remote.portalUrl
    && t.portalInfo == remote.portalInfo
    && t.tagName == remote.tagName
    && t.tagColor == remote.tagColor
    && t.suspensions == remote.suspensions
    && t.balanceColorMode == remote.balanceColorMode
  }

  /** Normalises a remote record into a stored one: checks `id`, then `auth_session`
      (either spelling), then `created_at`, failing on the first one absent;
      otherwise resolves the aliased fields and fills the defaults. */
  function ToLocalToken(remote: RemoteTokenRecord): (r: Result<TokenRecord, MissingField>)
    ensures r.Failure? <==> || remote.id.None?
                            || (remote.authSession.None? && remote.authSessionAlt.None?)
                            || remote.createdAt.None?
    ensures remote.id.None? ==> r == Failure(MissingId)
    ensures remote.id.Some? && remote.authSession.None? && remote.authSessionAlt.None?
            ==> r == Failure(MissingAuthSession)
    ensures (remote.id.Some? && (remote.authSession.Some? || remote.authSessionAlt.Some?)
             && remote.createdAt.None?) ==> r == Failure(MissingCreatedAt)
    ensures r.Success? ==> Normalises(remote, r.value)
  {
    var id :- remote.id.ToResult(MissingId);
    var authSession :- remote.authSession.OrElse(remote.authSessionAlt).ToResult(MissingAuthSession);
    var createdAt :- remote.createdAt.ToResult(MissingCreatedAt);
    Success(TokenRecord(
      id := id,
      tenantUrl := remote.tenantUrl.OrElse(remote.tenantUrlAlt).GetOr(""),
      accessToken := remote.accessToken.OrElse(remote.accessTokenAlt).GetOr(""),
      createdAt := createdAt,
      updatedAt := remote.updatedAt.GetOr(createdAt),
      portalUrl := remote.portalUrl,
      banStatus := remote.banStatus.OrElse(remote.banStatusAlt).GetOr(DefaultBanStatus),
      portalInfo := remote.portalInfo,
      emailNote := remote.emailNote.OrElse(remote.emailNoteAlt),
      tagName := remote.tagName,
      tagColor := remote.tagColor,
      authSession := authSession,
      suspensions := remote.suspensions,
      skipCheck := remote.skipCheck.GetOr(false),
      balanceColorMode := remote.balanceColorMode))
  }

  /** A local record written in the remote shape under its canonical names. */
  function AsRemote(t: TokenRecord): RemoteTokenRecord {
    RemoteTokenRecord(
      Some(t.id), Some(t.tenantUrl), Some(t.accessToken), Some(t.createdAt), Some(t.updatedAt),
      t.portalUrl, Some(t.banStatus), t.portalInfo, t.emailNote, t.tagName, t.tagColor,
      Some(t.authSession), t.suspensions, Some(t.skipCheck), t.balanceColorMode,
      None, None, None, None, None)
  }

  /** The same record with every aliased field under its alternative name
      only. */
  function AsRemoteAliased(t: TokenRecord): RemoteTokenRecord {
    AsRemote(t).(tenantUrl := None, accessToken := None, authSession := None, emailNote := None,
                 banStatus := None, tenantUrlAlt := Some(t.tenantUrl), accessTokenAlt := Some(t.accessToken),
                 authSessionAlt := Some(t.authSession), emailNoteAlt := t.emailNote,
                 banStatusAlt := Some(t.banStatus))
  }

  /** Normalisation gives a local record back unchanged, whichever spelling
      of the aliased fields carried it. */
  lemma NormaliseRoundTrip(t: TokenRecord)
    ensures ToLocalToken(AsRemote(t)) == Success(t)
    ensures ToLocalToken(AsRemoteAliased(t)) == Success(t)
  {
  }

  // ---------------------------------------------------------------------------
  // The merge loop of import_from_remote

  /** The loop's state: the growing list and its three counters. */
  datatype MergeState = MergeState(tokens: seq<TokenRecord>, imported: nat, skipped: nat, conversionErrors: nat)

  /** One iteration: count a conversion error, skip a session already in the
      list, or append the record. */
  function MergeStep(st: MergeState, remote: RemoteTokenRecord): (r: MergeState)
    ensures r.imported + r.skipped + r.conversionErrors == st.imported + st.skipped + st.conversionErrors + 1
    ensures r.imported >= st.imported && r.skipped >= st.skipped && r.conversionErrors >= st.conversionErrors
    ensures ToLocalToken(remote).Failure? <==> r.conversionErrors == st.conversionErrors + 1
    ensures ToLocalToken(remote).Failure? ==> r.tokens == st.tokens
    ensures ToLocalToken(remote).Success? ==> HasSession(r.tokens, ToLocalToken(remote).value.authSession)
    ensures st.tokens <= r.tokens && |r.tokens| == |st.tokens| + (r.imported - st.imported)
  {
    match ToLocalToken(remote)
    case Failure(_) => st.(conversionErrors := st.conversionErrors + 1)
    case Success(t) => MergeStepRecord(st, t)
  }

  /** Skip a normalised record whose session is already in the list, or
      append it. */
  function MergeStepRecord(st: MergeState, t: TokenRecord): (r: MergeState)
    ensures HasSession(r.tokens, t.authSession)
    ensures r.imported == st.imported + 1 <==> !HasSession(st.tokens, t.authSession)
    ensures r.skipped == st.skipped + 1 <==> HasSession(st.tokens, t.authSession)
    ensures r.imported + r.skipped == st.imported + st.skipped + 1 && r.conversionErrors == st.conversionErrors
    ensures r.tokens == st.tokens || r.tokens == st.tokens + [t]
  {
    if HasSession(st.tokens, t.authSession) then st.(skipped := st.skipped + 1)
    else st.(tokens := st.tokens + [t], imported := st.imported + 1)
  }

  /** The loop over the batch, in batch order. The list only grows at its
      end, by one record per import, and every record of the batch is
      counted exactly once. */
  function Merge(st: MergeState, batch: seq<RemoteTokenRecord>): (r: MergeState)
    ensures st.tokens <= r.tokens
    ensures |r.tokens| == |st.tokens| + (r.imported - st.imported)
    ensures r.imported >= st.imported && r.skipped >= st.skipped && r.conversionErrors >= st.conversionErrors
    ensures r.imported + r.skipped + r.conversionErrors
            == st.imported + st.skipped + st.conversionErrors + |batch|
    decreases |batch|
  {
    if |batch| == 0 then st else Merge(MergeStep(st, batch[0]), batch[1..])
  }

  /** The records of the batch that normalise, in batch order. */
  function Converted(batch: seq<RemoteTokenRecord>): seq<TokenRecord> {
    if |batch| == 0 then []
    else match ToLocalToken(batch[0])
      case Success(t) => [t] + Converted(batch[1..])
      case Failure(_) => Converted(batch[1..])
  }

  /** The records whose session is neither in `seen` nor carried by an
      earlier record: the first occurrence of each new session. */
  function FirstNew(seen: set<string>, records: seq<TokenRecord>): seq<TokenRecord>
    decreases |records|
  {
    if |records| == 0 then []
    else if records[0].authSession in seen then FirstNew(seen, records[1..])
    else [records[0]] + FirstNew(seen + {records[0].authSession}, records[1..])
  }

  lemma SessionsAppend(tokens: seq<TokenRecord>, t: TokenRecord)
    ensures Sessions(tokens + [t]) == Sessions(tokens) + {t.authSession}
  {
    assert (tokens + [t])[|tokens|] == t;
    assert forall u :: u in tokens + [t] <==> u in tokens || u == t;
  }

  /** Reference reading of the merge: normalise the batch, then keep the
      first record of each session not already stored. The list written is
      the local list followed by those records; the counters are the number
      kept, the number of normalised records not kept, and the number that
      failed to normalise. */
  lemma {:induction false} MergeIsFirstNewOfConverted(st: MergeState, batch: seq<RemoteTokenRecord>)
    ensures var r := Merge(st, batch);
      var kept := FirstNew(Sessions(st.tokens), Converted(batch));
      && r.tokens == st.tokens + kept
      && r.imported == st.imported + |kept|
      && r.skipped == st.skipped + (|Converted(batch)| - |kept|)
      && r.conversionErrors == st.conversionErrors + (|batch| - |Converted(batch)|)
    decreases |batch|
  {
    if |batch| == 0 {
      assert st.tokens + [] == st.tokens;
    } else {
      var next := MergeStep(st, batch[0]);
      MergeIsFirstNewOfConverted(next, batch[1..]);
      ConvertedLength(batch[1..]);
      FirstNewLength(Sessions(next.tokens), Converted(batch[1..]));
      match ToLocalToken(batch[0])
      case Failure(_) =>
      case Success(t) =>
        assert Converted(batch) == [t] + Converted(batch[1..]);
        FirstNewStep(st, t, Converted(batch[1..]));
    }
  }

  /** One normalised record through the reference reading: it is kept
      exactly when the merge step imports it. */
  lemma FirstNewStep(st: MergeState, t: TokenRecord, rest: seq<TokenRecord>)
    ensures var next := MergeStepRecord(st, t);
      && st.tokens + FirstNew(Sessions(st.tokens), [t] + rest)
         == next.tokens + FirstNew(Sessions(next.tokens), rest)
      && |FirstNew(Sessions(st.tokens), [t] + rest)|
         == (next.imported - st.imported) + |FirstNew(Sessions(next.tokens), rest)|
  {
    var seen := Sessions(st.tokens);
    assert ([t] + rest)[0] == t && ([t] + rest)[1..] == rest;
    if HasSession(st.tokens, t.authSession) {
      assert FirstNew(seen, [t] + rest) == FirstNew(seen, rest);
    } else {
      SessionsAppend(st.tokens, t);
      var kept' := FirstNew(seen + {t.authSession}, rest);
      assert FirstNew(seen, [t] + rest) == [t] + kept';
      assert st.tokens + ([t] + kept') == st.tokens + [t] + kept';
    }
  }

  lemma {:induction false} ConvertedLength(batch: seq<RemoteTokenRecord>)
    ensures |Converted(batch)| <= |batch|
  {
    if |batch| > 0 {
      ConvertedLength(batch[1..]);
    }
  }

  lemma {:induction false} FirstNewLength(seen: set<string>, records: seq<TokenRecord>)
    ensures |FirstNew(seen, records)| <= |records|
    decreases |records|
  {
    if |records| > 0 {
      if records[0].authSession in seen {
        FirstNewLength(seen, records[1..]);
      } else {
        FirstNewLength(seen + {records[0].authSession}, records[1..]);
      }
    }
  }

  /** The merge keeps the sessions unique, duplicates inside the batch
      included. */
  lemma {:induction false} MergePreservesUniqueSessions(st: MergeState, batch: seq<RemoteTokenRecord>)
    requires UniqueSessions(st.tokens)
    ensures UniqueSessions(Merge(st, batch).tokens)
    decreases |batch|
  {
    if |batch| > 0 {
      var next := MergeStep(st, batch[0]);
      assert UniqueSessions(next.tokens) by {
        match ToLocalToken(batch[0])
        case Failure(_) =>
        case Success(t) =>
          if !HasSession(st.tokens, t.authSession) {
            var ts := st.tokens + [t];
            forall i, j | 0 <= i < j < |ts|
              ensures ts[i].authSession != ts[j].authSession
            {
              if j == |st.tokens| {
                assert ts[i] == st.tokens[i];
              }
            }
          }
      }
      MergePreservesUniqueSessions(next, batch[1..]);
    }
  }

  /** Nothing normalised is lost: every session of the batch's normalised
      records is in the merged list. */
  lemma {:induction false} MergeCoversBatch(st: MergeState, batch: seq<RemoteTokenRecord>)
    ensures forall t :: t in Converted(batch) ==> t.authSession in Sessions(Merge(st, batch).tokens)
    decreases |batch|
  {
    if |batch| > 0 {
      var next := MergeStep(st, batch[0]);
      MergeCoversBatch(next, batch[1..]);
      var r := Merge(st, batch);
      assert Sessions(next.tokens) <= Sessions(r.tokens) by {
        assert next.tokens <= r.tokens;
        forall u | u in next.tokens
          ensures u in r.tokens
        {
          var i :| 0 <= i < |next.tokens| && next.tokens[i] == u;
          assert r.tokens[i] == u;
        }
      }
      match ToLocalToken(batch[0])
      case Failure(_) =>
      case Success(t) =>
        assert Converted(batch) == [t] + Converted(batch[1..]);
        if !HasSession(st.tokens, t.authSession) {
          SessionsAppend(st.tokens, t);
        }
    }
  }

  // ---------------------------------------------------------------------------
  // import_from_remote

  /** The envelope the remote source answers with. */
  datatype RemoteApiResponse = RemoteApiResponse(status: Int32, data: seq<RemoteTokenRecord>)

  datatype ImportResult = ImportResult(imported: nat, skipped: nat)

  datatype ImportError = RemoteStatusFailed

  function ImportErrorMessage(e: ImportError): string {
    match e
    case RemoteStatusFailed => "远端 API 返回失败状态"
  }

  /** The list to be written and the counts reported. */
  datatype Imported = Imported(tokens: seq<TokenRecord>, result: ImportResult)

  /** The pure part of `import_from_remote`, from the parsed envelope and the
      loaded list: a status other than 1 stops the import before the merge and
      nothing is written; otherwise the batch is merged into the list. */
  function ImportFromRemote(response: RemoteApiResponse, local: seq<TokenRecord>): (r: Result<Imported, ImportError>)
    ensures r.Failure? <==> response.status != 1
    ensures r.Success? ==> local <= r.value.tokens
    ensures r.Success? ==> |r.value.tokens| == |local| + r.value.result.imported
    ensures r.Success? ==> r.value.result.imported + r.value.result.skipped <= |response.data|
  {
    if response.status != 1 then Failure(RemoteStatusFailed)
    else
      var merged := Merge(MergeState(local, 0, 0, 0), response.data);
      Success(Imported(merged.tokens, ImportResult(merged.imported, merged.skipped)))
  }

  /** What an import reports: `imported` records appended in batch order,
      `skipped` counting only the duplicate sessions; records that failed to
      normalise are in neither count. Unique sessions stay unique. */
  lemma ImportCounts(response: RemoteApiResponse, local: seq<TokenRecord>)
    requires response.status == 1
    ensures var r := ImportFromRemote(response, local).value;
      var kept := FirstNew(Sessions(local), Converted(response.data));
      && r.tokens == local + kept
      && r.result.imported == |kept|
      && r.result.skipped == |Converted(response.data)| - |kept|
      && r.result.imported + r.result.skipped + (|response.data| - |Converted(response.data)|)
         == |response.data|
      && (UniqueSessions(local) ==> UniqueSessions(r.tokens))
  {
    MergeIsFirstNewOfConverted(MergeState(local, 0, 0, 0), response.data);
    ConvertedLength(response.data);
    FirstNewLength(Sessions(local), Converted(response.data));
    if UniqueSessions(local) {
      MergePreservesUniqueSessions(MergeState(local, 0, 0, 0), response.data);
    }
  }

  /** A remote record with no field set. */
  const EmptyRemote: RemoteTokenRecord := RemoteTokenRecord(
    None, None, None, None, None, None, None, None, None, None,
    None, None, None, None, None, None, None, None, None, None)

  /** Two records sharing session `sA` imported into an empty store: the
      first is imported with its defaults filled, the second is skipped as a
      duplicate. */
  lemma ImportDuplicateInBatch()
    ensures var first := EmptyRemote.(id := Some("1"), authSession := Some("sA"), createdAt := Some("2024-01-01"));
      var second := EmptyRemote.(id := Some("2"), accessTokenAlt := Some("tok2"), authSession := Some("sA"),
                                 createdAt := Some("2024-01-02"));
      var r := ImportFromRemote(RemoteApiResponse(1, [first, second]), []);
      && r.Success?
      && r.value.result == ImportResult(1, 1)
      && |r.value.tokens| == 1
      && r.value.tokens[0].id == "1"
      && r.value.tokens[0].banStatus == "ACTIVE"
      && r.value.tokens[0].skipCheck == false
      && r.value.tokens[0].updatedAt == "2024-01-01"
  {
    var first := EmptyRemote.(id := Some("1"), authSession := Some("sA"), createdAt := Some("2024-01-01"));
    var second := EmptyRemote.(id := Some("2"), accessTokenAlt := Some("tok2"), authSession := Some("sA"),
                               createdAt := Some("2024-01-02"));
    var batch := [first, second];
    var s0 := MergeState([], 0, 0, 0);
    var t1 := ToLocalToken(first).value;
    var s1 := MergeStep(s0, first);
    assert s1 == MergeState([t1], 1, 0, 0);
    var t2 := ToLocalToken(second).value;
    assert t2.authSession == t1.authSession;
    assert HasSession([t1], t2.authSession);
    var s2 := MergeStep(s1, second);
    assert s2 == MergeState([t1], 1, 1, 0);
    assert batch[1..] == [second];
    assert batch[1..][1..] == [];
    assert Merge(s0, batch) == Merge(s1, [second]) == Merge(s2, []) == s2;
  }
}
