/** The credential store of src-tauri/src/token_manager.rs: an ordered list of
    token records whose `auth_session` is meant to be unique. Each command is a
    load-modify-save; with the file access stripped away, each is a function
    from the loaded list to the list that would be written, or to the error
    that stops the command before anything is written. */
module TokenStore {
  import opened Wrappers
  import opened Primitives

  datatype PortalInfo = PortalInfo(creditsBalance: Option<Int32>, expiryDate: Option<string>)

  datatype TokenRecord = TokenRecord(
    id: string,
    tenantUrl: string,
    accessToken: string,
    createdAt: string,
    updatedAt: string,
    portalUrl: Option<string>,
    banStatus: string,
    portalInfo: Option<PortalInfo>,
    emailNote: Option<string>,
    tagName: Option<string>,
    tagColor: Option<string>,
    authSession: string,
    suspensions: Option<string>,
    skipCheck: bool,
    balanceColorMode: Option<string>)

  datatype StoreError = DuplicateSession | TokenNotFound

  function ErrorMessage(e: StoreError): string {
    match e
    case DuplicateSession => "该 Session 已存在"
    case TokenNotFound => "未找到指定的 Token 记录"
  }

  // ---------------------------------------------------------------------------
  // Sessions and their uniqueness

  function Sessions(tokens: seq<TokenRecord>): set<string> {
    set t | t in tokens :: t.authSession
  }

  /** The duplicate test of an add and of the import loop: whether some
      stored record carries `session`. */
  function HasSession(tokens: seq<TokenRecord>, session: string): (b: bool)
    ensures b <==> exists i :: 0 <= i < |tokens| && tokens[i].authSession == session
    ensures b <==> session in Sessions(tokens)
  {
    if |tokens| == 0 then false
    else tokens[0].authSession == session || HasSession(tokens[1..], session)
  }

  /** No two records share an `auth_session`. */
  predicate UniqueSessions(tokens: seq<TokenRecord>) {
    forall i, j :: 0 <= i < j < |tokens| ==> tokens[i].authSession != tokens[j].authSession
  }

  /** How many records carry `session`. */
  function CountSession(tokens: seq<TokenRecord>, session: string): nat {
    if |tokens| == 0 then 0
    else (if tokens[0].authSession == session then 1 else 0) + CountSession(tokens[1..], session)
  }

  lemma {:induction false} CountSessionAppend(tokens: seq<TokenRecord>, t: TokenRecord, session: string)
    ensures CountSession(tokens + [t], session)
            == CountSession(tokens, session) + (if t.authSession == session then 1 else 0)
  {
    if |tokens| > 0 {
      assert (tokens + [t])[1..] == tokens[1..] + [t];
      CountSessionAppend(tokens[1..], t, session);
    }
  }

  lemma {:induction false} CountSessionAbsent(tokens: seq<TokenRecord>, session: string)
    requires !HasSession(tokens, session)
    ensures CountSession(tokens, session) == 0
  {
    if |tokens| > 0 {
      CountSessionAbsent(tokens[1..], session);
    }
  }

  // ---------------------------------------------------------------------------
  // add_token

  /** Appends `token` unless some stored record already has its
      `auth_session`, in which case nothing is written. */
  function AddToken(tokens: seq<TokenRecord>, token: TokenRecord): (r: Result<seq<TokenRecord>, StoreError>)
    ensures r.Failure? <==> exists i :: 0 <= i < |tokens| && tokens[i].authSession == token.authSession
    ensures r.Failure? ==> r.error == DuplicateSession
    ensures r.Success? ==> r.value == tokens + [token]
  {
    if HasSession(tokens, token.authSession) then Failure(DuplicateSession)
    else Success(tokens + [token])
  }

  /** Adding keeps the sessions unique. */
  lemma AddPreservesUniqueSessions(tokens: seq<TokenRecord>, token: TokenRecord)
    requires UniqueSessions(tokens)
    ensures AddToken(tokens, token).Success? ==> UniqueSessions(AddToken(tokens, token).value)
  {
  }

  /** After a successful add the store holds exactly one record with the
      added session, so a second add of the same session is refused. */
  lemma AddThenExactlyOne(tokens: seq<TokenRecord>, token: TokenRecord, again: TokenRecord)
    requires AddToken(tokens, token).Success?
    requires again.authSession == token.authSession
    ensures CountSession(AddToken(tokens, token).value, token.authSession) == 1
    ensures AddToken(AddToken(tokens, token).value, again) == Failure(DuplicateSession)
  {
    CountSessionAbsent(tokens, token.authSession);
    CountSessionAppend(tokens, token, token.authSession);
    var added := AddToken(tokens, token).value;
    assert added[|tokens|].authSession == again.authSession;
  }

  // ---------------------------------------------------------------------------
  // delete_token

  /** Removes every record whose id is `id`, keeping the others in their
      order; an id that no record carries is not an error. */
  function DeleteToken(tokens: seq<TokenRecord>, id: string): (r: seq<TokenRecord>)
    ensures forall t :: t in r <==> t in tokens && t.id != id
    ensures |r| <= |tokens|
  {
    if |tokens| == 0 then []
    else (if tokens[0].id != id then [tokens[0]] else []) + DeleteToken(tokens[1..], id)
  }

  /** Deleting from a concatenation deletes from each part: survivors keep
      their relative order. */
  lemma {:induction false} DeleteDistributes(a: seq<TokenRecord>, b: seq<TokenRecord>, id: string)
    ensures DeleteToken(a + b, id) == DeleteToken(a, id) + DeleteToken(b, id)
  {
    if |a| > 0 {
      assert (a + b)[1..] == a[1..] + b;
      DeleteDistributes(a[1..], b, id);
    } else {
      assert a + b == b;
    }
  }

  /** Deleting an id no record carries leaves the store as it was. */
  lemma {:induction false} DeleteAbsentUnchanged(tokens: seq<TokenRecord>, id: string)
    requires forall i :: 0 <= i < |tokens| ==> tokens[i].id != id
    ensures DeleteToken(tokens, id) == tokens
  {
    if |tokens| > 0 {
      DeleteAbsentUnchanged(tokens[1..], id);
      assert [tokens[0]] + tokens[1..] == tokens;
    }
  }

  /** Deleting twice is deleting once. */
  lemma DeleteIdempotent(tokens: seq<TokenRecord>, id: string)
    ensures DeleteToken(DeleteToken(tokens, id), id) == DeleteToken(tokens, id)
  {
    var r := DeleteToken(tokens, id);
    assert forall i :: 0 <= i < |r| ==> r[i] in r;
    DeleteAbsentUnchanged(r, id);
  }

  /** `a` occurs in `b` in order, possibly with gaps. */
  predicate IsSubsequence(a: seq<TokenRecord>, b: seq<TokenRecord>)
    decreases |b|
  {
    if |a| == 0 then true
    else if |b| == 0 then false
    else if a[0] == b[0] then IsSubsequence(a[1..], b[1..])
    else IsSubsequence(a, b[1..])
  }

  lemma {:induction false} SubsequenceOfTail(a: seq<TokenRecord>, b: seq<TokenRecord>)
    requires |b| > 0 && IsSubsequence(a, b[1..])
    ensures IsSubsequence(a, b)
    decreases |b|, 1
  {
    if |a| > 0 && a[0] == b[0] {
      SubsequenceDropHead(a, b[1..]);
    }
  }

  lemma {:induction false} SubsequenceDropHead(a: seq<TokenRecord>, b: seq<TokenRecord>)
    requires |a| > 0 && IsSubsequence(a, b)
    ensures IsSubsequence(a[1..], b)
    decreases |b|, 2
  {
    assert |b| > 0;
    if a[0] == b[0] {
      SubsequenceOfTail(a[1..], b);
    } else {
      SubsequenceDropHead(a, b[1..]);
      SubsequenceOfTail(a[1..], b);
    }
  }

  /** The survivors of a delete are the original records, in their original
      order. */
  lemma {:induction false} DeleteKeepsOrder(tokens: seq<TokenRecord>, id: string)
    ensures IsSubsequence(DeleteToken(tokens, id), tokens)
  {
    if |tokens| > 0 {
      DeleteKeepsOrder(tokens[1..], id);
      var rest := DeleteToken(tokens[1..], id);
      if tokens[0].id != id {
        assert DeleteToken(tokens, id) == [tokens[0]] + rest;
        assert ([tokens[0]] + rest)[1..] == rest;
      } else {
        assert DeleteToken(tokens, id) == rest;
        SubsequenceOfTail(rest, tokens);
      }
    }
  }

  /** Deleting keeps the sessions unique. */
  lemma {:induction false} DeletePreservesUniqueSessions(tokens: seq<TokenRecord>, id: string)
    requires UniqueSessions(tokens)
    ensures UniqueSessions(DeleteToken(tokens, id))
  {
    if |tokens| > 0 {
      DeletePreservesUniqueSessions(tokens[1..], id);
      var rest := DeleteToken(tokens[1..], id);
      if tokens[0].id != id {
        var r := [tokens[0]] + rest;
        forall i, j | 0 <= i < j < |r|
          ensures r[i].authSession != r[j].authSession
        {
          if i == 0 {
            assert r[j] in rest;
            var k :| 1 <= k < |tokens| && tokens[k] == r[j] by {
              assert r[j] in tokens[1..];
            }
          }
        }
      }
    }
  }

  // ---------------------------------------------------------------------------
  // update_token

  /** `k` is the first position holding `id`. */
  predicate IsFirstWithId(tokens: seq<TokenRecord>, id: string, k: nat) {
    k < |tokens| && tokens[k].id == id && forall j :: 0 <= j < k ==> tokens[j].id != id
  }

  /** The first position holding a record with id `id`, if there is one. */
  function FindId(tokens: seq<TokenRecord>, id: string): (r: Option<nat>)
    ensures r.Some? ==> IsFirstWithId(tokens, id, r.value)
    ensures r.None? ==> forall j :: 0 <= j < |tokens| ==> tokens[j].id != id
  {
    if |tokens| == 0 then None
    else if tokens[0].id == id then Some(0)
    else match FindId(tokens[1..], id)
      case None => None
      case Some(k) => Some(k + 1)
  }

  /** Replaces the first record with the token's id; when there is none the
      command fails and nothing is written. */
  function UpdateToken(tokens: seq<TokenRecord>, token: TokenRecord): (r: Result<seq<TokenRecord>, StoreError>)
    ensures r.Failure? <==> forall j :: 0 <= j < |tokens| ==> tokens[j].id != token.id
    ensures r.Failure? ==> r.error == TokenNotFound
    ensures r.Success? ==> |r.value| == |tokens|
    ensures r.Success? ==> exists k: nat :: IsFirstWithId(tokens, token.id, k) && r.value == tokens[k := token]
  {
    match FindId(tokens, token.id)
    case None => Failure(TokenNotFound)
    case Some(k) => Success(tokens[k := token])
  }

  function Ids(tokens: seq<TokenRecord>): seq<string> {
    seq(|tokens|, i requires 0 <= i < |tokens| => tokens[i].id)
  }

  /** An update changes only the first record with the token's id, and the
      sequence of ids is what it was. */
  lemma UpdateTouchesOnlyMatch(tokens: seq<TokenRecord>, token: TokenRecord)
    requires UpdateToken(tokens, token).Success?
    ensures var r := UpdateToken(tokens, token).value;
      && Ids(r) == Ids(tokens)
      && forall j :: 0 <= j < |tokens| && r[j] != tokens[j] ==> r[j] == token && IsFirstWithId(tokens, token.id, j)
  {
  }

  /** An update keeps the sessions unique when the new record's session is
      carried by no record other than the one it replaces. */
  lemma UpdatePreservesUniqueSessions(tokens: seq<TokenRecord>, token: TokenRecord)
    requires UniqueSessions(tokens)
    requires forall j :: 0 <= j < |tokens| && tokens[j].authSession == token.authSession
                         ==> IsFirstWithId(tokens, token.id, j)
    ensures UpdateToken(tokens, token).Success? ==> UniqueSessions(UpdateToken(tokens, token).value)
  {
    if UpdateToken(tokens, token).Success? {
      var k: nat :| IsFirstWithId(tokens, token.id, k) && UpdateToken(tokens, token).value == tokens[k := token];
      var r := tokens[k := token];
      forall i, j | 0 <= i < j < |r|
        ensures r[i].authSession != r[j].authSession
      {
        if i == k || j == k {
          var other := if i == k then j else i;
          assert other != k && r[other] == tokens[other];
        }
      }
    }
  }

  /** Update does not guard the session key: replacing a record by one that
      carries another record's session leaves two records sharing it. */
  lemma UpdateCanDuplicateSession(a: TokenRecord, b: TokenRecord)
    requires a.id != b.id && a.authSession != b.authSession
    ensures UniqueSessions([a, b])
    ensures UpdateToken([a, b], a.(authSession := b.authSession)).Success?
    ensures !UniqueSessions(UpdateToken([a, b], a.(authSession := b.authSession)).value)
  {
    var r := UpdateToken([a, b], a.(authSession := b.authSession)).value;
    assert IsFirstWithId([a, b], a.id, 0);
    assert r[0].authSession == r[1].authSession;
  }
}
