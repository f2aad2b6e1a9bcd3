/** The admin OAuth 2.1 authorization server as a transition system.

    Every locked section of app/admin_oauth.py is one event; an operation with several sections
    (consent form, code exchange, access-token check) leaves a continuation in `threads` between
    them, so runs interleave sections of different requests in any order.

    Hashing is symbolic: `Sha256(text)` is injective by construction, and the PKCE S256 transform
    is the constructor `S256`. Secrets drawn at random are event parameters that `Enabled` requires
    to be unused. The fields of `World` after `threads` are a history of what was issued; no section
    reads them to decide anything. */
module AdminOAuth {
  import opened Seqs
  import opened Texts

  const CODE_TTL_SEC: int := 5 * 60
  const ACCESS_TTL_SEC: int := 60 * 60
  const REFRESH_TTL_SEC: int := 30 * 24 * 3600
  const ACCESS_PREFIX := "rfa_at_"
  const REFRESH_PREFIX := "rfa_rt_"
  const MAX_GRANTS_PER_ADMIN: nat := 10
  const MAX_CLIENTS: nat := 80
  const KEEP_ROWS: nat := 200
  const LAST_USED_WRITE_EVERY_SEC: int := 300

  datatype Digest = NoDigest | Sha256(text: string)

  /** A code challenge: the S256 image of some verifier, or a text that is the image of none. */
  datatype Challenge = S256(verifier: string) | Opaque(text: string)

  /** A redirect URI: its text, and the parts the matching rules look at. */
  datatype Uri = Uri(text: string, scheme: string, host: string, path: string)

  datatype Client = Client(id: string, redirects: seq<Uri>, name: string, createdAt: int)

  datatype CodeRow = CodeRow(code: Digest, exp: int, clientId: string, redirectUri: string,
                             challenge: Challenge, adminId: string)

  datatype Grant = Grant(id: string, adminId: string, clientId: string, clientName: string,
                         accessHash: Digest, accessExp: int, refreshHash: Digest, refreshExp: int,
                         prevRefreshHash: Digest, createdAt: int, lastUsedAt: int)

  /** The fields of an authorization request; `resourceOk` says that its resource is absent or canonically ours. */
  datatype Form = Form(responseType: string, challengeMethod: string, challenge: Challenge,
                       clientId: string, redirect: Uri, resourceOk: bool)

  datatype Continuation =
    | Consenting(form: Form)
    | Exchanging(row: CodeRow, verifier: string, now: int)
    | Touching(grantId: string, now: int)

  datatype Kind = AccessToken | RefreshToken

  /** Which grant a token was issued for, and after how many rotations. */
  datatype Issue = Issue(family: string, kind: Kind, generation: nat)

  datatype Consent = Consent(clientId: string, redirectUri: string, challenge: Challenge, adminId: string, at: int)

  /** What a code exchange presented and when. */
  datatype Exchange = Exchange(code: string, verifier: string, now: int)

  /** History: `consents` by code, `spent` codes presented after their issue, `takers` the thread that found a code,
      `ledger` and its inverse `tokens`, `generations` the rotations of each grant so far, `origins` of each grant
      and `redeemed`, the grant each code was exchanged for. */
  datatype World = World(
    clients: seq<Client>, codes: seq<CodeRow>, grants: seq<Grant>, threads: map<nat, Continuation>,
    consents: map<string, Consent>, spent: set<string>, takers: map<string, nat>,
    ledger: map<string, Issue>, tokens: map<Issue, string>, generations: map<string, nat>,
    origins: map<string, Exchange>, redeemed: map<string, string>)

  datatype Event =
    | Register(clientId: string, redirects: seq<Uri>, name: string, now: int)
    | CheckConsent(tid: nat, form: Form)
    | StoreCode(tid: nat, login: Option<string>, code: string, now: int)
    | TakeCode(tid: nat, code: string, redirectUri: string, clientId: string, verifier: string, now: int)
    | StoreGrant(tid: nat, isAdmin: bool, grantId: string, access: string, refresh: string)
    | Refresh(token: string, clientId: string, isAdmin: bool, access: string, refresh: string, now: int)
    | ReadToken(tid: nat, token: string, now: int)
    | TouchGrant(tid: nat)
    | Revoke(token: string)
    | RevokeGrant(adminId: string, grantId: string)

  datatype Refusal =
    | MissingRedirect | RedirectNotAllowed | UnsupportedResponseType | PkceRequired | UnknownClient
    | RedirectMismatch | BadResource | BadCredentials | InvalidGrant | NoSuchGrant | InvalidToken

  datatype Reply =
    | Refused(why: Refusal)
    | Registered(clientId: string)
    | ConsentAccepted
    | CodeIssued(code: string)
    | CodeAccepted
    | TokensIssued(family: string, access: string, refresh: string)
    | Admitted(grant: Grant)
    | Done

  // ------------------------------------------------------------ redirect rules --

  predicate Loopback(host: string) {
    host == "localhost" || host == "127.0.0.1"
  }

  predicate EndsWith(text: string, tail: string) {
    |tail| <= |text| && text[|text| - |tail|..] == tail
  }

  predicate RedirectAllowed(u: Uri) {
    if u.scheme == "http" && Loopback(u.host) then
      EndsWith(if u.path == "" then "/" else u.path, "/callback")
    else
      && u.scheme == "https"
      && (u.host in {"claude.ai", "www.claude.ai", "claude.com", "www.claude.com"}
          || EndsWith(u.host, ".claude.ai") || EndsWith(u.host, ".anthropic.com"))
  }

  /** A registered redirect accepts itself and, on loopback, the same path under any port. */
  predicate RedirectMatches(registered: Uri, actual: Uri) {
    || registered.text == actual.text
    || (&& registered.scheme == "http" && actual.scheme == "http"
        && Loopback(registered.host) && Loopback(actual.host)
        && (if registered.path == "" then "/" else registered.path) == (if actual.path == "" then "/" else actual.path))
  }

  // -------------------------------------------------------------------- lookups --

  function CodeOf(r: CodeRow): Digest { r.code }
  function GrantIdOf(g: Grant): string { g.id }

  /** Index of the first client with this id, |clients| when there is none. */
  function FindClient(clients: seq<Client>, id: string): (i: nat)
    ensures i <= |clients|
    ensures i < |clients| ==> clients[i].id == id
    ensures forall k :: 0 <= k < i ==> clients[k].id != id
  {
    if clients == [] || clients[0].id == id then 0 else 1 + FindClient(clients[1..], id)
  }

  function FindCode(codes: seq<CodeRow>, code: Digest, now: int): (i: nat)
    ensures i <= |codes|
    ensures i < |codes| ==> codes[i].code == code && codes[i].exp > now
    ensures forall k :: 0 <= k < i ==> !(codes[k].code == code && codes[k].exp > now)
  {
    if codes == [] || (codes[0].code == code && codes[0].exp > now) then 0 else 1 + FindCode(codes[1..], code, now)
  }

  function FindReused(grants: seq<Grant>, digest: Digest): (i: nat)
    ensures i <= |grants|
    ensures i < |grants| ==> grants[i].prevRefreshHash == digest
    ensures forall k :: 0 <= k < i ==> grants[k].prevRefreshHash != digest
  {
    if grants == [] || grants[0].prevRefreshHash == digest then 0 else 1 + FindReused(grants[1..], digest)
  }

  function FindRefresh(grants: seq<Grant>, digest: Digest, now: int): (i: nat)
    ensures i <= |grants|
    ensures i < |grants| ==> grants[i].refreshHash == digest && grants[i].refreshExp > now
    ensures forall k :: 0 <= k < i ==> !(grants[k].refreshHash == digest && grants[k].refreshExp > now)
  {
    if grants == [] || (grants[0].refreshHash == digest && grants[0].refreshExp > now) then 0
    else 1 + FindRefresh(grants[1..], digest, now)
  }

  function FindAccess(grants: seq<Grant>, digest: Digest, now: int): (i: nat)
    ensures i <= |grants|
    ensures i < |grants| ==> grants[i].accessHash == digest && grants[i].accessExp > now
    ensures forall k :: 0 <= k < i ==> !(grants[k].accessHash == digest && grants[k].accessExp > now)
  {
    if grants == [] || (grants[0].accessHash == digest && grants[0].accessExp > now) then 0
    else 1 + FindAccess(grants[1..], digest, now)
  }

  // ------------------------------------------------------- rewritten row lists --

  function Unexpired(codes: seq<CodeRow>, now: int): seq<CodeRow> {
    Filter((r: CodeRow) => r.exp > now, codes)
  }

  function Mine(grants: seq<Grant>, adminId: string): seq<Grant> {
    Filter((g: Grant) => g.adminId == adminId, grants)
  }

  function WithoutIds(grants: seq<Grant>, drop: set<string>): seq<Grant> {
    Filter((g: Grant) => g.id !in drop, grants)
  }

  /** The ids of this admin's oldest grants that must go so that one more fits under the cap. */
  function Overflow(grants: seq<Grant>, adminId: string): set<string> {
    var mine := Mine(grants, adminId);
    var surplus := if |mine| < MAX_GRANTS_PER_ADMIN then 0 else |mine| - MAX_GRANTS_PER_ADMIN + 1;
    set i | 0 <= i < surplus :: mine[i].id
  }

  function AddGrant(grants: seq<Grant>, g: Grant): seq<Grant> {
    Last(WithoutIds(grants, Overflow(grants, g.adminId)) + [g], KEEP_ROWS)
  }

  function Rotated(g: Grant, access: string, refresh: string, now: int): Grant {
    g.(accessHash := Sha256(access), accessExp := now + ACCESS_TTL_SEC,
       prevRefreshHash := g.refreshHash,
       refreshHash := Sha256(refresh), refreshExp := now + REFRESH_TTL_SEC)
  }

  /** Every row with this id gets the new stamp; nothing else changes. */
  function Touched(grants: seq<Grant>, id: string, now: int): (r: seq<Grant>)
    ensures |r| == |grants|
    ensures forall i :: 0 <= i < |grants| ==>
      r[i] == if grants[i].id == id then grants[i].(lastUsedAt := now) else grants[i]
  {
    if grants == [] then [] else
      [if grants[0].id == id then grants[0].(lastUsedAt := now) else grants[0]] + Touched(grants[1..], id, now)
  }

  function WithoutToken(grants: seq<Grant>, digest: Digest): seq<Grant> {
    Filter((g: Grant) => g.accessHash != digest && g.refreshHash != digest, grants)
  }

  function WithoutGrant(grants: seq<Grant>, adminId: string, grantId: string): seq<Grant> {
    Filter((g: Grant) => !(g.id == grantId && g.adminId == adminId), grants)
  }

  // ----------------------------------------------------------------- the events --

  /** validate_authorize: the first check that fails decides the message. */
  function Validate(clients: seq<Client>, form: Form): Option<Refusal> {
    var i := FindClient(clients, form.clientId);
    if form.responseType != "code" then Some(UnsupportedResponseType)
    else if (form.challengeMethod != "" && form.challengeMethod != "S256") || form.challenge == Opaque("") then
      Some(PkceRequired)
    else if form.clientId == "" || i == |clients| then Some(UnknownClient)
    else if !RedirectAllowed(form.redirect)
            || !exists u :: u in clients[i].redirects && RedirectMatches(u, form.redirect) then Some(RedirectMismatch)
    else if !form.resourceOk then Some(BadResource)
    else None
  }

  /** Only an ASCII verifier can be hashed; any other raises before the comparison. */
  predicate Ascii(text: string) {
    forall c :: c in text ==> c < 128 as char
  }

  function RegisterStep(w: World, clientId: string, redirects: seq<Uri>, name: string, now: int): (World, Reply) {
    if redirects == [] then (w, Refused(MissingRedirect))
    else if |redirects| > 5 || exists u :: u in redirects && !RedirectAllowed(u) then (w, Refused(RedirectNotAllowed))
    else (w.(clients := Last(w.clients + [Client(clientId, redirects, name, now)], MAX_CLIENTS)), Registered(clientId))
  }

  function CheckConsentStep(w: World, tid: nat, form: Form): (World, Reply) {
    match Validate(w.clients, form)
    case Some(why) => (w, Refused(why))
    case None => (w.(threads := w.threads[tid := Consenting(form)]), ConsentAccepted)
  }

  function StoreCodeStep(w: World, tid: nat, login: Option<string>, code: string, now: int): (World, Reply)
    requires tid in w.threads && w.threads[tid].Consenting?
  {
    var form := w.threads[tid].form;
    var after := w.(threads := w.threads - {tid});
    match login
    case None => (after, Refused(BadCredentials))
    case Some(adminId) =>
      var row := CodeRow(Sha256(code), now + CODE_TTL_SEC, form.clientId, form.redirect.text, form.challenge, adminId);
      (after.(codes := Last(Unexpired(w.codes, now) + [row], KEEP_ROWS),
              consents := w.consents[code := Consent(form.clientId, form.redirect.text, form.challenge, adminId, now)]),
       CodeIssued(code))
  }

  function TakeCodeStep(w: World, tid: nat, code: string, redirectUri: string, clientId: string,
                        verifier: string, now: int): (World, Reply) {
    var i := FindCode(w.codes, Sha256(code), now);
    var kept := if i < |w.codes| then Unexpired(RemoveAt(w.codes, i), now) else Unexpired(w.codes, now);
    var after := w.(codes := Last(kept, KEEP_ROWS),
                    spent := if code in w.consents then w.spent + {code} else w.spent);
    if i == |w.codes| || w.codes[i].clientId != clientId || w.codes[i].redirectUri != redirectUri then
      (after, Refused(InvalidGrant))
    else if verifier == "" || !Ascii(verifier) || S256(verifier) != w.codes[i].challenge then
      (after, Refused(InvalidGrant))
    else (after.(threads := w.threads[tid := Exchanging(w.codes[i], verifier, now)], takers := w.takers[code := tid]),
          CodeAccepted)
  }

  function IssuedLedger(ledger: map<string, Issue>, family: string, n: nat, access: string, refresh: string): map<string, Issue> {
    ledger[access := Issue(family, AccessToken, n)][refresh := Issue(family, RefreshToken, n)]
  }

  function IssuedTokens(tokens: map<Issue, string>, family: string, n: nat, access: string, refresh: string): map<Issue, string> {
    tokens[Issue(family, AccessToken, n) := access][Issue(family, RefreshToken, n) := refresh]
  }

  /** The grant that a waiting exchange stores. */
  function NewGrant(clients: seq<Client>, x: Continuation, grantId: string, access: string, refresh: string): Grant
    requires x.Exchanging?
  {
    var c := FindClient(clients, x.row.clientId);
    Grant(grantId, x.row.adminId, x.row.clientId,
          if c < |clients| && clients[c].name != "" then clients[c].name else "AI klient",
          Sha256(access), x.now + ACCESS_TTL_SEC, Sha256(refresh), x.now + REFRESH_TTL_SEC, NoDigest, x.now, 0)
  }

  /** The world after an admin's exchange stored its grant. */
  function Granted(w: World, tid: nat, grantId: string, access: string, refresh: string): World
    requires tid in w.threads && w.threads[tid].Exchanging? && w.threads[tid].row.code.Sha256?
  {
    var x := w.threads[tid];
    w.(threads := w.threads - {tid},
       grants := AddGrant(w.grants, NewGrant(w.clients, x, grantId, access, refresh)),
       ledger := IssuedLedger(w.ledger, grantId, 0, access, refresh),
       tokens := IssuedTokens(w.tokens, grantId, 0, access, refresh),
       generations := w.generations[grantId := 0],
       origins := w.origins[grantId := Exchange(x.row.code.text, x.verifier, x.now)],
       redeemed := w.redeemed[x.row.code.text := grantId])
  }

  function StoreGrantStep(w: World, tid: nat, isAdmin: bool, grantId: string, access: string, refresh: string): (World, Reply)
    requires tid in w.threads && w.threads[tid].Exchanging? && w.threads[tid].row.code.Sha256?
  {
    if isAdmin then (Granted(w, tid, grantId, access, refresh), TokensIssued(grantId, access, refresh))
    else (w.(threads := w.threads - {tid}), Refused(InvalidGrant))
  }

  /** The world after the grant at `i` was rotated. */
  function RotatedWorld(w: World, i: nat, access: string, refresh: string, now: int): World
    requires i < |w.grants|
  {
    var f := w.grants[i].id;
    var n := (if f in w.generations then w.generations[f] else 0) + 1;
    w.(grants := w.grants[i := Rotated(w.grants[i], access, refresh, now)],
       ledger := IssuedLedger(w.ledger, f, n, access, refresh),
       tokens := IssuedTokens(w.tokens, f, n, access, refresh),
       generations := w.generations[f := n])
  }

  function RefreshStep(w: World, token: string, clientId: string, isAdmin: bool,
                       access: string, refresh: string, now: int): (World, Reply) {
    var digest := Sha256(token);
    var reused := FindReused(w.grants, digest);
    var i := FindRefresh(w.grants, digest, now);
    if reused < |w.grants| then (w.(grants := Last(RemoveAt(w.grants, reused), KEEP_ROWS)), Refused(InvalidGrant))
    else if i == |w.grants| || (clientId != "" && w.grants[i].clientId != clientId) then (w, Refused(InvalidGrant))
    else if !isAdmin then (w.(grants := Last(RemoveAt(w.grants, i), KEEP_ROWS)), Refused(InvalidGrant))
    else (RotatedWorld(w, i, access, refresh, now), TokensIssued(w.grants[i].id, access, refresh))
  }

  function ReadTokenStep(w: World, tid: nat, token: string, now: int): (World, Reply) {
    var i := FindAccess(w.grants, Sha256(token), now);
    if !StartsWith(token, ACCESS_PREFIX) || i == |w.grants| then (w, Refused(InvalidToken))
    else if now - w.grants[i].lastUsedAt >= LAST_USED_WRITE_EVERY_SEC then
      (w.(threads := w.threads[tid := Touching(w.grants[i].id, now)]), Admitted(w.grants[i]))
    else (w, Admitted(w.grants[i]))
  }

  function TouchGrantStep(w: World, tid: nat): (World, Reply)
    requires tid in w.threads && w.threads[tid].Touching?
  {
    (w.(threads := w.threads - {tid},
        grants := Last(Touched(w.grants, w.threads[tid].grantId, w.threads[tid].now), KEEP_ROWS)), Done)
  }

  function RevokeStep(w: World, token: string): (World, Reply) {
    (w.(grants := Last(WithoutToken(w.grants, Sha256(token)), KEEP_ROWS)), Done)
  }

  function RevokeGrantStep(w: World, adminId: string, grantId: string): (World, Reply) {
    var kept := WithoutGrant(w.grants, adminId, grantId);
    if |kept| == |w.grants| then (w, Refused(NoSuchGrant))
    else (w.(grants := Last(kept, KEEP_ROWS)), Done)
  }

  /** The secrets an event draws must be unused, and a continuation must belong to a waiting thread. */
  predicate Enabled(w: World, e: Event) {
    match e
    case Register(clientId, _, _, _) => forall c :: c in w.clients ==> c.id != clientId
    case CheckConsent(tid, _) => tid !in w.threads
    case StoreCode(tid, _, code, _) => tid in w.threads && w.threads[tid].Consenting? && code !in w.consents
    case TakeCode(tid, _, _, _, _, _) => tid !in w.threads
    case StoreGrant(tid, _, grantId, access, refresh) =>
      && tid in w.threads && w.threads[tid].Exchanging? && w.threads[tid].row.code.Sha256?
      && grantId !in w.generations && FreshPair(w, access, refresh)
    case Refresh(_, _, _, access, refresh, _) => FreshPair(w, access, refresh)
    case ReadToken(tid, _, _) => tid !in w.threads
    case TouchGrant(tid) => tid in w.threads && w.threads[tid].Touching?
    case Revoke(_) => true
    case RevokeGrant(_, _) => true
  }

  predicate FreshPair(w: World, access: string, refresh: string) {
    && access !in w.ledger && refresh !in w.ledger && access != refresh
    && StartsWith(access, ACCESS_PREFIX) && StartsWith(refresh, REFRESH_PREFIX)
  }

  function Step(w: World, e: Event): (World, Reply)
    requires Enabled(w, e)
  {
    match e
    case Register(clientId, redirects, name, now) => RegisterStep(w, clientId, redirects, name, now)
    case CheckConsent(tid, form) => CheckConsentStep(w, tid, form)
    case StoreCode(tid, login, code, now) => StoreCodeStep(w, tid, login, code, now)
    case TakeCode(tid, code, redirectUri, clientId, verifier, now) =>
      TakeCodeStep(w, tid, code, redirectUri, clientId, verifier, now)
    case StoreGrant(tid, isAdmin, grantId, access, refresh) => StoreGrantStep(w, tid, isAdmin, grantId, access, refresh)
    case Refresh(token, clientId, isAdmin, access, refresh, now) =>
      RefreshStep(w, token, clientId, isAdmin, access, refresh, now)
    case ReadToken(tid, token, now) => ReadTokenStep(w, tid, token, now)
    case TouchGrant(tid) => TouchGrantStep(w, tid)
    case Revoke(token) => RevokeStep(w, token)
    case RevokeGrant(adminId, grantId) => RevokeGrantStep(w, adminId, grantId)
  }

  const Empty: World := World([], [], [], map[], map[], {}, map[], map[], map[], map[], map[], map[])
}
