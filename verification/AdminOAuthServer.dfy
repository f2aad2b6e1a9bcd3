/** The server's code: the three stored lists and one method per locked section. Every method does to the lists
    exactly what its event does to the world, so the runs of these methods are the runs of AdminOAuthRuns. */
module AdminOAuthServer {
  import opened Seqs
  import opened Texts
  import opened AdminOAuth

  /** The loop of `_client`: the first client with this id. */
  method LookUpClient(clients: seq<Client>, clientId: string) returns (i: nat)
    ensures i == FindClient(clients, clientId)
  {
    i := 0;
    while i < |clients| && clients[i].id != clientId
      invariant i <= |clients| && FindClient(clients, clientId) == i + FindClient(clients[i..], clientId)
    {
      i := i + 1;
    }
  }

  /** The search of exchange_code: the first row of this code that has not expired. */
  method LookUpCode(codes: seq<CodeRow>, code: Digest, now: int) returns (i: nat)
    ensures i == FindCode(codes, code, now)
  {
    i := 0;
    while i < |codes| && !(codes[i].code == code && codes[i].exp > now)
      invariant i <= |codes| && FindCode(codes, code, now) == i + FindCode(codes[i..], code, now)
    {
      i := i + 1;
    }
  }

  /** The first search of refresh_tokens: the row that had this token before. */
  method LookUpReused(grants: seq<Grant>, digest: Digest) returns (i: nat)
    ensures i == FindReused(grants, digest)
  {
    i := 0;
    while i < |grants| && grants[i].prevRefreshHash != digest
      invariant i <= |grants| && FindReused(grants, digest) == i + FindReused(grants[i..], digest)
    {
      i := i + 1;
    }
  }

  /** The second: the row that has it now, unexpired. */
  method LookUpRefresh(grants: seq<Grant>, digest: Digest, now: int) returns (i: nat)
    ensures i == FindRefresh(grants, digest, now)
  {
    i := 0;
    while i < |grants| && !(grants[i].refreshHash == digest && grants[i].refreshExp > now)
      invariant i <= |grants| && FindRefresh(grants, digest, now) == i + FindRefresh(grants[i..], digest, now)
    {
      i := i + 1;
    }
  }

  lemma FilterNext<T(!new)>(f: T -> bool, rows: seq<T>, i: nat)
    requires i < |rows|
    ensures Filter(f, rows[..i + 1]) == if f(rows[i]) then Filter(f, rows[..i]) + [rows[i]] else Filter(f, rows[..i])
  {
    assert rows[..i + 1] == rows[..i] + [rows[i]];
    FilterConcat(f, rows[..i], [rows[i]]);
  }

  /** The rows of codes written back: not expired and not at the given place. */
  method KeepCodes(rows: seq<CodeRow>, found: nat, now: int) returns (kept: seq<CodeRow>)
    ensures kept == Unexpired(if found < |rows| then RemoveAt(rows, found) else rows, now)
  {
    kept := [];
    ghost var rest := if found < |rows| then RemoveAt(rows, found) else rows;
    for i := 0 to |rows|
      invariant kept == Unexpired(rest[..if found < i then i - 1 else i], now)
    {
      if i != found {
        FilterNext((r: CodeRow) => r.exp > now, rest, if found < i then i - 1 else i);
        if rows[i].exp > now {
          kept := kept + [rows[i]];
        }
      }
    }
    assert rest[..|rest|] == rest;
  }

  /** The rows without the one found. */
  method DropRow(rows: seq<Grant>, found: nat) returns (kept: seq<Grant>)
    requires found < |rows|
    ensures kept == RemoveAt(rows, found)
  {
    kept := [];
    for i := 0 to |rows|
      invariant kept == if i <= found then rows[..i] else rows[..found] + rows[found + 1..i]
    {
      if i != found {
        kept := kept + [rows[i]];
      }
    }
  }

  /** The comprehension of revoke. */
  method DropToken(rows: seq<Grant>, digest: Digest) returns (kept: seq<Grant>)
    ensures kept == WithoutToken(rows, digest)
  {
    kept := [];
    for i := 0 to |rows|
      invariant kept == WithoutToken(rows[..i], digest)
    {
      FilterNext((g: Grant) => g.accessHash != digest && g.refreshHash != digest, rows, i);
      if rows[i].accessHash != digest && rows[i].refreshHash != digest {
        kept := kept + [rows[i]];
      }
    }
    assert rows[..|rows|] == rows;
  }

  /** The comprehension of revoke_grant. */
  method DropGrant(rows: seq<Grant>, adminId: string, grantId: string) returns (kept: seq<Grant>)
    ensures kept == WithoutGrant(rows, adminId, grantId)
  {
    kept := [];
    for i := 0 to |rows|
      invariant kept == WithoutGrant(rows[..i], adminId, grantId)
    {
      FilterNext((g: Grant) => !(g.id == grantId && g.adminId == adminId), rows, i);
      if !(rows[i].id == grantId && rows[i].adminId == adminId) {
        kept := kept + [rows[i]];
      }
    }
    assert rows[..|rows|] == rows;
  }

  /** The unlocked loop of authenticate_token: the first row with this hash that has not expired. */
  method LookUpAccess(grants: seq<Grant>, digest: Digest, now: int) returns (i: nat)
    ensures i == FindAccess(grants, digest, now)
  {
    i := 0;
    while i < |grants| && !(grants[i].accessHash == digest && grants[i].accessExp > now)
      invariant i <= |grants| && FindAccess(grants, digest, now) == i + FindAccess(grants[i..], digest, now)
    {
      i := i + 1;
    }
  }

  /** The locked loop of authenticate_token: stamp every row with the id read before. */
  method StampRows(rows: seq<Grant>, grantId: string, now: int) returns (grants: seq<Grant>)
    ensures grants == Touched(rows, grantId, now)
  {
    grants := rows;
    for i := 0 to |rows|
      invariant |grants| == |rows|
      invariant forall k :: 0 <= k < i ==> grants[k] == Touched(rows, grantId, now)[k]
      invariant forall k :: i <= k < |grants| ==> grants[k] == rows[k]
    {
      if grants[i].id == grantId {
        grants := grants[i := grants[i].(lastUsedAt := now)];
      }
    }
  }

  method BuildGrant(clients: seq<Client>, row: CodeRow, ghost verifier: string, now: int,
                    grantId: string, access: string, refresh: string) returns (grant: Grant)
    ensures grant == NewGrant(clients, Exchanging(row, verifier, now), grantId, access, refresh)
  {
    var c := LookUpClient(clients, row.clientId);
    var name := if c < |clients| && clients[c].name != "" then clients[c].name else "AI klient";
    grant := Grant(grantId, row.adminId, row.clientId, name, Sha256(access), now + ACCESS_TTL_SEC,
                   Sha256(refresh), now + REFRESH_TTL_SEC, NoDigest, now, 0);
  }

  /** The ids that the admin's new grant pushes out. */
  method Surplus(rows: seq<Grant>, adminId: string) returns (drop: set<string>)
    ensures drop == Overflow(rows, adminId)
  {
    var mine := [];
    for i := 0 to |rows|
      invariant mine == Mine(rows[..i], adminId)
    {
      FilterNext((g: Grant) => g.adminId == adminId, rows, i);
      if rows[i].adminId == adminId {
        mine := mine + [rows[i]];
      }
    }
    assert rows[..|rows|] == rows;
    var surplus := if |mine| < MAX_GRANTS_PER_ADMIN then 0 else |mine| - MAX_GRANTS_PER_ADMIN + 1;
    drop := {};
    for i := 0 to surplus
      invariant drop == set k | 0 <= k < i :: mine[k].id
    {
      drop := drop + {mine[i].id};
    }
  }

  /** Evict the admin's oldest grants over the cap, append the new one, keep the last 200 rows. */
  method AppendGrant(rows: seq<Grant>, grant: Grant) returns (grants: seq<Grant>)
    ensures grants == AddGrant(rows, grant)
  {
    var drop := Surplus(rows, grant.adminId);
    var kept := [];
    for i := 0 to |rows|
      invariant kept == WithoutIds(rows[..i], drop)
    {
      FilterNext((g: Grant) => g.id !in drop, rows, i);
      if rows[i].id !in drop {
        kept := kept + [rows[i]];
      }
    }
    assert rows[..|rows|] == rows;
    grants := Last(kept + [grant], KEEP_ROWS);
  }

  class Server {
    var clients: seq<Client>
    var codes: seq<CodeRow>
    var grants: seq<Grant>
    ghost var world: World

    ghost predicate Valid()
      reads this
    {
      world.clients == clients && world.codes == codes && world.grants == grants && |grants| <= KEEP_ROWS
    }

    constructor ()
      ensures Valid() && world == Empty
    {
      clients, codes, grants := [], [], [];
      world := Empty;
    }

    method RegisterClient(clientId: string, redirects: seq<Uri>, name: string, now: int) returns (reply: Reply)
      requires Valid() && Enabled(world, Register(clientId, redirects, name, now))
      modifies this
      ensures Valid() && (world, reply) == RegisterStep(old(world), clientId, redirects, name, now)
    {
      if redirects == [] {
        return Refused(MissingRedirect);
      }
      if |redirects| > 5 || exists u :: u in redirects && !RedirectAllowed(u) {
        return Refused(RedirectNotAllowed);
      }
      clients := Last(clients + [Client(clientId, redirects, name, now)], MAX_CLIENTS);
      world := RegisterStep(world, clientId, redirects, name, now).0;
      return Registered(clientId);
    }

    method CheckConsentForm(tid: nat, form: Form) returns (reply: Reply)
      requires Valid() && Enabled(world, CheckConsent(tid, form))
      modifies this`world
      ensures Valid() && (world, reply) == CheckConsentStep(old(world), tid, form)
    {
      var i := LookUpClient(clients, form.clientId);
      reply := ConsentAccepted;
      if form.responseType != "code" {
        reply := Refused(UnsupportedResponseType);
      } else if (form.challengeMethod != "" && form.challengeMethod != "S256") || form.challenge == Opaque("") {
        reply := Refused(PkceRequired);
      } else if form.clientId == "" || i == |clients| {
        reply := Refused(UnknownClient);
      } else if !RedirectAllowed(form.redirect)
                || !exists u :: u in clients[i].redirects && RedirectMatches(u, form.redirect) {
        reply := Refused(RedirectMismatch);
      } else if !form.resourceOk {
        reply := Refused(BadResource);
      }
      assert reply == CheckConsentStep(world, tid, form).1;
      world := CheckConsentStep(world, tid, form).0;
    }

    method CompleteAuthorize(tid: nat, form: Form, login: Option<string>, code: string, now: int) returns (reply: Reply)
      requires Valid() && Enabled(world, StoreCode(tid, login, code, now)) && world.threads[tid] == Consenting(form)
      modifies this
      ensures Valid() && (world, reply) == StoreCodeStep(old(world), tid, login, code, now)
    {
      reply := Refused(BadCredentials);
      if login.Some? {
        var row := CodeRow(Sha256(code), now + CODE_TTL_SEC, form.clientId, form.redirect.text, form.challenge, login.value);
        var kept := KeepCodes(codes, |codes|, now);
        codes := Last(kept + [row], KEEP_ROWS);
        reply := CodeIssued(code);
      }
      world := StoreCodeStep(world, tid, login, code, now).0;
    }

    /** First section of an exchange, and the checks on what it found. */
    method ExchangeTakesCode(tid: nat, code: string, redirectUri: string, clientId: string, verifier: string, now: int)
      returns (reply: Reply, found: Option<CodeRow>)
      requires Valid() && Enabled(world, TakeCode(tid, code, redirectUri, clientId, verifier, now))
      modifies this
      ensures Valid() && (world, reply) == TakeCodeStep(old(world), tid, code, redirectUri, clientId, verifier, now)
      ensures reply == CodeAccepted ==> found.Some? && world.threads[tid] == Exchanging(found.value, verifier, now)
    {
      world := TakeCodeStep(world, tid, code, redirectUri, clientId, verifier, now).0;
      var i := LookUpCode(codes, Sha256(code), now);
      var kept := KeepCodes(codes, i, now);
      found := None;
      reply := Refused(InvalidGrant);
      if i < |codes| {
        found := Some(codes[i]);
        if found.value.clientId == clientId && found.value.redirectUri == redirectUri
           && verifier != "" && Ascii(verifier) && S256(verifier) == found.value.challenge {
          reply := CodeAccepted;
        }
      }
      codes := Last(kept, KEEP_ROWS);
    }

    /** Second section of an exchange, with the answer of the admin check. */
    method ExchangeStoresGrant(tid: nat, row: CodeRow, verifier: string, now: int, isAdmin: bool,
                               grantId: string, access: string, refresh: string) returns (reply: Reply)
      requires Valid() && Enabled(world, StoreGrant(tid, isAdmin, grantId, access, refresh))
      requires world.threads[tid] == Exchanging(row, verifier, now)
      modifies this
      ensures Valid() && (world, reply) == StoreGrantStep(old(world), tid, isAdmin, grantId, access, refresh)
    {
      if isAdmin {
        var grant := BuildGrant(clients, row, verifier, now, grantId, access, refresh);
        grants := AppendGrant(grants, grant);
        reply := TokensIssued(grantId, access, refresh);
      } else {
        reply := Refused(InvalidGrant);
      }
      world := StoreGrantStep(world, tid, isAdmin, grantId, access, refresh).0;
    }

    method RefreshTokens(token: string, clientId: string, isAdmin: bool, access: string, refresh: string, now: int)
      returns (reply: Reply)
      requires Valid() && Enabled(world, Refresh(token, clientId, isAdmin, access, refresh, now))
      modifies this
      ensures Valid() && (world, reply) == RefreshStep(old(world), token, clientId, isAdmin, access, refresh, now)
    {
      world := RefreshStep(world, token, clientId, isAdmin, access, refresh, now).0;
      var digest := Sha256(token);
      var reused := LookUpReused(grants, digest);
      if reused < |grants| {
        var kept := DropRow(grants, reused);
        grants := Last(kept, KEEP_ROWS);
        return Refused(InvalidGrant);
      }
      var i := LookUpRefresh(grants, digest, now);
      if i == |grants| || (clientId != "" && grants[i].clientId != clientId) {
        return Refused(InvalidGrant);
      }
      if !isAdmin {
        var kept := DropRow(grants, i);
        grants := Last(kept, KEEP_ROWS);
        return Refused(InvalidGrant);
      }
      var found := grants[i];
      var rows := grants[i := found.(accessHash := Sha256(access), accessExp := now + ACCESS_TTL_SEC,
                                     prevRefreshHash := found.refreshHash,
                                     refreshHash := Sha256(refresh), refreshExp := now + REFRESH_TTL_SEC)];
      grants := Last(rows, KEEP_ROWS);
      return TokensIssued(found.id, access, refresh);
    }

    method AuthenticateToken(tid: nat, token: string, now: int) returns (reply: Reply)
      requires Valid() && Enabled(world, ReadToken(tid, token, now))
      modifies this`world
      ensures Valid() && (world, reply) == ReadTokenStep(old(world), tid, token, now)
    {
      var i := LookUpAccess(grants, Sha256(token), now);
      reply := if !StartsWith(token, ACCESS_PREFIX) || i == |grants| then Refused(InvalidToken) else Admitted(grants[i]);
      world := ReadTokenStep(world, tid, token, now).0;
    }

    method WriteLastUsed(tid: nat, grantId: string, now: int) returns (reply: Reply)
      requires Valid() && Enabled(world, TouchGrant(tid)) && world.threads[tid] == Touching(grantId, now)
      modifies this
      ensures Valid() && (world, reply) == TouchGrantStep(old(world), tid)
    {
      var rows := StampRows(grants, grantId, now);
      grants := Last(rows, KEEP_ROWS);
      world := TouchGrantStep(world, tid).0;
      return Done;
    }

    method RevokeToken(token: string) returns (reply: Reply)
      requires Valid()
      modifies this
      ensures Valid() && (world, reply) == RevokeStep(old(world), token)
    {
      world := RevokeStep(world, token).0;
      var kept := DropToken(grants, Sha256(token));
      grants := Last(kept, KEEP_ROWS);
      return Done;
    }

    method RevokeGrantById(adminId: string, grantId: string) returns (reply: Reply)
      requires Valid()
      modifies this
      ensures Valid() && (world, reply) == RevokeGrantStep(old(world), adminId, grantId)
    {
      world := RevokeGrantStep(world, adminId, grantId).0;
      var kept := DropGrant(grants, adminId, grantId);
      if |kept| == |grants| {
        return Refused(NoSuchGrant);
      }
      grants := Last(kept, KEEP_ROWS);
      return Done;
    }
  }
}
