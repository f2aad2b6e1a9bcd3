/** How long the tokens of the admin OAuth server live: counted from the event that issued them, over whole runs. */
module AdminOAuthTokens {
  import opened Seqs
  import opened Texts
  import opened AdminOAuth
  import opened AdminOAuthInvariant
  import opened AdminOAuthRuns

  // ------------------------------------------------------------------ where rows come from --

  /** The row with everything but its last-used stamp. */
  ghost predicate SameRow(g: Grant, h: Grant) { g == h.(lastUsedAt := g.lastUsedAt) }

  ghost predicate Kept(before: seq<Grant>, g: Grant) {
    exists k :: 0 <= k < |before| && SameRow(g, before[k])
  }

  /** The clock of an event that issues tokens: its own, or that of the exchange that has been waiting. */
  ghost function Clock(w: World, e: Event): int
    requires Enabled(w, e) && (e.Refresh? || e.StoreGrant?)
  {
    if e.Refresh? then e.now else w.threads[e.tid].now
  }

  /** The row holds the tokens that this event issued to its family, and lets them live as long as they shall. */
  ghost predicate Minted(w: World, e: Event, g: Grant) {
    && Enabled(w, e) && (e.Refresh? || e.StoreGrant?)
    && Step(w, e).1 == TokensIssued(g.id, e.access, e.refresh)
    && g.accessHash == Sha256(e.access) && g.accessExp == Clock(w, e) + ACCESS_TTL_SEC
    && g.refreshHash == Sha256(e.refresh) && g.refreshExp == Clock(w, e) + REFRESH_TTL_SEC
  }

  lemma SubRowsAreKept(before: seq<Grant>, after: seq<Grant>, g: Grant)
    requires g in after && forall x :: x in after ==> x in before
    ensures Kept(before, g)
  {
    var k :| 0 <= k < |before| && before[k] == g;
    assert SameRow(g, before[k]);
  }

  lemma FilteredRowsAreKept(before: seq<Grant>, f: Grant -> bool, g: Grant)
    requires g in Last(Filter(f, before), KEEP_ROWS)
    ensures Kept(before, g)
  {
    FilterMembers(f, before);
    LastIsPart(Filter(f, before), KEEP_ROWS);
    SubRowsAreKept(before, Last(Filter(f, before), KEEP_ROWS), g);
  }

  lemma LastIsPart(rows: seq<Grant>, n: nat)
    ensures forall x :: x in Last(rows, n) ==> x in rows
  {
  }

  lemma RotatedRow(w: World, e: Event, i: nat, g: Grant)
    requires e.Refresh? && Enabled(w, e) && i < |w.grants| && g in RotatedWorld(w, i, e.access, e.refresh, e.now).grants
    requires Step(w, e).1 == TokensIssued(w.grants[i].id, e.access, e.refresh)
    ensures Kept(w.grants, g) || Minted(w, e, g)
  {
    var after := RotatedWorld(w, i, e.access, e.refresh, e.now).grants;
    var k :| 0 <= k < |after| && after[k] == g;
    if k != i { assert SameRow(g, w.grants[k]); }
  }

  lemma RefreshRotates(w: World, e: Event) returns (i: nat)
    requires e.Refresh? && Enabled(w, e) && |w.grants| <= KEEP_ROWS && Step(w, e).1.TokensIssued?
    ensures i < |w.grants| && Step(w, e).0 == RotatedWorld(w, i, e.access, e.refresh, e.now)
    ensures Step(w, e).1 == TokensIssued(w.grants[i].id, e.access, e.refresh)
  {
    RefreshReply(w, e.token, e.clientId, e.isAdmin, e.access, e.refresh, e.now);
    RefreshCases(w, e);
    i := FindRefresh(w.grants, Sha256(e.token), e.now);
  }

  /** At most one row was removed. */
  ghost predicate OneRowLess(w: World, v: World) {
    v == w || exists i :: 0 <= i < |w.grants| && v == w.(grants := RemoveAt(w.grants, i))
  }

  lemma RowRemoved(w: World, i: nat)
    requires i < |w.grants| <= KEEP_ROWS
    ensures OneRowLess(w, w.(grants := Last(RemoveAt(w.grants, i), KEEP_ROWS)))
  {
  }

  lemma RefusedStep(w: World, token: string, clientId: string, isAdmin: bool, access: string, refresh: string, now: int)
    requires |w.grants| <= KEEP_ROWS
    ensures var (v, reply) := RefreshStep(w, token, clientId, isAdmin, access, refresh, now);
            (reply.TokensIssued? || OneRowLess(w, v))
  {
    var reused, i := FindReused(w.grants, Sha256(token)), FindRefresh(w.grants, Sha256(token), now);
    if reused < |w.grants| { RowRemoved(w, reused); }
    if i < |w.grants| { RowRemoved(w, i); }
  }

  lemma LessIsPart(w: World, v: World)
    requires OneRowLess(w, v)
    ensures v.generations == w.generations && forall g :: g in v.grants ==> g in w.grants
  {
    if v != w {
      var i :| 0 <= i < |w.grants| && v == w.(grants := RemoveAt(w.grants, i));
      RestIsPart(w.grants, i);
    }
  }

  lemma RefreshRemoves(w: World, e: Event, v: World)
    requires e.Refresh? && Enabled(w, e) && |w.grants| <= KEEP_ROWS && !Step(w, e).1.TokensIssued?
    requires v == Step(w, e).0
    ensures v.generations == w.generations && forall g :: g in v.grants ==> g in w.grants
  {
    RefusedStep(w, e.token, e.clientId, e.isAdmin, e.access, e.refresh, e.now);
    LessIsPart(w, v);
  }

  lemma RestIsPart(rows: seq<Grant>, i: nat)
    requires i < |rows|
    ensures forall x :: x in RemoveAt(rows, i) ==> x in rows
  {
  }

  lemma RefreshReply(w: World, token: string, clientId: string, isAdmin: bool, access: string, refresh: string, now: int)
    ensures var reused, i := FindReused(w.grants, Sha256(token)), FindRefresh(w.grants, Sha256(token), now);
            RefreshStep(w, token, clientId, isAdmin, access, refresh, now).1
            == if reused == |w.grants| && i < |w.grants| && (clientId == "" || w.grants[i].clientId == clientId) && isAdmin
               then TokensIssued(w.grants[i].id, access, refresh) else Refused(InvalidGrant)
  {
  }

  lemma RefreshedRow(w: World, e: Event, g: Grant)
    requires e.Refresh? && Enabled(w, e) && |w.grants| <= KEEP_ROWS && g in Step(w, e).0.grants
    ensures Kept(w.grants, g) || Minted(w, e, g)
  {
    if Step(w, e).1.TokensIssued? {
      var i := RefreshRotates(w, e);
      RotatedRow(w, e, i, g);
    } else {
      RefreshRemoves(w, e, Step(w, e).0);
      SubRowsAreKept(w.grants, Step(w, e).0.grants, g);
    }
  }

  lemma StoredRow(w: World, e: Event, g: Grant)
    requires e.StoreGrant? && Enabled(w, e) && |w.grants| <= KEEP_ROWS && g in Step(w, e).0.grants
    ensures Kept(w.grants, g) || Minted(w, e, g)
  {
    StoreGrantCases(w, e);
    if e.isAdmin {
      var added := NewGrant(w.clients, w.threads[e.tid], e.grantId, e.access, e.refresh);
      if g != added { AddedRow(w.grants, added, g); }
    } else {
      SubRowsAreKept(w.grants, w.grants, g);
    }
  }

  lemma AddedRow(grants: seq<Grant>, added: Grant, g: Grant)
    requires g in AddGrant(grants, added) && g != added
    ensures Kept(grants, g)
  {
    var f := (x: Grant) => x.id !in Overflow(grants, added.adminId);
    FilterMembers(f, grants);
    assert g in WithoutIds(grants, Overflow(grants, added.adminId));
    SubRowsAreKept(grants, WithoutIds(grants, Overflow(grants, added.adminId)), g);
  }

  lemma TouchedRow(w: World, e: Event, g: Grant)
    requires e.TouchGrant? && Enabled(w, e) && |w.grants| <= KEEP_ROWS && g in Step(w, e).0.grants
    ensures Kept(w.grants, g)
  {
    TouchCases(w, e.tid);
    var after := Touched(w.grants, w.threads[e.tid].grantId, w.threads[e.tid].now);
    var k :| 0 <= k < |after| && after[k] == g;
    assert SameRow(g, w.grants[k]);
  }

  lemma RevokedRow(w: World, e: Event, g: Grant)
    requires (e.Revoke? || e.RevokeGrant?) && Enabled(w, e) && g in Step(w, e).0.grants
    ensures Kept(w.grants, g)
  {
    if e.Revoke? {
      RevokeIsFilter(w, e.token);
      FilteredRowsAreKept(w.grants, (x: Grant) => x.accessHash != Sha256(e.token) && x.refreshHash != Sha256(e.token), g);
    } else {
      RevokeGrantIsFilter(w, e.adminId, e.grantId);
      if g in w.grants {
        SubRowsAreKept(w.grants, w.grants, g);
      } else {
        FilteredRowsAreKept(w.grants, (x: Grant) => !(x.id == e.grantId && x.adminId == e.adminId), g);
      }
    }
  }

  /** Every row of a store was there before, or holds the tokens just issued. */
  lemma RowIsKeptOrMinted(w: World, e: Event, g: Grant)
    requires Inv(w) && Enabled(w, e) && g in Step(w, e).0.grants
    ensures Kept(w.grants, g) || Minted(w, e, g)
  {
    if e.Refresh? {
      RefreshedRow(w, e, g);
    } else if e.StoreGrant? {
      StoredRow(w, e, g);
    } else if e.TouchGrant? {
      TouchedRow(w, e, g);
    } else if e.Revoke? || e.RevokeGrant? {
      RevokedRow(w, e, g);
    } else {
      OtherRowsStay(w, e);
      SubRowsAreKept(w.grants, w.grants, g);
    }
  }

  lemma OtherRowsStay(w: World, e: Event)
    requires Enabled(w, e) && |w.codes| <= KEEP_ROWS
    requires e.Register? || e.CheckConsent? || e.ReadToken? || e.StoreCode? || e.TakeCode?
    ensures Step(w, e).0.grants == w.grants
  {
    if e.TakeCode? {
      TakeCodeCases(w, e);
    } else if !e.StoreCode? {
      ReadersChangeNoRows(w, e);
    }
  }

  /** Over a run: the event that issued the tokens of a stored grant. */
  lemma {:induction false} RowHasMint(ws: seq<World>, es: seq<Event>, k: nat, g: Grant) returns (i: nat)
    requires IsRun(ws, es) && k < |ws| && g in ws[k].grants
    ensures i < k && Minted(ws[i], es[i], g)
  {
    i := k - 1;
    RunKeepsInv(ws, es, i);
    RowIsKeptOrMinted(ws[i], es[i], g);
    if !Minted(ws[i], es[i], g) {
      var n :| 0 <= n < |ws[i].grants| && SameRow(g, ws[i].grants[n]);
      i := RowHasMint(ws, es, i, ws[i].grants[n]);
    }
  }

  // ------------------------------------------------------------------ issuing events --

  /** Step `i` issued this token. */
  ghost predicate Issued(ws: seq<World>, es: seq<Event>, i: int, token: string, kind: Kind)
    requires IsRun(ws, es)
  {
    && 0 <= i < |es| && Step(ws[i], es[i]).1.TokensIssued?
    && token == if kind == AccessToken then Step(ws[i], es[i]).1.access else Step(ws[i], es[i]).1.refresh
  }

  /** Step `j` accepted the code for which step `i` stores the grant: the same request, waiting ever since. */
  ghost predicate Exchanged(ws: seq<World>, es: seq<Event>, j: int, i: int)
    requires IsRun(ws, es)
  {
    && 0 <= j < i < |es| && es[j].TakeCode? && es[i].StoreGrant? && es[j].tid == es[i].tid
    && Step(ws[j], es[j]).1 == CodeAccepted && forall m :: j < m <= i ==> es[j].tid in ws[m].threads
  }

  /** The time of an issuing step: that of the refresh, or of the exchange. */
  ghost predicate IssueTime(ws: seq<World>, es: seq<Event>, i: int, now: int)
    requires IsRun(ws, es)
  {
    && 0 <= i < |es|
    && ((es[i].Refresh? && es[i].now == now) || exists j :: Exchanged(ws, es, j, i) && es[j].now == now)
  }

  /** A waiting request keeps waiting with the same data. */
  lemma ThreadStays(w: World, e: Event, t: nat)
    requires Enabled(w, e) && |w.codes| <= KEEP_ROWS && |w.grants| <= KEEP_ROWS
    requires t in w.threads && t in Step(w, e).0.threads
    ensures Step(w, e).0.threads[t] == w.threads[t]
  {
    match e
    case TakeCode(_, _, _, _, _, _) => TakeCodeCases(w, e);
    case StoreGrant(_, _, _, _, _) => StoreGrantCases(w, e);
    case Refresh(token, clientId, isAdmin, access, refresh, now) =>
      RefreshTouchesGrantsOnly(w, token, clientId, isAdmin, access, refresh, now);
    case Revoke(token) => RevokeIsFilter(w, token);
    case RevokeGrant(adminId, grantId) => RevokeGrantIsFilter(w, adminId, grantId);
    case ReadToken(tid, token, now) => ReadCases(w, tid, token, now);
    case TouchGrant(tid) => TouchCases(w, tid);
    case CheckConsent(_, _) =>
    case Register(_, _, _, _) =>
    case StoreCode(_, _, _, _) =>
  }

  lemma TakenIsWaiting(w: World, e: Event)
    requires e.TakeCode? && Enabled(w, e) && Step(w, e).1 == CodeAccepted
    ensures e.tid in Step(w, e).0.threads && Step(w, e).0.threads[e.tid].Exchanging?
    ensures Step(w, e).0.threads[e.tid].now == e.now
  {
  }

  lemma {:induction false} ThreadWaits(ws: seq<World>, es: seq<Event>, j: nat, n: nat, tid: nat)
    requires IsRun(ws, es) && j <= n < |ws| && forall m :: j <= m <= n ==> tid in ws[m].threads
    ensures ws[n].threads[tid] == ws[j].threads[tid]
  {
    if j < n {
      ThreadWaits(ws, es, j, n - 1, tid);
      StaysInRun(ws, es, n - 1, tid);
    }
  }

  /** An exchange waits with the time of its code. */
  lemma WaitingSince(ws: seq<World>, es: seq<Event>, j: nat, i: nat)
    requires IsRun(ws, es) && Exchanged(ws, es, j, i)
    ensures es[i].tid in ws[i].threads && ws[i].threads[es[i].tid].Exchanging? && ws[i].threads[es[i].tid].now == es[j].now
  {
    TakenIsWaiting(ws[j], es[j]);
    ThreadWaits(ws, es, j + 1, i, es[i].tid);
  }

  lemma StaysInRun(ws: seq<World>, es: seq<Event>, m: nat, tid: nat)
    requires IsRun(ws, es) && m < |es| && tid in ws[m].threads && tid in ws[m + 1].threads
    ensures ws[m + 1].threads[tid] == ws[m].threads[tid]
  {
    RunKeepsInv(ws, es, m);
    ThreadStays(ws[m], es[m], tid);
  }

  /** Where a waiting exchange started. */
  lemma {:induction false} ExchangeStart(ws: seq<World>, es: seq<Event>, k: nat, tid: nat) returns (j: nat)
    requires IsRun(ws, es) && k < |ws| && tid in ws[k].threads && ws[k].threads[tid].Exchanging?
    ensures j < k && es[j].TakeCode? && es[j].tid == tid && Step(ws[j], es[j]).1 == CodeAccepted
    ensures forall m :: j < m <= k ==> tid in ws[m].threads
  {
    j := k - 1;
    RunKeepsInv(ws, es, j);
    if tid in ws[j].threads {
      ThreadStays(ws[j], es[j], tid);
      j := ExchangeStart(ws, es, j, tid);
    } else {
      StartedByTaking(ws[j], es[j], tid);
      ThreadOfEvent(ws[j], es[j], tid);
    }
  }

  lemma ThreadOfEvent(w: World, e: Event, tid: nat)
    requires e.TakeCode? && Enabled(w, e) && |w.codes| <= KEEP_ROWS && tid !in w.threads && tid in Step(w, e).0.threads
    ensures e.tid == tid
  {
    TakeCodeCases(w, e);
  }

  /** Each issuing step has exactly one time. */
  lemma IssueTimeIs(ws: seq<World>, es: seq<Event>, i: nat, now: int)
    requires IsRun(ws, es) && i < |es| && Step(ws[i], es[i]).1.TokensIssued?
    ensures es[i].Refresh? || es[i].StoreGrant?
    ensures IssueTime(ws, es, i, now) <==> now == Clock(ws[i], es[i])
  {
    if es[i].StoreGrant? {
      var j := ExchangeStart(ws, es, i, es[i].tid);
      assert Exchanged(ws, es, j, i);
      WaitingSince(ws, es, j, i);
      if IssueTime(ws, es, i, now) {
        var m :| Exchanged(ws, es, m, i) && es[m].now == now;
        WaitingSince(ws, es, m, i);
      }
    }
  }

  // ------------------------------------------------------------------ lifetimes --

  lemma IssuedTokenIsNew(w: World, e: Event)
    requires Inv(w) && Enabled(w, e) && Step(w, e).1.TokensIssued?
    ensures (e.Refresh? || e.StoreGrant?) && Step(w, e).1.access == e.access && Step(w, e).1.refresh == e.refresh
    ensures e.access !in w.ledger && e.refresh !in w.ledger
    ensures var f := Step(w, e).1.family;
            && f in Step(w, e).0.generations
            && var n := Step(w, e).0.generations[f];
            e.access in Step(w, e).0.ledger && Step(w, e).0.ledger[e.access] == Issue(f, AccessToken, n)
            && e.refresh in Step(w, e).0.ledger && Step(w, e).0.ledger[e.refresh] == Issue(f, RefreshToken, n)
  {
    if e.Refresh? { RotationIsNew(w, e); } else { StoringIsNew(w, e); }
  }

  lemma RotationIsNew(w: World, e: Event)
    requires Inv(w) && e.Refresh? && Enabled(w, e) && Step(w, e).1.TokensIssued?
    ensures var v, f := Step(w, e).0, Step(w, e).1.family;
            f in w.generations && f in v.generations && Issues(w, v, f, v.generations[f], e.access, e.refresh)
  {
    var i := RefreshRotates(w, e);
    assert GrantOk(w.grants[i], w.tokens, w.generations);
    RotatedParts(w, i, e.access, e.refresh, e.now);
  }

  lemma StoringIsNew(w: World, e: Event)
    requires e.StoreGrant? && Enabled(w, e) && Step(w, e).1.TokensIssued?
    ensures Step(w, e).1.family == e.grantId && Issues(w, Step(w, e).0, e.grantId, 0, e.access, e.refresh)
  {
    StoreGrantCases(w, e);
  }

  lemma IssuedIsKnown(ws: seq<World>, es: seq<Event>, i: nat, token: string, kind: Kind)
    requires IsRun(ws, es) && Issued(ws, es, i, token, kind)
    ensures token !in ws[i].ledger && token in ws[i + 1].ledger
    ensures var f := Step(ws[i], es[i]).1.family;
            f in ws[i + 1].generations && ws[i + 1].ledger[token] == Issue(f, kind, ws[i + 1].generations[f])
  {
    RunKeepsInv(ws, es, i);
    IssuedTokenIsNew(ws[i], es[i]);
  }

  /** No token is issued twice. */
  lemma IssuedOnce(ws: seq<World>, es: seq<Event>, i: nat, j: nat, token: string, kind: Kind, other: Kind)
    requires IsRun(ws, es) && Issued(ws, es, i, token, kind) && Issued(ws, es, j, token, other)
    ensures i == j
  {
    IssuedIsKnown(ws, es, i, token, kind);
    IssuedIsKnown(ws, es, j, token, other);
    if i < j { RunExtends(ws, es, i + 1, j); }
    if j < i { RunExtends(ws, es, j + 1, i); }
  }

  /** The token is the current one of a stored grant. */
  ghost predicate Stands(w: World, token: string, kind: Kind) { exists n :: Current(w, token, kind, n) }

  /** A current token was issued, and its grant says until when it lives. */
  lemma CurrentWasIssued(ws: seq<World>, es: seq<Event>, k: nat, token: string, kind: Kind, n: nat)
    returns (i: nat, now: int)
    requires IsRun(ws, es) && k < |ws| && Current(ws[k], token, kind, n)
    ensures i < k && Issued(ws, es, i, token, kind) && IssueTime(ws, es, i, now)
    ensures ws[k].grants[n].accessExp == now + ACCESS_TTL_SEC && ws[k].grants[n].refreshExp == now + REFRESH_TTL_SEC
  {
    RunKeepsInv(ws, es, k);
    HashesTellPlaces(ws[k], token, n);
    i := RowHasMint(ws, es, k, ws[k].grants[n]);
    now := Clock(ws[i], es[i]);
    IssueTimeIs(ws, es, i, now);
  }

  /** So of a current token: it has not expired exactly if it was issued less than its lifetime ago. */
  lemma LifetimeIs(ws: seq<World>, es: seq<Event>, k: nat, token: string, kind: Kind, n: nat, now: int, ttl: int)
    requires IsRun(ws, es) && k < |ws| && Current(ws[k], token, kind, n)
    requires ttl == if kind == AccessToken then ACCESS_TTL_SEC else REFRESH_TTL_SEC
    ensures (if kind == AccessToken then ws[k].grants[n].accessExp else ws[k].grants[n].refreshExp) > now
       <==> IssuedWithin(ws, es, k, token, kind, now, ttl)
  {
    var i, at := CurrentWasIssued(ws, es, k, token, kind, n);
    forall m, t | m < k && Issued(ws, es, m, token, kind) && IssueTime(ws, es, m, t) ensures t == at {
      IssuedOnce(ws, es, i, m, token, kind, kind);
      IssueTimeIs(ws, es, m, t);
      IssueTimeIs(ws, es, m, at);
    }
  }

  /** The token was issued before step `k`, less than `ttl` before the time `now`. */
  ghost predicate IssuedWithin(ws: seq<World>, es: seq<Event>, k: int, token: string, kind: Kind, now: int, ttl: int)
    requires IsRun(ws, es)
  {
    exists i, at :: i < k && Issued(ws, es, i, token, kind) && IssueTime(ws, es, i, at) && now < at + ttl
  }

  /** In every run a bearer is admitted exactly with the current access token of a stored grant, until one hour after
      the exchange or refresh that issued it. */
  lemma AccessTokenLivesAnHour(ws: seq<World>, es: seq<Event>, k: nat)
    requires IsRun(ws, es) && k < |es| && es[k].ReadToken?
    ensures Step(ws[k], es[k]).1.Admitted?
       <==> Stands(ws[k], es[k].token, AccessToken)
            && IssuedWithin(ws, es, k, es[k].token, AccessToken, es[k].now, 3600)
  {
    var w, e := ws[k], es[k];
    RunKeepsInv(ws, es, k);
    AdmissionIsExact(w, e);
    forall n | Current(w, e.token, AccessToken, n)
      ensures w.grants[n].accessExp > e.now <==> IssuedWithin(ws, es, k, e.token, AccessToken, e.now, 3600)
    {
      LifetimeIs(ws, es, k, e.token, AccessToken, n, e.now, 3600);
    }
  }

  /** And a refresh succeeds exactly with the current refresh token of a stored grant, presented by its client (or none
      named) while its owner is an admin, until thirty days after the exchange or refresh that issued it. */
  lemma RefreshTokenLivesAMonth(ws: seq<World>, es: seq<Event>, k: nat)
    requires IsRun(ws, es) && k < |es| && es[k].Refresh?
    ensures Step(ws[k], es[k]).1.TokensIssued?
       <==> && es[k].isAdmin
            && (exists n :: Current(ws[k], es[k].token, RefreshToken, n)
                            && (es[k].clientId == "" || ws[k].grants[n].clientId == es[k].clientId))
            && IssuedWithin(ws, es, k, es[k].token, RefreshToken, es[k].now, 30 * 24 * 3600)
  {
    var w, e := ws[k], es[k];
    RunKeepsInv(ws, es, k);
    PlaceDecides(w, e);
    forall n | Current(w, e.token, RefreshToken, n)
      ensures w.grants[n].refreshExp > e.now
         <==> IssuedWithin(ws, es, k, e.token, RefreshToken, e.now, 30 * 24 * 3600)
    {
      LifetimeIs(ws, es, k, e.token, RefreshToken, n, e.now, 30 * 24 * 3600);
    }
  }

  /** Issued tokens show their kind, and no other bearer is looked up. */
  lemma TokensShowTheirKind(w: World, e: Event)
    requires Enabled(w, e)
    ensures Step(w, e).1.TokensIssued? ==>
              && |Step(w, e).1.access| >= 7 && Step(w, e).1.access[..7] == "rfa_at_"
              && |Step(w, e).1.refresh| >= 7 && Step(w, e).1.refresh[..7] == "rfa_rt_"
    ensures Step(w, e).1.Admitted? ==> e.ReadToken? && |e.token| >= 7 && e.token[..7] == "rfa_at_"
  {
    if e.Refresh? || e.StoreGrant? {
      StartsWithIs(e.access, ACCESS_PREFIX);
      StartsWithIs(e.refresh, REFRESH_PREFIX);
    } else if e.ReadToken? {
      StartsWithIs(e.token, ACCESS_PREFIX);
    }
  }

  // ------------------------------------------------------------------ which token is current --

  /** A family's generation changes only when tokens are issued to it. */
  lemma GenerationStays(w: World, e: Event, f: string)
    requires Inv(w) && Enabled(w, e) && f in w.generations
    requires Step(w, e).1.TokensIssued? ==> Step(w, e).1.family != f
    ensures f in Step(w, e).0.generations && Step(w, e).0.generations[f] == w.generations[f]
  {
    if e.Refresh? {
      if Step(w, e).1.TokensIssued? { RotationIsNew(w, e); } else { RefreshRemoves(w, e, Step(w, e).0); }
    } else if e.StoreGrant? {
      StoreGrantCases(w, e);
    } else {
      OtherHistoryStays(w, e);
    }
  }

  lemma OtherHistoryStays(w: World, e: Event)
    requires Inv(w) && Enabled(w, e) && !e.Refresh? && !e.StoreGrant?
    ensures Step(w, e).0.generations == w.generations
  {
    match e
    case TakeCode(_, _, _, _, _, _) => TakeCodeCases(w, e);
    case Revoke(token) => RevokeIsFilter(w, token);
    case RevokeGrant(adminId, grantId) => RevokeGrantIsFilter(w, adminId, grantId);
    case TouchGrant(tid) => TouchCases(w, tid);
    case StoreCode(_, _, _, _) =>
    case Register(_, _, _, _) => ReadersChangeNoRows(w, e);
    case CheckConsent(_, _) => ReadersChangeNoRows(w, e);
    case ReadToken(_, _, _) => ReadersChangeNoRows(w, e);
  }

  /** Tokens are issued to this family between two steps. */
  ghost predicate IssuedBetween(ws: seq<World>, es: seq<Event>, i: int, k: int, f: string)
    requires IsRun(ws, es)
  {
    exists m :: i < m < k && 0 <= m < |es| && Step(ws[m], es[m]).1.TokensIssued? && Step(ws[m], es[m]).1.family == f
  }

  lemma {:induction false} GenerationSince(ws: seq<World>, es: seq<Event>, i: nat, k: nat, f: string)
    requires IsRun(ws, es) && i < k < |ws| && f in ws[i + 1].generations && !IssuedBetween(ws, es, i, k, f)
    ensures f in ws[k].generations && ws[k].generations[f] == ws[i + 1].generations[f]
  {
    if i + 1 < k {
      GenerationSince(ws, es, i, k - 1, f);
      RunKeepsInv(ws, es, k - 1);
      GenerationStays(ws[k - 1], es[k - 1], f);
    }
  }

  lemma GenerationAfter(ws: seq<World>, es: seq<Event>, i: nat, k: nat, f: string)
    requires IsRun(ws, es) && i < k < |ws| && f in ws[i + 1].generations && IssuedBetween(ws, es, i, k, f)
    ensures f in ws[k].generations && ws[k].generations[f] > ws[i + 1].generations[f]
  {
    var m :| i < m < k && Step(ws[m], es[m]).1.TokensIssued? && Step(ws[m], es[m]).1.family == f;
    RunExtends(ws, es, i + 1, m);
    RunExtends(ws, es, m + 1, k);
    RunKeepsInv(ws, es, m);
    GenerationRises(ws[m], es[m]);
  }

  lemma GenerationRises(w: World, e: Event)
    requires Inv(w) && Enabled(w, e) && Step(w, e).1.TokensIssued? && Step(w, e).1.family in w.generations
    ensures var f := Step(w, e).1.family;
            f in Step(w, e).0.generations && Step(w, e).0.generations[f] > w.generations[f]
  {
    IssuedTokenIsNew(w, e);
    if e.Refresh? { RefreshConsumes(w, e); } else { StoringIsNew(w, e); }
  }

  /** A token is current exactly while its grant is stored and no later token of its kind has been issued to it. */
  lemma CurrentIsLatest(ws: seq<World>, es: seq<Event>, i: nat, k: nat, token: string, kind: Kind)
    requires IsRun(ws, es) && i < k < |ws| && Issued(ws, es, i, token, kind)
    ensures var f := Step(ws[i], es[i]).1.family;
            (Stands(ws[k], token, kind) <==> Live(ws[k].grants, f) && !IssuedBetween(ws, es, i, k, f))
  {
    var f := Step(ws[i], es[i]).1.family;
    IssuedIsKnown(ws, es, i, token, kind);
    RunExtends(ws, es, i + 1, k);
    if IssuedBetween(ws, es, i, k, f) { GenerationAfter(ws, es, i, k, f); } else { GenerationSince(ws, es, i, k, f); }
    if Live(ws[k].grants, f) && !IssuedBetween(ws, es, i, k, f) {
      var n :| 0 <= n < |ws[k].grants| && ws[k].grants[n].id == f;
      assert Current(ws[k], token, kind, n);
    }
  }
}
